/** Properties of the field rules: what one line does to a field, and what a
    field holds after all of its lines (the fold `AbsorbAll` against the
    closed form `FieldOfLines`). */
module FieldLaws {
  import opened Results
  import opened Text
  import opened Fields

  // ---------------------------------------------------------------------------
  // Readings of one body

  /** The (id, description) pair keeps every token of the body: the description
      re-tokenises to the tokens after the id. */
  lemma IdAndRestKeepsTokens(body: string)
    requires HasId(body)
    ensures SplitWs(body) == [IdAndRest(body).0] + SplitWs(IdAndRest(body).1)
  {
    var toks := SplitWs(body);
    assert forall i :: 0 <= i < |toks[1..]| ==> toks[1..][i] == toks[i + 1];
    SplitWsJoin(toks[1..]);
    assert toks == [toks[0]] + toks[1..];
  }

  /** An equation's sides re-join to the text around " <=> ", and each side's
      compounds re-join to that side. */
  lemma EquationSidesRoundTrip(body: string)
    requires IsEquation(body)
    ensures var sides := SplitOn(body, " <=> ");
            && sides[0] + " <=> " + sides[1] == body
            && Join(" + ", SidesOf(body).0) == Strip(sides[0])
            && Join(" + ", SidesOf(body).1) == Strip(sides[1])
  {
    var sides := SplitOn(body, " <=> ");
    JoinSplitOn(body, " <=> ");
    assert Join(" <=> ", sides) == sides[0] + " <=> " + Join(" <=> ", sides[1..]);
    assert sides[1..] == [sides[1]];
    JoinSplitOn(Strip(sides[0]), " + ");
    JoinSplitOn(Strip(sides[1]), " + ");
  }

  /** A Pathway CLASS pair is its item with only the sixth character removed
      (an item of at most five characters becomes (item, "")). */
  lemma ClassCodesDropOnlyTheSixthChar(body: string)
    ensures var items := SplitOn(body, "; ");
            var ps := ClassCodesOf(body);
            && Join("; ", items) == body
            && |ps| == |items|
            && forall k :: 0 <= k < |items| ==>
                 if |items[k]| > 5 then ps[k].0 + [items[k][5]] + ps[k].1 == items[k]
                 else ps[k] == (items[k], "")
  {
    var items := SplitOn(body, "; ");
    var ps := ClassCodesOf(body);
    JoinSplitOn(body, "; ");
    forall k | 0 <= k < |items|
      ensures if |items[k]| > 5 then ps[k].0 + [items[k][5]] + ps[k].1 == items[k]
              else ps[k] == (items[k], "")
    {
      ClassCodeOfItem(items[k]);
    }
  }

  lemma ClassCodeOfItem(it: string)
    ensures if |it| > 5 then Take(it, 5) + [it[5]] + Drop(it, 6) == it
            else (Take(it, 5), Drop(it, 6)) == (it, "")
  {
    if |it| > 5 {
      if |it| == 6 {
        assert it == it[..5] + [it[5]];
      } else {
        assert it == it[..5] + [it[5]] + it[6..];
      }
    }
  }

  /** The map of a list of pairs has exactly the pairs' keys. */
  lemma {:induction false} MapOfKeys<K, V>(ps: seq<(K, V)>)
    ensures MapOf(ps).Keys == set i | 0 <= i < |ps| :: ps[i].0
    decreases |ps|
  {
    if ps != [] {
      var rest := ps[1..];
      MapOfKeys(rest);
      var later := set i | 0 <= i < |rest| :: rest[i].0;
      var all := set i | 0 <= i < |ps| :: ps[i].0;
      assert all == {ps[0].0} + later by {
        forall x | x in all ensures x in {ps[0].0} + later {
          var i :| 0 <= i < |ps| && x == ps[i].0;
          if i > 0 { assert x == rest[i - 1].0; }
        }
        forall x | x in later ensures x in all {
          var i :| 0 <= i < |rest| && x == rest[i].0;
          assert x == ps[i + 1].0;
        }
      }
    }
  }

  lemma UnionRightWins<K, V>(a: map<K, V>, m: map<K, V>, k: K)
    requires k in m
    ensures k in a + m && (a + m)[k] == m[k]
  {
  }

  lemma UnionLeftKept<K, V>(k: K, v: V, m: map<K, V>)
    requires k !in m
    ensures k in map[k := v] + m && (map[k := v] + m)[k] == v
  {
  }

  /** A key is mapped to the value of the last pair with that key. */
  lemma {:induction false} LastPairWins<K, V>(ps: seq<(K, V)>, i: nat)
    requires i < |ps|
    requires forall j :: i < j < |ps| ==> ps[j].0 != ps[i].0
    ensures ps[i].0 in MapOf(ps) && MapOf(ps)[ps[i].0] == ps[i].1
    decreases |ps|
  {
    var rest := ps[1..];
    if i == 0 {
      MapOfKeys(rest);
      forall j | 0 <= j < |rest| ensures rest[j].0 != ps[0].0 {
        assert rest[j] == ps[j + 1];
      }
      UnionLeftKept(ps[0].0, ps[0].1, MapOf(rest));
    } else {
      forall j | i - 1 < j < |rest| ensures rest[j].0 != rest[i - 1].0 {
        assert rest[j] == ps[j + 1];
      }
      LastPairWins(rest, i - 1);
      UnionRightWins(map[ps[0].0 := ps[0].1], MapOf(rest), rest[i - 1].0);
    }
  }

  /** The sub-key map has one key per line. */
  lemma SubKeyMapOfKeys(bodies: seq<string>)
    requires AllHaveSubKeys(bodies)
    ensures SubKeyMapOf(bodies).Keys == set i | 0 <= i < |bodies| :: SubKey(bodies[i])
  {
    var ps := SubKeyLines(bodies);
    MapOfKeys(ps);
    assert (set i | 0 <= i < |ps| :: ps[i].0) == set i | 0 <= i < |bodies| :: SubKey(bodies[i]);
  }

  /** A KEY's ids come from the last line with that KEY. */
  lemma LaterSubKeyLineWins(bodies: seq<string>, i: nat)
    requires AllHaveSubKeys(bodies)
    requires i < |bodies|
    requires forall j :: i < j < |bodies| ==> SubKey(bodies[j]) != SubKey(bodies[i])
    ensures SubKey(bodies[i]) in SubKeyMapOf(bodies)
    ensures SubKeyMapOf(bodies)[SubKey(bodies[i])] == SubTokens(bodies[i])
  {
    LastPairWins(SubKeyLines(bodies), i);
  }

  // ---------------------------------------------------------------------------
  // One line

  /** The accumulating rules only extend the value they had: earlier elements,
      earlier text and earlier sub-keys are never changed. */
  lemma AccumulatingRulesOnlyExtend(rule: Rule, name: string, v: FieldValue, body: string)
    requires Holds(rule, v)
    requires Absorb(rule, name, Some(v), body).Success?
    ensures var w := Absorb(rule, name, Some(v), body).value.value;
            && (rule == TokenConcat ==> v.items <= w.items && |w.items| == |v.items| + |SplitWs(body)|)
            && (rule == LineAppend ==> w.items == v.items + [body])
            && (rule == PairAppend ==> w.pairs == v.pairs + [IdAndRest(body)])
            && (rule == SpaceJoined ==> v.s + " " <= w.s)
            && (rule == SubKeyEach ==>
                  && v.groups.Keys <= w.groups.Keys
                  && forall k :: k in v.groups && k != SubKey(body) ==> w.groups[k] == v.groups[k])
            && (rule == SubKeyFirst ==> w == v)
  {
    var w := Absorb(rule, name, Some(v), body).value.value;
    match rule
    case TokenConcat =>
      assert w.items == v.items + SplitWs(body);
    case LineAppend => {}
    case PairAppend => {}
    case SpaceJoined =>
      assert w.s == v.s + " " + body;
    case SubKeyEach =>
      assert w.groups == v.groups[SubKey(body) := SubTokens(body)];
    case SubKeyFirst => {}
    case _ => {}
  }

  // ---------------------------------------------------------------------------
  // All lines of one field

  /** A field whose first line is rejected fails with that line's error. */
  lemma AbsorbAllStopsAtFailure(rule: Rule, name: string, cur: Option<FieldValue>, bodies: seq<string>)
    requires Fits(rule, cur) && bodies != [] && Absorb(rule, name, cur, bodies[0]).Failure?
    ensures AbsorbAll(rule, name, cur, bodies) == Failure(Absorb(rule, name, cur, bodies[0]).error)
  {
  }

  /** A field whose first line is accepted continues from that line's value. */
  lemma AbsorbAllContinues(rule: Rule, name: string, cur: Option<FieldValue>, bodies: seq<string>)
    requires Fits(rule, cur) && bodies != [] && Absorb(rule, name, cur, bodies[0]).Success?
    ensures Fits(rule, Absorb(rule, name, cur, bodies[0]).value)
    ensures AbsorbAll(rule, name, cur, bodies) ==
              AbsorbAll(rule, name, Absorb(rule, name, cur, bodies[0]).value, bodies[1..])
  {
    AbsorbKeepsShape(rule, name, cur, bodies[0]);
  }

  /** A field the parser does not know fails at its first line. */
  lemma UnknownFailsAtOnce(name: string, cur: Option<FieldValue>, bodies: seq<string>)
    requires Fits(Unknown, cur) && bodies != []
    ensures AbsorbAll(Unknown, name, cur, bodies) == Failure(UnknownField(name))
  {
    AbsorbAllStopsAtFailure(Unknown, name, cur, bodies);
  }

  /** The rules whose value depends only on the field's last line. */
  predicate Overwrites(rule: Rule) {
    rule.FirstToken? || rule.Verbatim? || rule.CommaList? || rule.TokenList?
    || rule.PairOverwrite? || rule.ClassPairs? || rule.EquationSplit?
  }

  /** Whether a body can be read at all under the rule. */
  predicate Accepts(rule: Rule, body: string) {
    match rule
    case FirstToken | PairAppend | PairOverwrite => HasId(body)
    case EquationSplit => IsEquation(body)
    case SubKeyEach | SubKeyFirst => HasSubKey(body)
    case Unknown => false
    case _ => true
  }

  /** The error a rejected body raises. */
  function Rejection(rule: Rule, name: string): ParseError {
    match rule
    case EquationSplit => BadEquation(name)
    case SubKeyEach | SubKeyFirst => NoSubKey(name)
    case Unknown => UnknownField(name)
    case _ => EmptyBody(name)
  }

  /** One line fails its field exactly when the rule cannot read the body (a
      SubKeyFirst field that already exists reads nothing), and the error names the field. */
  lemma AbsorbFailsIff(rule: Rule, name: string, cur: Option<FieldValue>, body: string)
    requires Fits(rule, cur)
    ensures Absorb(rule, name, cur, body).Failure? <==> !Accepts(rule, body) && !(rule.SubKeyFirst? && cur.Some?)
    ensures Absorb(rule, name, cur, body).Failure? ==> Absorb(rule, name, cur, body).error == Rejection(rule, name)
  {
    match rule
    case FirstToken => {}
    case Verbatim => {}
    case CommaList => {}
    case TokenList => {}
    case TokenConcat => {}
    case SpaceJoined => {}
    case PairAppend => {}
    case PairOverwrite => {}
    case LineAppend => {}
    case ClassPairs => {}
    case EquationSplit => {}
    case SubKeyEach => {}
    case SubKeyFirst => {}
    case Ignored => {}
    case Unknown => {}
  }

  lemma OverwriteForgets(rule: Rule, name: string, cur: Option<FieldValue>, body: string)
    requires Overwrites(rule) && Fits(rule, cur)
    ensures Absorb(rule, name, cur, body) == Absorb(rule, name, None, body)
    ensures Absorb(rule, name, None, body) ==
              if Accepts(rule, body) then Success(Absorb(rule, name, None, body).value)
              else Failure(Rejection(rule, name))
    ensures Accepts(rule, body) ==> Absorb(rule, name, None, body).value.Some?
  {
    match rule
    case FirstToken => {}
    case Verbatim => {}
    case CommaList => {}
    case TokenList => {}
    case PairOverwrite => {}
    case ClassPairs => {}
    case EquationSplit => {}
  }

  /** Every body is accepted by the rule. */
  predicate AllAccepted(rule: Rule, bodies: seq<string>) {
    forall i :: 0 <= i < |bodies| ==> Accepts(rule, bodies[i])
  }

  lemma AllAcceptedCons(rule: Rule, bodies: seq<string>)
    requires bodies != []
    ensures AllAccepted(rule, bodies) <==> Accepts(rule, bodies[0]) && AllAccepted(rule, bodies[1..])
  {
    AllCons(b => Accepts(rule, b), bodies);
  }

  /** For an overwriting rule, the last line decides the value, unless some line is rejected. */
  lemma {:induction false} OverwriteLastLineWins(rule: Rule, name: string, cur: Option<FieldValue>, bodies: seq<string>)
    requires Overwrites(rule) && Fits(rule, cur)
    ensures AbsorbAll(rule, name, cur, bodies) ==
              if !AllAccepted(rule, bodies) then Failure(Rejection(rule, name))
              else if bodies == [] then Success(cur)
              else Absorb(rule, name, None, bodies[|bodies| - 1])
    decreases |bodies|
  {
    if bodies != [] {
      var b, rest := bodies[0], bodies[1..];
      OverwriteForgets(rule, name, cur, b);
      AllAcceptedCons(rule, bodies);
      if !Accepts(rule, b) {
        AbsorbAllStopsAtFailure(rule, name, cur, bodies);
      } else {
        AbsorbAllContinues(rule, name, cur, bodies);
        OverwriteLastLineWins(rule, name, Absorb(rule, name, None, b).value, rest);
        if rest != [] {
          assert rest[|rest| - 1] == bodies[|bodies| - 1];
        }
      }
    }
  }

  /** An accepted line leaves a stored field present and a skipped field absent. */
  lemma AbsorbPresence(rule: Rule, name: string, cur: Option<FieldValue>, body: string)
    requires Fits(rule, cur)
    ensures Absorb(rule, name, cur, body).Success? ==>
              (Absorb(rule, name, cur, body).value.Some? <==> Stores(rule))
  {
    AbsorbKeepsShape(rule, name, cur, body);
    match rule
    case FirstToken => {}
    case Verbatim => {}
    case CommaList => {}
    case TokenList => {}
    case TokenConcat => {}
    case SpaceJoined => {}
    case PairAppend => {}
    case PairOverwrite => {}
    case LineAppend => {}
    case ClassPairs => {}
    case EquationSplit => {}
    case SubKeyEach => {}
    case SubKeyFirst => {}
    case Ignored => {}
    case Unknown => {}
  }

  /** After all of its lines, a field is present exactly when its rule stores
      something and it was present before or has a line. */
  lemma {:induction false} AbsorbAllPresence(rule: Rule, name: string, cur: Option<FieldValue>, bodies: seq<string>)
    requires Fits(rule, cur)
    ensures AbsorbAll(rule, name, cur, bodies).Success? ==>
              (AbsorbAll(rule, name, cur, bodies).value.Some? <==> Stores(rule) && (cur.Some? || bodies != []))
    decreases |bodies|
  {
    if bodies != [] {
      if Absorb(rule, name, cur, bodies[0]).Failure? {
        AbsorbAllStopsAtFailure(rule, name, cur, bodies);
      } else {
        AbsorbPresence(rule, name, cur, bodies[0]);
        AbsorbAllContinues(rule, name, cur, bodies);
        AbsorbAllPresence(rule, name, Absorb(rule, name, cur, bodies[0]).value, bodies[1..]);
      }
    } else if cur.Some? {
      HoldsOnlyStored(rule, cur.value);
    }
  }

  lemma ConcatAssoc<T>(a: seq<T>, b: seq<T>, c: seq<T>)
    ensures (a + b) + c == a + (b + c)
  {
  }

  lemma ConcatNil<T>(a: seq<T>)
    ensures a + [] == a && [] + a == a
  {
  }

  lemma TokensOfLinesCons(p: seq<string>, bodies: seq<string>)
    requires bodies != []
    ensures (p + SplitWs(bodies[0])) + TokensOfLines(bodies[1..]) == p + TokensOfLines(bodies)
  {
    var w, t := SplitWs(bodies[0]), TokensOfLines(bodies[1..]);
    assert TokensOfLines(bodies) == w + t;
    ConcatAssoc(p, w, t);
  }

  /** A TokenConcat field holds the tokens of all of its lines, after those it already had. */
  lemma {:induction false} TokenConcatCollects(name: string, cur: Option<FieldValue>, bodies: seq<string>)
    requires Fits(TokenConcat, cur)
    ensures AbsorbAll(TokenConcat, name, cur, bodies) ==
              Success(if bodies == [] then cur else Some(StrSeq(ItemsSoFar(cur) + TokensOfLines(bodies))))
    decreases |bodies|
  {
    if bodies != [] {
      var p, rest := ItemsSoFar(cur), bodies[1..];
      var next := Some(StrSeq(p + SplitWs(bodies[0])));
      AbsorbAllContinues(TokenConcat, name, cur, bodies);
      TokenConcatCollects(name, next, rest);
      TokensOfLinesCons(p, bodies);
      if rest == [] {
        assert TokensOfLines(rest) == [];
        ConcatNil(p + SplitWs(bodies[0]));
      }
    }
  }

  /** The text so far followed by one space, or nothing while the field is absent. */
  function JoinedSoFar(cur: Option<FieldValue>): string
    requires cur.None? || cur.value.Str?
  {
    if cur.None? then "" else cur.value.s + " "
  }

  /** A SpaceJoined field holds all of its lines joined by single spaces, after the text it already had. */
  lemma {:induction false} SpaceJoinedCollects(name: string, cur: Option<FieldValue>, bodies: seq<string>)
    requires Fits(SpaceJoined, cur)
    ensures AbsorbAll(SpaceJoined, name, cur, bodies) ==
              Success(if bodies == [] then cur else Some(Str(JoinedSoFar(cur) + Join(" ", bodies))))
    decreases |bodies|
  {
    if bodies != [] {
      var j, b, rest := JoinedSoFar(cur), bodies[0], bodies[1..];
      if cur.None? {
        ConcatNil(b);
      }
      var next := Some(Str(j + b));
      assert Absorb(SpaceJoined, name, cur, b) == Success(next);
      AbsorbAllContinues(SpaceJoined, name, cur, bodies);
      SpaceJoinedCollects(name, next, rest);
      if rest == [] {
        assert Join(" ", bodies) == b;
      } else {
        var t := Join(" ", rest);
        assert Join(" ", bodies) == b + " " + t;
        ConcatAssoc(j + b, " ", t);
        ConcatAssoc(j, b, " " + t);
        ConcatAssoc(b, " ", t);
      }
    }
  }

  /** Every body has an id exactly when the first one does and all later ones do. */
  lemma AllHaveIdsCons(bodies: seq<string>)
    requires bodies != []
    ensures AllHaveIds(bodies) <==> HasId(bodies[0]) && AllHaveIds(bodies[1..])
  {
    AllCons(HasId, bodies);
  }

  /** A PairAppend field holds one (id, description) pair per line, after those it already had;
      a line without an id fails the field. */
  lemma {:induction false} PairAppendCollects(name: string, cur: Option<FieldValue>, bodies: seq<string>)
    requires Fits(PairAppend, cur)
    ensures AbsorbAll(PairAppend, name, cur, bodies) ==
              if !AllHaveIds(bodies) then Failure(EmptyBody(name))
              else Success(if bodies == [] then cur else Some(PairSeq(PairsSoFar(cur) + PairsOf(bodies))))
    decreases |bodies|
  {
    if bodies != [] {
      var rest := bodies[1..];
      if !HasId(bodies[0]) {
        AbsorbAllStopsAtFailure(PairAppend, name, cur, bodies);
        AllHaveIdsCons(bodies);
      } else {
        var p, q := PairsSoFar(cur), IdAndRest(bodies[0]);
        var next := Some(PairSeq(p + [q]));
        AbsorbAllContinues(PairAppend, name, cur, bodies);
        PairAppendCollects(name, next, rest);
        AllHaveIdsCons(bodies);
        if AllHaveIds(rest) {
          var t := PairsOf(rest);
          assert PairsOf(bodies) == [q] + t;
          if rest == [] {
            assert t == [];
            ConcatNil(p + [q]);
            ConcatNil([q]);
          } else {
            ConcatAssoc(p, [q], t);
          }
        }
      }
    }
  }

  /** A LineAppend field holds every line verbatim, after those it already had. */
  lemma {:induction false} LineAppendCollects(name: string, cur: Option<FieldValue>, bodies: seq<string>)
    requires Fits(LineAppend, cur)
    ensures AbsorbAll(LineAppend, name, cur, bodies) ==
              Success(if bodies == [] then cur else Some(StrSeq(ItemsSoFar(cur) + bodies)))
    decreases |bodies|
  {
    if bodies != [] {
      var p, b, rest := ItemsSoFar(cur), bodies[0], bodies[1..];
      var next := Some(StrSeq(p + [b]));
      AbsorbAllContinues(LineAppend, name, cur, bodies);
      LineAppendCollects(name, next, rest);
      assert bodies == [b] + rest;
      if rest == [] {
        ConcatNil(p + [b]);
        ConcatNil([b]);
      } else {
        ConcatAssoc(p, [b], rest);
      }
    }
  }

  lemma AllHaveSubKeysCons(bodies: seq<string>)
    requires bodies != []
    ensures AllHaveSubKeys(bodies) <==> HasSubKey(bodies[0]) && AllHaveSubKeys(bodies[1..])
  {
    AllCons(HasSubKey, bodies);
  }

  lemma MapUnionEmpty<K, V>(m: map<K, V>)
    ensures map[] + m == m
  {
  }

  lemma MapUpdateThenUnion<K, V>(g: map<K, V>, k: K, v: V, m: map<K, V>)
    ensures g[k := v] + m == g + (map[k := v] + m)
  {
  }

  lemma UnionEmpty<K, V>(g: map<K, V>)
    ensures g + map[] == g
  {
  }

  lemma SubKeyMapOfCons(bodies: seq<string>)
    requires bodies != [] && AllHaveSubKeys(bodies)
    ensures AllHaveSubKeys(bodies[1..])
    ensures SubKeyMapOf(bodies) == map[SubKey(bodies[0]) := SubTokens(bodies[0])] + SubKeyMapOf(bodies[1..])
  {
    AllHaveSubKeysCons(bodies);
    var x := (SubKey(bodies[0]), SubTokens(bodies[0]));
    assert SubKeyLines(bodies) == [x] + SubKeyLines(bodies[1..]);
    MapOfCons(x, SubKeyLines(bodies[1..]));
  }

  lemma MapOfCons<K, V>(x: (K, V), ps: seq<(K, V)>)
    ensures MapOf([x] + ps) == map[x.0 := x.1] + MapOf(ps)
  {
    assert ([x] + ps)[1..] == ps;
  }

  lemma SubKeyEachStep(name: string, cur: Option<FieldValue>, bodies: seq<string>, next: Option<FieldValue>)
    requires Fits(SubKeyEach, cur) && bodies != [] && HasSubKey(bodies[0])
    requires next == Some(SubMap(GroupsSoFar(cur)[SubKey(bodies[0]) := SubTokens(bodies[0])]))
    ensures Fits(SubKeyEach, next)
    ensures AbsorbAll(SubKeyEach, name, cur, bodies) == AbsorbAll(SubKeyEach, name, next, bodies[1..])
  {
    assert Absorb(SubKeyEach, name, cur, bodies[0]) == Success(next);
    AbsorbAllContinues(SubKeyEach, name, cur, bodies);
  }

  /** The first "KEY: ids" line, then the map of the rest, over the groups so far. */
  lemma SubKeyMapMerge(g: map<string, seq<string>>, bodies: seq<string>)
    requires bodies != [] && HasSubKey(bodies[0]) && AllHaveSubKeys(bodies[1..])
    ensures AllHaveSubKeys(bodies)
    ensures var k, t := SubKey(bodies[0]), SubTokens(bodies[0]);
            g + SubKeyMapOf(bodies) == if bodies[1..] == [] then g[k := t] else g[k := t] + SubKeyMapOf(bodies[1..])
  {
    AllHaveSubKeysCons(bodies);
    SubKeyMapOfCons(bodies);
    var k, t := SubKey(bodies[0]), SubTokens(bodies[0]);
    var m := SubKeyMapOf(bodies[1..]);
    MapUpdateThenUnion(g, k, t, m);
    if bodies[1..] == [] {
      assert m == map[];
      UnionEmpty(g[k := t]);
    }
  }

  /** A SubKeyEach field maps each KEY to the ids of its last line, over the keys it already had;
      a line without ": " fails the field. */
  lemma {:induction false} SubKeyEachCollects(name: string, cur: Option<FieldValue>, bodies: seq<string>)
    requires Fits(SubKeyEach, cur)
    ensures AbsorbAll(SubKeyEach, name, cur, bodies) ==
              if !AllHaveSubKeys(bodies) then Failure(NoSubKey(name))
              else Success(if bodies == [] then cur else Some(SubMap(GroupsSoFar(cur) + SubKeyMapOf(bodies))))
    decreases |bodies|
  {
    if bodies != [] {
      var rest := bodies[1..];
      AllHaveSubKeysCons(bodies);
      if !HasSubKey(bodies[0]) {
        AbsorbAllStopsAtFailure(SubKeyEach, name, cur, bodies);
      } else {
        var g := GroupsSoFar(cur);
        var k, t := SubKey(bodies[0]), SubTokens(bodies[0]);
        var next := Some(SubMap(g[k := t]));
        SubKeyEachStep(name, cur, bodies, next);
        SubKeyEachCollects(name, next, rest);
        if AllHaveSubKeys(rest) {
          SubKeyMapMerge(g, bodies);
        }
      }
    }
  }

  /** Once a SubKeyFirst field exists, later lines leave it unchanged. */
  lemma {:induction false} SubKeyFirstKeepsFirst(name: string, v: FieldValue, bodies: seq<string>)
    requires Holds(SubKeyFirst, v)
    ensures AbsorbAll(SubKeyFirst, name, Some(v), bodies) == Success(Some(v))
    decreases |bodies|
  {
    if bodies != [] {
      AbsorbAllContinues(SubKeyFirst, name, Some(v), bodies);
      SubKeyFirstKeepsFirst(name, v, bodies[1..]);
    }
  }

  /** An ignored field never appears, whatever its lines. */
  lemma {:induction false} IgnoredStaysAbsent(name: string, bodies: seq<string>)
    ensures AbsorbAll(Ignored, name, None, bodies) == Success(None)
    decreases |bodies|
  {
    if bodies != [] {
      AbsorbAllContinues(Ignored, name, None, bodies);
      IgnoredStaysAbsent(name, bodies[1..]);
    }
  }

  lemma OverwriteIsFieldOfLines(rule: Rule, name: string, bodies: seq<string>)
    requires Overwrites(rule)
    ensures AbsorbAll(rule, name, None, bodies) == FieldOfLines(rule, name, bodies)
  {
    OverwriteLastLineWins(rule, name, None, bodies);
    match rule
    case FirstToken => assert AllAccepted(rule, bodies) == AllHaveIds(bodies);
    case Verbatim => {}
    case CommaList => {}
    case TokenList => {}
    case PairOverwrite => assert AllAccepted(rule, bodies) == AllHaveIds(bodies);
    case ClassPairs => {}
    case EquationSplit => assert AllAccepted(rule, bodies) == AllEquations(bodies);
  }

  lemma SubKeyFirstIsFieldOfLines(name: string, bodies: seq<string>)
    ensures AbsorbAll(SubKeyFirst, name, None, bodies) == SubKeyFirstField(name, bodies)
  {
    if bodies != [] {
      if HasSubKey(bodies[0]) {
        AbsorbAllContinues(SubKeyFirst, name, None, bodies);
        var v := SubMap(map[SubKey(bodies[0]) := SubTokens(bodies[0])]);
        SubKeyFirstKeepsFirst(name, v, bodies[1..]);
      } else {
        AbsorbAllStopsAtFailure(SubKeyFirst, name, None, bodies);
      }
    }
  }

  lemma TokenConcatIsFieldOfLines(name: string, bodies: seq<string>)
    ensures AbsorbAll(TokenConcat, name, None, bodies) == Success(TokenConcatField(bodies))
  {
    TokenConcatCollects(name, None, bodies);
    ConcatNil(TokensOfLines(bodies));
  }

  lemma SpaceJoinedIsFieldOfLines(name: string, bodies: seq<string>)
    ensures AbsorbAll(SpaceJoined, name, None, bodies) == Success(SpaceJoinedField(bodies))
  {
    SpaceJoinedCollects(name, None, bodies);
    ConcatNil(Join(" ", bodies));
  }

  lemma PairAppendIsFieldOfLines(name: string, bodies: seq<string>)
    ensures AbsorbAll(PairAppend, name, None, bodies) == PairAppendField(name, bodies)
  {
    PairAppendCollects(name, None, bodies);
    if AllHaveIds(bodies) {
      ConcatNil(PairsOf(bodies));
    }
  }

  lemma LineAppendIsFieldOfLines(name: string, bodies: seq<string>)
    ensures AbsorbAll(LineAppend, name, None, bodies) == Success(LineAppendField(bodies))
  {
    LineAppendCollects(name, None, bodies);
    ConcatNil(bodies);
  }

  lemma SubKeyEachIsFieldOfLines(name: string, bodies: seq<string>)
    ensures AbsorbAll(SubKeyEach, name, None, bodies) == SubKeyEachField(name, bodies)
  {
    SubKeyEachCollects(name, None, bodies);
    if AllHaveSubKeys(bodies) {
      MapUnionEmpty(SubKeyMapOf(bodies));
    }
  }

  lemma SkippedIsFieldOfLines(rule: Rule, name: string, bodies: seq<string>)
    requires rule.Ignored? || rule.Unknown?
    ensures AbsorbAll(rule, name, None, bodies) == FieldOfLines(rule, name, bodies)
  {
    if rule.Ignored? {
      IgnoredStaysAbsent(name, bodies);
    } else if bodies != [] {
      AbsorbAllStopsAtFailure(rule, name, None, bodies);
    }
  }

  /** Folding a field's lines one at a time gives exactly its closed form. */
  lemma AbsorbAllIsFieldOfLines(rule: Rule, name: string, bodies: seq<string>)
    ensures AbsorbAll(rule, name, None, bodies) == FieldOfLines(rule, name, bodies)
  {
    if Overwrites(rule) {
      OverwriteIsFieldOfLines(rule, name, bodies);
    } else if rule.SubKeyFirst? {
      SubKeyFirstIsFieldOfLines(name, bodies);
    } else if rule.Ignored? || rule.Unknown? {
      SkippedIsFieldOfLines(rule, name, bodies);
    } else {
      match rule
      case TokenConcat => TokenConcatIsFieldOfLines(name, bodies);
      case SpaceJoined => SpaceJoinedIsFieldOfLines(name, bodies);
      case PairAppend => PairAppendIsFieldOfLines(name, bodies);
      case LineAppend => LineAppendIsFieldOfLines(name, bodies);
      case SubKeyEach => SubKeyEachIsFieldOfLines(name, bodies);
    }
  }
}
