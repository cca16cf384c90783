/** The string operations the KEGG parser relies on, written as they behave in
    Python on ASCII text: `strip`, `split()` (on whitespace runs), `split(sep)`,
    `sep.join`, slicing `s[:n]` / `s[n:]` and `upper`. */
module Text {

  /** Python's `str.isspace` on ASCII: tab, line feed, vertical tab, form feed,
      carriage return, the separators 0x1C-0x1F, and space. */
  predicate IsSpace(c: char) {
    (9 <= c as int <= 13) || (28 <= c as int <= 32)
  }

  predicate AllSpace(s: string) {
    forall i :: 0 <= i < |s| ==> IsSpace(s[i])
  }

  predicate NoSpace(s: string) {
    forall i :: 0 <= i < |s| ==> !IsSpace(s[i])
  }

  /** `s[:n]`: at most the first n characters. */
  function Take(s: string, n: nat): (r: string)
    ensures |r| == if |s| < n then |s| else n
    ensures r <= s
  {
    if |s| <= n then s else s[..n]
  }

  /** `s[n:]`: everything after the first n characters, empty when s is shorter. */
  function Drop(s: string, n: nat): (r: string)
    ensures Take(s, n) + r == s
  {
    if |s| <= n then "" else s[n..]
  }

  /** `s.lstrip()` */
  function StripLeft(s: string): (r: string)
    ensures |r| <= |s| && r == s[|s| - |r|..]
    ensures AllSpace(s[..|s| - |r|])
    ensures r == [] || !IsSpace(r[0])
    decreases |s|
  {
    if |s| > 0 && IsSpace(s[0]) then
      var r := StripLeft(s[1..]);
      assert s[..|s| - |r|] == [s[0]] + s[1..][..|s| - 1 - |r|];
      r
    else s
  }

  /** `s.rstrip()` */
  function StripRight(s: string): (r: string)
    ensures |r| <= |s| && r == s[..|r|]
    ensures AllSpace(s[|r|..])
    ensures r == [] || !IsSpace(r[|r| - 1])
    decreases |s|
  {
    if |s| > 0 && IsSpace(s[|s| - 1]) then
      var r := StripRight(s[..|s| - 1]);
      assert s[|r|..] == s[..|s| - 1][|r|..] + [s[|s| - 1]];
      r
    else s
  }

  /** `s.strip()`: the text between the leading and the trailing whitespace. */
  function Strip(s: string): (r: string)
    ensures r == [] || (!IsSpace(r[0]) && !IsSpace(r[|r| - 1]))
    ensures r == [] <==> AllSpace(s)
  {
    var r := StripRight(StripLeft(s));
    StripEmptyOnlyForSpace(s);
    r
  }

  lemma StripEmptyOnlyForSpace(s: string)
    ensures StripRight(StripLeft(s)) == [] <==> AllSpace(s)
  {
    var l := StripLeft(s);
    var i := |s| - |l|;
    if StripRight(l) == [] {
      assert l[0..] == l;
      forall j | 0 <= j < |s| ensures IsSpace(s[j]) {
        if j < i {
          assert s[j] == s[..i][j];
        } else {
          assert s[j] == l[j - i];
        }
      }
    } else {
      assert s[i] == l[0];
    }
  }

  /** The longest prefix of s that holds no whitespace. */
  function Word(s: string): (w: string)
    ensures w <= s && NoSpace(w)
    ensures |w| == |s| || IsSpace(s[|w|])
    decreases |s|
  {
    if |s| == 0 || IsSpace(s[0]) then "" else [s[0]] + Word(s[1..])
  }

  /** `s.split()`: the maximal runs of non-whitespace characters, in order. */
  function SplitWs(s: string): (toks: seq<string>)
    ensures forall i :: 0 <= i < |toks| ==> |toks[i]| > 0 && NoSpace(toks[i])
    decreases |s|
  {
    var t := StripLeft(s);
    if t == "" then []
    else
      var w := Word(t);
      assert |w| > 0;
      [w] + SplitWs(t[|w|..])
  }

  /** `sep.join(parts)` */
  function Join(sep: string, parts: seq<string>): string
    decreases |parts|
  {
    if |parts| == 0 then ""
    else if |parts| == 1 then parts[0]
    else parts[0] + sep + Join(sep, parts[1..])
  }

  /** Does `sep` occur anywhere in s? */
  ghost predicate Contains(s: string, sep: string) {
    exists k :: 0 <= k && OccursAt(s, sep, k)
  }

  /** sep occurs in s starting at position k. */
  predicate OccursAt(s: string, sep: string, k: nat) {
    k + |sep| <= |s| && s[k..k + |sep|] == sep
  }

  /** `s.split(sep)`: cut s at every occurrence of sep, scanning left to right;
      the first piece is a prefix of s, and an empty s gives `[""]`
      (SplitOnLeftmost and SplitOnUnique state where the cuts fall). */
  function SplitOn(s: string, sep: string): (parts: seq<string>)
    requires |sep| > 0
    ensures |parts| >= 1 && parts[0] <= s
    ensures parts[0] == [] ==> s == [] || sep <= s
    decreases |s|
  {
    if |s| < |sep| then [s]
    else if s[..|sep|] == sep then [""] + SplitOn(s[|sep|..], sep)
    else
      var rest := SplitOn(s[1..], sep);
      [[s[0]] + rest[0]] + rest[1..]
  }

  /** Python's `str.upper` on ASCII letters. */
  function UpperChar(c: char): char {
    if 'a' <= c <= 'z' then (c as int - 32) as char else c
  }

  function ToUpper(s: string): string {
    seq(|s|, i requires 0 <= i < |s| => UpperChar(s[i]))
  }

  /** s holds an ASCII lower-case letter. */
  predicate HasLower(s: string) {
    exists i :: 0 <= i < |s| && 'a' <= s[i] <= 'z'
  }

  // ---------------------------------------------------------------------------
  // Lemmas

  /** r sits in s at offset i with only whitespace before and after it. */
  predicate SpaceAround(s: string, r: string, i: int) {
    0 <= i <= |s| - |r| && r == s[i..i + |r|] && AllSpace(s[..i]) && AllSpace(s[i + |r|..])
  }

  /** Stripping removes only whitespace, and only from the two ends. */
  lemma StripRemovesOnlyOuterSpace(s: string)
    ensures exists i :: SpaceAround(s, Strip(s), i)
  {
    var l := StripLeft(s);
    var r := StripRight(l);
    var i := |s| - |l|;
    assert r == Strip(s);
    assert AllSpace(s[..i]);
    assert s[i..i + |r|] == l[..|r|];
    assert s[i + |r|..] == l[|r|..];
    assert SpaceAround(s, r, i);
  }

  /** A name differs from its upper-cased self exactly when it holds a lower-case letter. */
  lemma NotUpperIffHasLower(s: string)
    ensures s != ToUpper(s) <==> HasLower(s)
  {
    if HasLower(s) {
      var i :| 0 <= i < |s| && 'a' <= s[i] <= 'z';
      assert ToUpper(s)[i] != s[i];
    } else {
      assert forall i :: 0 <= i < |s| ==> ToUpper(s)[i] == s[i];
    }
  }

  /** A leading empty piece puts one separator in front. */
  lemma JoinEmptyFirst(sep: string, rest: seq<string>)
    requires |rest| >= 1
    ensures Join(sep, [""] + rest) == sep + Join(sep, rest)
  {
    assert ([""] + rest)[1..] == rest;
  }

  /** Growing the first piece by one character grows the join by that character. */
  lemma JoinGrowFirst(sep: string, c: char, rest: seq<string>)
    requires |rest| >= 1
    ensures Join(sep, [[c] + rest[0]] + rest[1..]) == [c] + Join(sep, rest)
  {
    var parts := [[c] + rest[0]] + rest[1..];
    if |rest| == 1 {
      assert parts == [[c] + rest[0]];
    } else {
      assert parts[1..] == rest[1..];
      assert Join(sep, rest) == rest[0] + sep + Join(sep, rest[1..]);
    }
  }

  /** Joining the pieces of `split(sep)` with sep gives the text back. */
  lemma {:induction false} JoinSplitOn(s: string, sep: string)
    requires |sep| > 0
    ensures Join(sep, SplitOn(s, sep)) == s
    decreases |s|
  {
    if |s| < |sep| {
    } else if s[..|sep|] == sep {
      JoinSplitOn(s[|sep|..], sep);
      JoinEmptyFirst(sep, SplitOn(s[|sep|..], sep));
      assert s == sep + s[|sep|..];
    } else {
      JoinSplitOn(s[1..], sep);
      JoinGrowFirst(sep, s[0], SplitOn(s[1..], sep));
      assert s == [s[0]] + s[1..];
    }
  }

  /** No piece of `split(sep)` contains sep: every occurrence was cut. */
  lemma {:induction false} SplitOnPiecesFree(s: string, sep: string)
    requires |sep| > 0
    ensures forall i :: 0 <= i < |SplitOn(s, sep)| ==> !Contains(SplitOn(s, sep)[i], sep)
    decreases |s|
  {
    var parts := SplitOn(s, sep);
    if |s| < |sep| {
      assert parts == [s];
    } else if s[..|sep|] == sep {
      SplitOnPiecesFree(s[|sep|..], sep);
      assert parts == [""] + SplitOn(s[|sep|..], sep);
      forall i | 0 <= i < |parts| ensures !Contains(parts[i], sep) {
        if i > 0 {
          assert parts[i] == SplitOn(s[|sep|..], sep)[i - 1];
        }
      }
    } else {
      SplitOnPiecesFree(s[1..], sep);
      var rest := SplitOn(s[1..], sep);
      var p := [s[0]] + rest[0];
      assert parts == [p] + rest[1..];
      assert p <= s;
      forall i | 0 <= i < |parts| ensures !Contains(parts[i], sep) {
        if i > 0 {
          assert parts[i] == rest[i];
        } else {
          forall k: nat | 0 < k ensures !OccursAt(p, sep, k) {
            if k + |sep| <= |p| {
              assert p[k..k + |sep|] == rest[0][k - 1..k - 1 + |sep|];
              assert !OccursAt(rest[0], sep, k - 1);
            }
          }
          assert |p| >= |sep| ==> p[..|sep|] == s[..|sep|];
        }
      }
    }
  }

  /** Text with no occurrence of the separator character is one piece. */
  lemma {:induction false} SplitOnWithoutSep(p: string, c: char)
    requires c !in p
    ensures SplitOn(p, [c]) == [p]
    decreases |p|
  {
    if |p| >= 1 {
      assert p[..1] != [c] by { assert p[..1][0] == p[0]; }
      SplitOnWithoutSep(p[1..], c);
      assert [p[0]] + p[1..] == p;
    }
  }

  /** Cutting at the first separator character. */
  lemma {:induction false} SplitOnFirstSep(p: string, c: char, rest: string)
    requires c !in p
    ensures SplitOn(p + [c] + rest, [c]) == [p] + SplitOn(rest, [c])
    decreases |p|
  {
    var s := p + [c] + rest;
    if |p| == 0 {
      assert s[..1] == [c];
      assert s[1..] == rest;
    } else {
      assert s[..1] != [c] by { assert s[..1][0] == p[0]; }
      assert s[1..] == p[1..] + [c] + rest;
      SplitOnFirstSep(p[1..], c, rest);
      assert [p[0]] + p[1..] == p;
    }
  }

  /** Splitting a join on a one-character separator that no part contains
      returns the parts. */
  lemma {:induction false} SplitOnJoin(parts: seq<string>, c: char)
    requires |parts| >= 1
    requires forall i :: 0 <= i < |parts| ==> c !in parts[i]
    ensures SplitOn(Join([c], parts), [c]) == parts
    decreases |parts|
  {
    if |parts| == 1 {
      SplitOnWithoutSep(parts[0], c);
    } else {
      SplitOnJoin(parts[1..], c);
      SplitOnFirstSep(parts[0], c, Join([c], parts[1..]));
      assert [parts[0]] + parts[1..] == parts;
    }
  }

  /** p followed by sep holds no occurrence of sep before the one at its end. */
  predicate EndsAtFirstSep(p: string, sep: string) {
    forall k :: 0 <= k < |p| ==> !OccursAt(p + sep, sep, k)
  }

  /** The first piece runs up to the leftmost occurrence of sep: no occurrence starts inside it. */
  lemma {:induction false} FirstPieceLeftmost(s: string, sep: string)
    requires |sep| > 0
    ensures forall k :: 0 <= k < |SplitOn(s, sep)[0]| ==> !OccursAt(s, sep, k)
    decreases |s|
  {
    if |s| >= |sep| && s[..|sep|] != sep {
      var rest := SplitOn(s[1..], sep);
      FirstPieceLeftmost(s[1..], sep);
      assert SplitOn(s, sep)[0] == [s[0]] + rest[0];
      forall k | 0 <= k < 1 + |rest[0]| ensures !OccursAt(s, sep, k) {
        if k == 0 {
          assert s[0..|sep|] == s[..|sep|];
        } else {
          assert !OccursAt(s[1..], sep, k - 1);
          if k + |sep| <= |s| {
            assert s[k..k + |sep|] == s[1..][k - 1..k - 1 + |sep|];
          }
        }
      }
    }
  }

  /** When there is more than one piece, the first piece ends where the leftmost sep begins. */
  lemma FirstPieceEndsAtFirstSep(s: string, sep: string)
    requires |sep| > 0 && |SplitOn(s, sep)| > 1
    ensures EndsAtFirstSep(SplitOn(s, sep)[0], sep)
  {
    var parts := SplitOn(s, sep);
    FirstPieceLeftmost(s, sep);
    JoinSplitOn(s, sep);
    JoinCons(sep, parts);
    NoEarlierSep(parts[0], sep, Join(sep, parts[1..]));
  }

  /** A prefix p of p + sep + tail in which no sep starts ends at the first sep. */
  lemma NoEarlierSep(p: string, sep: string, tail: string)
    requires forall k :: 0 <= k < |p| ==> !OccursAt(p + sep + tail, sep, k)
    ensures EndsAtFirstSep(p, sep)
  {
    var s := p + sep + tail;
    forall k | 0 <= k < |p| ensures !OccursAt(p + sep, sep, k) {
      if OccursAt(p + sep, sep, k) {
        assert (p + sep)[k..k + |sep|] == s[k..k + |sep|];
        assert OccursAt(s, sep, k);
      }
    }
  }

  /** Every piece but the last ends at the leftmost sep after it begins:
      Python's split matches left to right, even when sep overlaps itself. */
  lemma {:induction false} SplitOnLeftmost(s: string, sep: string)
    requires |sep| > 0
    ensures forall i :: 0 <= i < |SplitOn(s, sep)| - 1 ==> EndsAtFirstSep(SplitOn(s, sep)[i], sep)
    decreases |s|
  {
    var parts := SplitOn(s, sep);
    if |parts| > 1 {
      FirstPieceEndsAtFirstSep(s, sep);
    }
    if |s| < |sep| {
    } else if s[..|sep|] == sep {
      var tail := SplitOn(s[|sep|..], sep);
      SplitOnLeftmost(s[|sep|..], sep);
      forall i | 0 < i < |parts| - 1 ensures EndsAtFirstSep(parts[i], sep) {
        assert parts[i] == tail[i - 1];
      }
    } else {
      var rest := SplitOn(s[1..], sep);
      SplitOnLeftmost(s[1..], sep);
      forall i | 0 < i < |parts| - 1 ensures EndsAtFirstSep(parts[i], sep) {
        assert parts[i] == rest[i];
      }
    }
  }

  /** No piece: text without sep is a single piece. */
  lemma {:induction false} SplitOnFree(p: string, sep: string)
    requires |sep| > 0 && !Contains(p, sep)
    ensures SplitOn(p, sep) == [p]
    decreases |p|
  {
    if |p| >= |sep| {
      assert !OccursAt(p, sep, 0);
      forall k: nat | OccursAt(p[1..], sep, k) ensures false {
        assert p[1..][k..k + |sep|] == p[k + 1..k + 1 + |sep|];
        assert OccursAt(p, sep, k + 1);
      }
      SplitOnFree(p[1..], sep);
      assert [p[0]] + p[1..] == p;
    }
  }

  /** Cutting at the leftmost sep. */
  lemma {:induction false} SplitOnAtFirst(p: string, sep: string, rest: string)
    requires |sep| > 0 && EndsAtFirstSep(p, sep)
    ensures SplitOn(p + sep + rest, sep) == [p] + SplitOn(rest, sep)
    decreases |p|
  {
    var s := p + sep + rest;
    if |p| == 0 {
      assert s[..|sep|] == sep;
      assert s[|sep|..] == rest;
    } else {
      assert !OccursAt(p + sep, sep, 0);
      assert (p + sep)[..|sep|] == s[..|sep|];
      assert s[1..] == p[1..] + sep + rest;
      forall k | 0 <= k < |p[1..]| ensures !OccursAt(p[1..] + sep, sep, k) {
        if OccursAt(p[1..] + sep, sep, k) {
          assert (p[1..] + sep)[k..k + |sep|] == (p + sep)[k + 1..k + 1 + |sep|];
          assert OccursAt(p + sep, sep, k + 1);
        }
      }
      SplitOnAtFirst(p[1..], sep, rest);
      assert [p[0]] + p[1..] == p;
    }
  }

  /** Python's split is the only way to cut s into pieces that re-join to s,
      each but the last ending at the leftmost sep, the last free of sep. With
      JoinSplitOn, SplitOnPiecesFree and SplitOnLeftmost this pins `split(sep)`. */
  lemma {:induction false} SplitOnUnique(parts: seq<string>, sep: string)
    requires |sep| > 0 && |parts| >= 1
    requires forall i :: 0 <= i < |parts| - 1 ==> EndsAtFirstSep(parts[i], sep)
    requires !Contains(parts[|parts| - 1], sep)
    ensures SplitOn(Join(sep, parts), sep) == parts
    decreases |parts|
  {
    if |parts| == 1 {
      SplitOnFree(parts[0], sep);
    } else {
      var rest := parts[1..];
      forall i | 0 <= i < |rest| - 1 ensures EndsAtFirstSep(rest[i], sep) {
        assert rest[i] == parts[i + 1];
      }
      SplitOnUnique(rest, sep);
      SplitOnAtFirst(parts[0], sep, Join(sep, rest));
      assert [parts[0]] + rest == parts;
    }
  }

  /** A prefix without whitespace followed by whitespace (or nothing) is the first word. */
  lemma {:induction false} WordOfPrefix(w: string, x: string)
    requires NoSpace(w)
    requires x == [] || IsSpace(x[0])
    ensures Word(w + x) == w
    decreases |w|
  {
    if |w| > 0 {
      assert (w + x)[1..] == w[1..] + x;
      WordOfPrefix(w[1..], x);
      assert [w[0]] + w[1..] == w;
    } else {
      assert w + x == x;
    }
  }

  /** Leading whitespace does not change the tokens. */
  lemma SplitWsSkipsSpace(c: char, x: string)
    requires IsSpace(c)
    ensures SplitWs([c] + x) == SplitWs(x)
  {
    assert ([c] + x)[1..] == x;
    assert StripLeft([c] + x) == StripLeft(x);
  }

  /** A whitespace-free word followed by whitespace (or nothing) is the first token. */
  lemma SplitWsFirstWord(w: string, x: string)
    requires |w| > 0 && NoSpace(w)
    requires x == [] || IsSpace(x[0])
    ensures SplitWs(w + x) == [w] + SplitWs(x)
  {
    var s := w + x;
    assert StripLeft(s) == s by { assert s[0] == w[0]; }
    WordOfPrefix(w, x);
    assert s[|w|..] == x;
  }

  lemma SplitWsOneWord(w: string)
    requires |w| > 0 && NoSpace(w)
    ensures SplitWs(w) == [w]
  {
    var e: string := [];
    assert w + e == w;
    WordOfPrefix(w, e);
    assert StripLeft(w) == w by { assert !IsSpace(w[0]); }
    assert w[|w|..] == e;
    assert StripLeft(e) == e;
  }

  lemma SplitWsWordThenSpace(w: string, x: string)
    requires |w| > 0 && NoSpace(w)
    ensures SplitWs(w + " " + x) == [w] + SplitWs(x)
  {
    assert w + " " + x == w + ([' '] + x);
    SplitWsFirstWord(w, [' '] + x);
    SplitWsSkipsSpace(' ', x);
  }

  /** All elements satisfy p exactly when the first does and all later ones do. */
  lemma AllCons<T>(p: T -> bool, s: seq<T>)
    requires s != []
    ensures (forall i :: 0 <= i < |s| ==> p(s[i])) <==> p(s[0]) && forall i :: 0 <= i < |s[1..]| ==> p(s[1..][i])
  {
    var rest := s[1..];
    assert forall i :: 0 <= i < |rest| ==> rest[i] == s[i + 1];
    if p(s[0]) && forall i :: 0 <= i < |rest| ==> p(rest[i]) {
      forall i | 0 <= i < |s| ensures p(s[i]) {
        if i > 0 { assert s[i] == rest[i - 1]; }
      }
    }
  }

  /** Tokenising the single-space join of non-empty whitespace-free tokens gives them back. */
  lemma {:induction false} SplitWsJoin(toks: seq<string>)
    requires forall i :: 0 <= i < |toks| ==> |toks[i]| > 0 && NoSpace(toks[i])
    ensures SplitWs(Join(" ", toks)) == toks
    decreases |toks|
  {
    if |toks| == 0 {
      assert Join(" ", toks) == "";
    } else if |toks| == 1 {
      SplitWsOneWord(toks[0]);
    } else {
      var rest := toks[1..];
      assert forall i :: 0 <= i < |rest| ==> rest[i] == toks[i + 1];
      SplitWsJoin(rest);
      SplitWsJoinStep(toks);
    }
  }

  /** One more token in front of a join that tokenises back to the rest. */
  lemma SplitWsJoinStep(toks: seq<string>)
    requires |toks| > 1 && |toks[0]| > 0 && NoSpace(toks[0])
    requires SplitWs(Join(" ", toks[1..])) == toks[1..]
    ensures SplitWs(Join(" ", toks)) == toks
  {
    JoinCons(" ", toks);
    WordBeforeSplit(toks[0], Join(" ", toks[1..]), toks[1..]);
    assert toks == [toks[0]] + toks[1..];
  }

  /** A join of two or more parts starts with the first part and a separator. */
  lemma JoinCons(sep: string, parts: seq<string>)
    requires |parts| > 1
    ensures Join(sep, parts) == parts[0] + sep + Join(sep, parts[1..])
  {
  }

  /** A word and a space in front of a text add that word in front of its tokens. */
  lemma WordBeforeSplit(w: string, x: string, toks: seq<string>)
    requires |w| > 0 && NoSpace(w)
    requires SplitWs(x) == toks
    ensures SplitWs(w + " " + x) == [w] + toks
  {
    SplitWsWordThenSpace(w, x);
  }

}
