/** The loop every KEGG parser runs: read the logical lines of a record in
    order, and let each line's field rule fold its body into the record. The
    five parsers differ only in the dispatch table from field name to rule. */
module Interpreter {
  import opened Results
  import opened Fields
  import opened FieldLaws
  import opened Tokenizer

  /** A parser's dispatch: the rule its if-chain applies to each field name. */
  type Table = string -> Rule

  /** Every stored field has the shape its rule stores (and so is not ignored or unknown). */
  predicate WellShaped(table: Table, rec: Record) {
    forall k :: k in rec ==> Holds(table(k), rec[k])
  }

  /** The field's value, None while it is absent. */
  function Lookup(rec: Record, name: string): Option<FieldValue> {
    if name in rec then Some(rec[name]) else None
  }

  /** The errors a parser can raise, each from the rule that raises it: a field
      the table does not know, a missing first token, a "KEY: ids" line without
      ": ", a malformed equation; or a line before any field name. */
  predicate Explains(table: Table, e: ParseError) {
    match e
    case NoFieldName => true
    case UnknownField(n) => table(n).Unknown?
    case EmptyBody(n) => table(n).FirstToken? || table(n).PairAppend? || table(n).PairOverwrite?
    case NoSubKey(n) => table(n).SubKeyEach? || table(n).SubKeyFirst?
    case BadEquation(n) => table(n).EquationSplit?
    case MissingEntry => false
  }

  /** One line: a line without a field name is an error; otherwise its field's
      rule decides the field's new value or the error, and no other field changes. */
  function Step(table: Table, rec: Record, line: LogicalLine): (r: Result<Record, ParseError>)
    requires WellShaped(table, rec)
    ensures r == Failure(NoFieldName) <==> line.name.None?
    ensures line.name.Some? ==>
              var n := line.name.value;
              var a := Absorb(table(n), n, Lookup(rec, n), line.body);
              && (a.Failure? ==> r == Failure(a.error))
              && (a.Success? ==> r.Success? && Lookup(r.value, n) == a.value)
              && (a.Success? ==> forall k :: k != n ==> Lookup(r.value, k) == Lookup(rec, k))
    ensures r.Success? ==> WellShaped(table, r.value) && rec.Keys <= r.value.Keys
    ensures r.Failure? ==> Explains(table, r.error)
  {
    match line.name
    case None => Failure(NoFieldName)
    case Some(n) =>
      var cur := Lookup(rec, n);
      AbsorbKeepsShape(table(n), n, cur, line.body);
      AbsorbFailsIff(table(n), n, cur, line.body);
      match Absorb(table(n), n, cur, line.body)
      case Failure(e) => Failure(e)
      case Success(v) => Success(if v.None? then rec else rec[n := v.value])
  }

  /** The lines in order, from the record `rec`; the first failing line decides the error. */
  function Run(table: Table, ll: seq<LogicalLine>, rec: Record): (r: Result<Record, ParseError>)
    requires WellShaped(table, rec)
    ensures r.Success? ==> WellShaped(table, r.value) && rec.Keys <= r.value.Keys
    ensures r.Failure? ==> Explains(table, r.error)
    decreases |ll|
  {
    if ll == [] then Success(rec)
    else
      match Step(table, rec, ll[0])
      case Failure(e) => Failure(e)
      case Success(next) => Run(table, ll[1..], next)
  }

  /** A record whose first line fails fails with that line's error. */
  lemma RunStopsAtFailure(table: Table, ll: seq<LogicalLine>, rec: Record)
    requires WellShaped(table, rec) && ll != [] && Step(table, rec, ll[0]).Failure?
    ensures Run(table, ll, rec) == Failure(Step(table, rec, ll[0]).error)
  {
  }

  /** A record whose first line is accepted continues from the record after it. */
  lemma RunContinues(table: Table, ll: seq<LogicalLine>, rec: Record)
    requires WellShaped(table, rec) && ll != [] && Step(table, rec, ll[0]).Success?
    ensures WellShaped(table, Step(table, rec, ll[0]).value)
    ensures Run(table, ll, rec) == Run(table, ll[1..], Step(table, rec, ll[0]).value)
  {
  }

  /** The first line adds its body to its own field's lines and to no other. */
  lemma BodiesOfFirst(ll: seq<LogicalLine>, n: string)
    requires ll != []
    ensures BodiesOf(ll, n) ==
              if ll[0].name == Some(n) then [ll[0].body] + BodiesOf(ll[1..], n) else BodiesOf(ll[1..], n)
  {
  }

  /** Fields do not interfere: after a successful run, each field holds what its
      own rule makes of its own lines alone, starting from its value before the run. */
  lemma {:induction false} RunIsFieldwise(table: Table, ll: seq<LogicalLine>, rec: Record, n: string)
    requires WellShaped(table, rec)
    ensures Fits(table(n), Lookup(rec, n))
    ensures Run(table, ll, rec).Success? ==>
              AbsorbAll(table(n), n, Lookup(rec, n), BodiesOf(ll, n)) == Success(Lookup(Run(table, ll, rec).value, n))
    decreases |ll|
  {
    if ll != [] && Step(table, rec, ll[0]).Success? {
      var next := Step(table, rec, ll[0]).value;
      RunContinues(table, ll, rec);
      RunIsFieldwise(table, ll[1..], next, n);
      BodiesOfFirst(ll, n);
      if ll[0].name == Some(n) {
        AbsorbAllContinues(table(n), n, Lookup(rec, n), BodiesOf(ll, n));
      }
    }
  }

  /** The converse: a run succeeds when every line has a field name and every
      field's rule accepts all of that field's lines. */
  lemma {:induction false} RunSucceeds(table: Table, ll: seq<LogicalLine>, rec: Record)
    requires WellShaped(table, rec)
    requires forall i :: 0 <= i < |ll| ==> ll[i].name.Some?
    requires forall i :: 0 <= i < |ll| ==> FieldAccepts(table, ll, rec, ll[i].name.value)
    ensures Run(table, ll, rec).Success?
    decreases |ll|
  {
    if ll != [] {
      var m := ll[0].name.value;
      var cur := Lookup(rec, m);
      BodiesOfFirst(ll, m);
      assert FieldAccepts(table, ll, rec, m);
      AbsorbAllNeedsHead(table(m), m, cur, BodiesOf(ll, m));
      var next := Step(table, rec, ll[0]).value;
      AbsorbAllContinues(table(m), m, cur, BodiesOf(ll, m));
      RunContinues(table, ll, rec);
      var rest := ll[1..];
      forall i | 0 <= i < |rest| ensures rest[i].name.Some? && FieldAccepts(table, rest, next, rest[i].name.value) {
        assert rest[i] == ll[i + 1];
        var k := rest[i].name.value;
        BodiesOfFirst(ll, k);
      }
      RunSucceeds(table, rest, next);
    }
  }

  /** A fold that succeeds accepted its first line. */
  lemma AbsorbAllNeedsHead(rule: Rule, name: string, cur: Option<FieldValue>, bodies: seq<string>)
    requires Fits(rule, cur) && bodies != []
    ensures AbsorbAll(rule, name, cur, bodies).Success? ==> Absorb(rule, name, cur, bodies[0]).Success?
  {
    if Absorb(rule, name, cur, bodies[0]).Failure? {
      AbsorbAllStopsAtFailure(rule, name, cur, bodies);
    }
  }

  /** Every line of the field, folded from its value in `rec`, is accepted. */
  predicate FieldAccepts(table: Table, ll: seq<LogicalLine>, rec: Record, n: string) {
    Fits(table(n), Lookup(rec, n)) && AbsorbAll(table(n), n, Lookup(rec, n), BodiesOf(ll, n)).Success?
  }

  /** Every line carries a field name. */
  predicate AllNamed(ll: seq<LogicalLine>) {
    forall i :: 0 <= i < |ll| ==> ll[i].name.Some?
  }

  lemma AllNamedCons(ll: seq<LogicalLine>)
    requires ll != []
    ensures AllNamed(ll) <==> ll[0].name.Some? && AllNamed(ll[1..])
  {
    var rest := ll[1..];
    assert forall i :: 0 <= i < |rest| ==> rest[i] == ll[i + 1];
    if ll[0].name.Some? && AllNamed(rest) {
      forall i | 0 <= i < |ll| ensures ll[i].name.Some? {
        if i > 0 {
          assert ll[i] == rest[i - 1];
        }
      }
    }
  }

  /** The lines of a record are all named exactly when its first line's name column is not blank. */
  lemma ResolvedAllNamed(cuts: seq<Cut>)
    requires cuts != []
    ensures AllNamed(Resolve(cuts, None)) <==> cuts[0].name != ""
  {
    NamedIffFirstNamed(cuts);
  }

  /** A run that succeeds met no line without a field name, and a run over
      named lines never fails for want of one. */
  lemma {:induction false} RunNeedsNames(table: Table, ll: seq<LogicalLine>, rec: Record)
    requires WellShaped(table, rec)
    ensures Run(table, ll, rec).Success? ==> AllNamed(ll)
    ensures AllNamed(ll) ==> Run(table, ll, rec) != Failure(NoFieldName)
    decreases |ll|
  {
    if ll != [] {
      AllNamedCons(ll);
      var step := Step(table, rec, ll[0]);
      if step.Success? {
        RunContinues(table, ll, rec);
        RunNeedsNames(table, ll[1..], step.value);
      } else {
        RunStopsAtFailure(table, ll, rec);
      }
    }
  }

  /** From the empty record, a run succeeds exactly when every line is named
      and every field's rule accepts all of that field's lines. */
  lemma RunSucceedsIff(table: Table, ll: seq<LogicalLine>)
    ensures Run(table, ll, map[]).Success? <==>
              AllNamed(ll) && forall n :: AbsorbAll(table(n), n, None, BodiesOf(ll, n)).Success?
  {
    RunNeedsNames(table, ll, map[]);
    if Run(table, ll, map[]).Success? {
      forall n ensures AbsorbAll(table(n), n, None, BodiesOf(ll, n)).Success? {
        RunIsFieldwise(table, ll, map[], n);
      }
    }
    if AllNamed(ll) && forall n :: AbsorbAll(table(n), n, None, BodiesOf(ll, n)).Success? {
      forall i | 0 <= i < |ll| ensures FieldAccepts(table, ll, map[], ll[i].name.value) {
        var n := ll[i].name.value;
        assert AbsorbAll(table(n), n, None, BodiesOf(ll, n)).Success?;
      }
      RunSucceeds(table, ll, map[]);
    }
  }

  /** A line naming a field the table does not know makes the run fail; when
      every line before it can be read, the error names that line's field. */
  lemma RunRejectsUnknown(table: Table, ll: seq<LogicalLine>, i: nat)
    requires i < |ll| && ll[i].name.Some?
    ensures table(ll[i].name.value) == Unknown ==> Run(table, ll, map[]).Failure?
    ensures table(ll[i].name.value) == Unknown && (forall j :: 0 <= j < i ==> Readable(table, ll[j])) ==>
              Run(table, ll, map[]) == Failure(UnknownField(ll[i].name.value))
  {
    var n := ll[i].name.value;
    if table(n) == Unknown {
      var bodies := BodiesOf(ll, n);
      BodiesOfEmptyIff(ll, n);
      UnknownFailsAtOnce(n, None, bodies);
      RunIsFieldwise(table, ll, map[], n);
      if forall j :: 0 <= j < i ==> Readable(table, ll[j]) {
        RunStopsAtFirstRejected(table, ll, map[], i);
      }
    }
  }

  /** The line has a field name and that field's rule can read its body. */
  predicate Readable(table: Table, line: LogicalLine) {
    line.name.Some? && Accepts(table(line.name.value), line.body)
  }

  /** The line cannot be read, and `e` is the error it raises: NoFieldName for a
      line before any field name, otherwise its field rule's rejection. */
  predicate Rejects(table: Table, line: LogicalLine, e: ParseError) {
    match line.name
    case None => e == NoFieldName
    case Some(n) => !Accepts(table(n), line.body) && e == Rejection(table(n), n)
  }

  /** Every failure is raised by some line that cannot be read, and is that line's error. */
  lemma {:induction false} RunFailsAtARejectedLine(table: Table, ll: seq<LogicalLine>, rec: Record)
    requires WellShaped(table, rec)
    ensures Run(table, ll, rec).Failure? ==>
              exists i :: 0 <= i < |ll| && Rejects(table, ll[i], Run(table, ll, rec).error)
    decreases |ll|
  {
    if ll != [] {
      var step := Step(table, rec, ll[0]);
      if step.Failure? {
        RunStopsAtFailure(table, ll, rec);
        if ll[0].name.Some? {
          var n := ll[0].name.value;
          AbsorbFailsIff(table(n), n, Lookup(rec, n), ll[0].body);
        }
        assert Rejects(table, ll[0], step.error);
      } else {
        RunContinues(table, ll, rec);
        RunFailsAtARejectedLine(table, ll[1..], step.value);
        if Run(table, ll, rec).Failure? {
          var j :| 0 <= j < |ll[1..]| && Rejects(table, ll[1..][j], Run(table, ll[1..], step.value).error);
          assert ll[1..][j] == ll[j + 1];
        }
      }
    }
  }

  /** The first line that cannot be read decides the error: once every line
      before line i is readable, a line i without a field name, or one whose
      rule rejects its body, raises its own error. (A rejected line of a
      first-KEY field raises only when the field is still absent, so that rule
      is left out here.) */
  lemma {:induction false} RunStopsAtFirstRejected(table: Table, ll: seq<LogicalLine>, rec: Record, i: nat)
    requires WellShaped(table, rec)
    requires i < |ll|
    requires forall j :: 0 <= j < i ==> Readable(table, ll[j])
    ensures ll[i].name.None? ==> Run(table, ll, rec) == Failure(NoFieldName)
    ensures ll[i].name.Some? && !table(ll[i].name.value).SubKeyFirst? && !Accepts(table(ll[i].name.value), ll[i].body) ==>
              Run(table, ll, rec) == Failure(Rejection(table(ll[i].name.value), ll[i].name.value))
    decreases i
  {
    if ll[0].name.Some? {
      var n := ll[0].name.value;
      AbsorbFailsIff(table(n), n, Lookup(rec, n), ll[0].body);
    }
    if i == 0 {
      if Step(table, rec, ll[0]).Failure? {
        RunStopsAtFailure(table, ll, rec);
      }
    } else {
      assert Readable(table, ll[0]);
      RunContinues(table, ll, rec);
      var rest := ll[1..];
      forall j | 0 <= j < i - 1 ensures Readable(table, rest[j]) {
        assert rest[j] == ll[j + 1];
      }
      RunStopsAtFirstRejected(table, rest, Step(table, rec, ll[0]).value, i - 1);
      assert rest[i - 1] == ll[i];
    }
  }
}
