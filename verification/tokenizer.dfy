/** The line layout shared by every KEGG parser: a record is stripped and cut
    at newlines; the first twelve columns of a line hold the field name, the
    rest its body; a line with a blank name continues the field above it. */
module Tokenizer {
  import opened Results
  import opened Text

  /** Width of the name column of a KEGG flat-file line. */
  const NameWidth: nat := 12

  /** The name column: the first twelve characters, stripped. It is blank
      exactly when those characters are all whitespace. */
  function NameOf(line: string): (n: string)
    ensures |n| <= NameWidth
    ensures n == "" <==> AllSpace(Take(line, NameWidth))
  {
    Strip(Take(line, NameWidth))
  }

  /** The body column: everything after the first twelve characters, stripped.
      A line of at most twelve characters has an empty body, and a body is
      never longer than the line's tail. */
  function BodyOf(line: string): (b: string)
    ensures |line| <= NameWidth ==> b == ""
    ensures b == "" || NameWidth + |b| <= |line|
  {
    Strip(Drop(line, NameWidth))
  }

  /** A line cut into its stripped name column and its stripped body column. */
  datatype Cut = Cut(name: string, body: string)

  /** Each line cut into its two columns. */
  function CutAll(lines: seq<string>): (cs: seq<Cut>)
    ensures |cs| == |lines|
  {
    seq(|lines|, i requires 0 <= i < |lines| => Cut(NameOf(lines[i]), BodyOf(lines[i])))
  }

  /** The stripped record cut at newlines, each line cut into its two columns. */
  function CutLines(raw: string): (cs: seq<Cut>)
    ensures |cs| >= 1
  {
    CutAll(LinesOf(raw))
  }

  /** A line with the field name it belongs to: its own name, or, when its name
      column is blank, the name of the line above. None only while no line so
      far had a name (Python's `past_entry = None`). */
  datatype LogicalLine = LogicalLine(name: Option<string>, body: string)

  /** A line takes its own name, or the previous one when its name column is blank. */
  function Carried(c: Cut, prev: Option<string>): Option<string> {
    if c.name == "" then prev else Some(c.name)
  }

  /** Names the lines from the first to the last, carrying the previous name along. */
  function Resolve(cuts: seq<Cut>, prev: Option<string>): (ll: seq<LogicalLine>)
    ensures |ll| == |cuts|
    decreases |cuts|
  {
    if cuts == [] then []
    else
      var name := Carried(cuts[0], prev);
      [LogicalLine(name, cuts[0].body)] + Resolve(cuts[1..], name)
  }

  /** The stripped record cut at newlines. */
  function LinesOf(raw: string): (lines: seq<string>)
    ensures |lines| >= 1
  {
    SplitOn(Strip(raw), "\n")
  }

  /** The lines of a raw record with the field name each belongs to. */
  function LogicalLinesOf(raw: string): (ll: seq<LogicalLine>)
    ensures |ll| == |CutLines(raw)|
  {
    Resolve(CutLines(raw), None)
  }

  /** The bodies of the lines belonging to the named field, in order. */
  function BodiesOf(ll: seq<LogicalLine>, name: string): (bs: seq<string>)
    ensures |bs| <= |ll|
    decreases |ll|
  {
    if ll == [] then []
    else if ll[0].name == Some(name) then [ll[0].body] + BodiesOf(ll[1..], name)
    else BodiesOf(ll[1..], name)
  }

  // ---------------------------------------------------------------------------
  // A reference reading: for each line, look back for the nearest named line

  /** The name of the nearest line at or above line i whose name column is not blank. */
  function HeaderAbove(cuts: seq<Cut>, i: nat): Option<string>
    requires i < |cuts|
  {
    if cuts[i].name != "" then Some(cuts[i].name)
    else if i == 0 then None
    else HeaderAbove(cuts, i - 1)
  }

  /** Carrying the name forwards line by line gives each line the nearest
      non-blank name above it (or at it): the continuation rule. */
  lemma ResolveFindsHeaderAbove(cuts: seq<Cut>, i: nat)
    requires i < |cuts|
    ensures Resolve(cuts, None)[i].name == HeaderAbove(cuts, i)
  {
    ResolveShift(cuts, None, i);
  }

  lemma ResolveTail(cuts: seq<Cut>, prev: Option<string>, i: nat)
    requires 0 < i < |cuts|
    ensures Resolve(cuts, prev)[i] == Resolve(cuts[1..], Carried(cuts[0], prev))[i - 1]
  {
    var head := [LogicalLine(Carried(cuts[0], prev), cuts[0].body)];
    var tail := Resolve(cuts[1..], Carried(cuts[0], prev));
    assert Resolve(cuts, prev) == head + tail;
  }

  /** The general form: lines before `cuts` ended with the name `prev`. */
  lemma {:induction false} ResolveShift(cuts: seq<Cut>, prev: Option<string>, i: nat)
    requires i < |cuts|
    ensures Resolve(cuts, prev)[i].name ==
              if HeaderAbove(cuts, i).Some? then HeaderAbove(cuts, i) else prev
    decreases i
  {
    if i > 0 {
      ResolveTail(cuts, prev, i);
      ResolveShift(cuts[1..], Carried(cuts[0], prev), i - 1);
      HeaderAboveShift(cuts, i);
    }
  }

  /** Each line keeps its own body, whatever its name. */
  lemma {:induction false} ResolveKeepsBodies(cuts: seq<Cut>, prev: Option<string>, i: nat)
    requires i < |cuts|
    ensures Resolve(cuts, prev)[i].body == cuts[i].body
    decreases i
  {
    if i > 0 {
      ResolveTail(cuts, prev, i);
      ResolveKeepsBodies(cuts[1..], Carried(cuts[0], prev), i - 1);
      assert cuts[1..][i - 1] == cuts[i];
    }
  }

  /** Looking back from line i stops either above the first line or at it. */
  lemma {:induction false} HeaderAboveShift(cuts: seq<Cut>, i: nat)
    requires 0 < i < |cuts|
    ensures HeaderAbove(cuts, i) ==
              if HeaderAbove(cuts[1..], i - 1).Some? then HeaderAbove(cuts[1..], i - 1)
              else HeaderAbove(cuts, 0)
    decreases i
  {
    assert cuts[1..][i - 1] == cuts[i];
    if cuts[i].name == "" && i > 1 {
      HeaderAboveShift(cuts, i - 1);
    }
  }

  /** A line has no field name exactly when every line up to it has a blank name column. */
  lemma {:induction false} NoHeaderAboveIffBlank(cuts: seq<Cut>, i: nat)
    requires i < |cuts|
    ensures HeaderAbove(cuts, i).None? <==> forall k :: 0 <= k <= i ==> cuts[k].name == ""
    decreases i
  {
    if i > 0 && cuts[i].name == "" {
      NoHeaderAboveIffBlank(cuts, i - 1);
    }
  }

  /** A line's field name is never blank, and it is the name column of some line at or above it. */
  lemma {:induction false} HeaderAboveIsSomeName(cuts: seq<Cut>, i: nat)
    requires i < |cuts|
    requires HeaderAbove(cuts, i).Some?
    ensures HeaderAbove(cuts, i).value != ""
    ensures exists k :: 0 <= k <= i && cuts[k].name == HeaderAbove(cuts, i).value
    decreases i
  {
    if cuts[i].name == "" {
      HeaderAboveIsSomeName(cuts, i - 1);
    }
  }

  /** Every line has a field name exactly when the first line's name column is not blank. */
  lemma NamedIffFirstNamed(cuts: seq<Cut>)
    requires cuts != []
    ensures (forall i :: 0 <= i < |cuts| ==> Resolve(cuts, None)[i].name.Some?) <==> cuts[0].name != ""
  {
    ResolveFindsHeaderAbove(cuts, 0);
    if cuts[0].name != "" {
      forall i | 0 <= i < |cuts| ensures Resolve(cuts, None)[i].name.Some? {
        ResolveFindsHeaderAbove(cuts, i);
        NoHeaderAboveIffBlank(cuts, i);
      }
    }
  }

  // ---------------------------------------------------------------------------
  // The cut into lines

  /** Cutting at newlines loses nothing and leaves no newline inside a line. */
  lemma LinesRoundTrip(raw: string)
    ensures Join("\n", LinesOf(raw)) == Strip(raw)
    ensures forall i :: 0 <= i < |LinesOf(raw)| ==> !Contains(LinesOf(raw)[i], "\n")
  {
    JoinSplitOn(Strip(raw), "\n");
    SplitOnPiecesFree(Strip(raw), "\n");
  }


  /** Each field's bodies are the bodies of the lines naming it, in order. */
  lemma {:induction false} BodiesOfSelects(ll: seq<LogicalLine>, name: string)
    ensures forall b :: b in BodiesOf(ll, name) ==> exists i :: 0 <= i < |ll| && ll[i].name == Some(name) && ll[i].body == b
    ensures (forall i :: 0 <= i < |ll| ==> ll[i].name == Some(name)) ==> |BodiesOf(ll, name)| == |ll|
    ensures (forall i :: 0 <= i < |ll| ==> ll[i].name != Some(name)) ==> BodiesOf(ll, name) == []
    decreases |ll|
  {
    if ll != [] {
      var rest := ll[1..];
      BodiesOfSelects(rest, name);
      assert forall i :: 0 <= i < |rest| ==> rest[i] == ll[i + 1];
      forall b | b in BodiesOf(ll, name)
        ensures exists i :: 0 <= i < |ll| && ll[i].name == Some(name) && ll[i].body == b
      {
        if ll[0].name == Some(name) && b == ll[0].body {
          assert ll[0].name == Some(name) && ll[0].body == b;
        } else {
          assert b in BodiesOf(rest, name);
          var j :| 0 <= j < |rest| && rest[j].name == Some(name) && rest[j].body == b;
          assert ll[j + 1].name == Some(name) && ll[j + 1].body == b;
        }
      }
    }
  }

  /** The first line of a record has a blank name column exactly when the
      whole record is whitespace: stripping leaves nothing, or leaves a text
      whose first character is a name character. */
  lemma FirstNameBlankIffAllSpace(raw: string)
    ensures CutLines(raw)[0].name == "" <==> AllSpace(raw)
  {
    var s := Strip(raw);
    var line := LinesOf(raw)[0];
    assert CutLines(raw)[0].name == NameOf(line);
    assert line <= s;
    if s != [] {
      assert !IsSpace(s[0]);
      assert !("\n" <= s) by { assert IsSpace('\n'); }
      assert line != [];
      assert Take(line, NameWidth)[0] == s[0];
      assert !AllSpace(Take(line, NameWidth));
    }
  }

  /** Selecting the bodies of a field keeps the lines' order: it distributes over concatenation. */
  lemma {:induction false} BodiesOfAppend(a: seq<LogicalLine>, b: seq<LogicalLine>, name: string)
    ensures BodiesOf(a + b, name) == BodiesOf(a, name) + BodiesOf(b, name)
    decreases |a|
  {
    if a == [] {
      assert a + b == b;
    } else {
      BodiesOfAppend(a[1..], b, name);
      assert (a + b)[0] == a[0];
      assert (a + b)[1..] == a[1..] + b;
    }
  }

  /** A field has no bodies exactly when no line is named after it. */
  lemma {:induction false} BodiesOfEmptyIff(ll: seq<LogicalLine>, name: string)
    ensures BodiesOf(ll, name) == [] <==> forall i :: 0 <= i < |ll| ==> ll[i].name != Some(name)
    decreases |ll|
  {
    if ll != [] {
      var rest := ll[1..];
      BodiesOfEmptyIff(rest, name);
      assert forall i :: 0 <= i < |rest| ==> rest[i] == ll[i + 1];
      if ll[0].name != Some(name) && BodiesOf(rest, name) == [] {
        forall i | 0 <= i < |ll| ensures ll[i].name != Some(name) {
          if i > 0 {
            assert ll[i] == rest[i - 1];
          }
        }
      }
    }
  }
}
