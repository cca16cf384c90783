/** The five KEGG record parsers: each one is the shared loop over logical
    lines, driven by its own if-chain from field name to rule. */
module Parsers {
  import opened Results
  import opened Text
  import opened Fields
  import opened FieldLaws
  import opened Tokenizer
  import opened Interpreter

  /** The KEGG databases with a parser: KO, REACTION, COMPOUND, PATHWAY, GENES (organism). */
  datatype Kind = Orthology | Reaction | Compound | Pathway | Organism

  // Each dispatch below follows its parser's if-chain arm by arm; the first arm
  // that matches decides, so a name listed twice takes the earlier arm.

  /** The arms of `parse_ko`: it stores the nine fields of KoFields, skips
      KoSkipped, and raises on every other name. */
  function KoRule(n: string): (r: Rule)
    ensures Stores(r) <==> n in KoFields
    ensures r == Unknown <==> n !in KoFields && n !in KoSkipped
  {
    if n == "ENTRY" then FirstToken
    else if n == "NAME" then CommaList
    else if n == "DEFINITION" then Verbatim
    else if n in {"PATHWAY", "MODULE", "DISEASE"} then PairAppend
    else if n == "CLASS" then LineAppend
    else if n == "BRITE" then Ignored
    else if n == "DBLINKS" || n == "GENES" then SubKeyEach
    else if n in {"REFERENCE", "AUTHORS", "TITLE", "JOURNAL", "SEQUENCE"} then Ignored
    else Unknown
  }

  /** The arms of `parse_rn`: it stores ReactionFields, skips the reference
      fields, raises on every other name, and splits only EQUATION as an equation. */
  function ReactionRule(n: string): (r: Rule)
    ensures Stores(r) <==> n in ReactionFields
    ensures r == Unknown <==> n !in ReactionFields && n !in ReferenceFields
    ensures r == EquationSplit <==> n == "EQUATION"
  {
    if n == "ENTRY" then FirstToken
    else if n in {"NAME", "DEFINITION", "REMARK", "COMMENT", "ENZYME"} then Verbatim
    else if n == "RPAIR" then TokenList
    else if n == "DEFINITION" || n == "EQUATION" then EquationSplit
    else if n in {"RCLASS", "PATHWAY", "ORTHOLOGY", "MODULE"} then PairAppend
    else if n == "DBLINKS" then SubKeyFirst
    else if n in {"REFERENCE", "AUTHORS", "TITLE", "JOURNAL"} then Ignored
    else Unknown
  }

  /** The arms of `parse_co`: it stores CompoundFields (SEQUENCE among them),
      skips CompoundSkipped, and raises on every other name. */
  function CompoundRule(n: string): (r: Rule)
    ensures Stores(r) <==> n in CompoundFields
    ensures r == Unknown <==> n !in CompoundFields && n !in CompoundSkipped
  {
    if n == "ENTRY" then FirstToken
    else if n == "NAME" then SpaceJoined
    else if n in {"FORMULA", "EXACT_MASS", "MOL_WEIGHT", "REMARK", "COMMENT"} then Verbatim
    else if n in {"REACTION", "ENZYME", "SEQUENCE"} then TokenConcat
    else if n in {"PATHWAY", "MODULE"} then PairAppend
    else if n in {"BRITE", "ATOM", "BOND", "BRACKET", "ORIGINAL", "REPEAT"} then Ignored
    else if n in {"SEQUENCE", "GENE", "ORGANISM"} then Ignored
    else if n == "DBLINKS" then SubKeyFirst
    else if n in {"REFERENCE", "AUTHORS", "TITLE", "JOURNAL"} then Ignored
    else Unknown
  }

  /** The arms of `parse_pathway`: it stores PathwayFields, skips the protein
      and reference fields and every name with a lower-case letter, and raises
      on every other name. */
  function PathwayRule(n: string): (r: Rule)
    ensures Stores(r) <==> n in PathwayFields
    ensures r == Unknown <==> n !in PathwayFields && n !in PathwaySkipped && !HasLower(n)
  {
    NotUpperIffHasLower(n);
    if n == "ENTRY" then FirstToken
    else if n in {"NAME", "DESCRIPTION", "KO_PATHWAY"} then Verbatim
    else if n == "CLASS" then ClassPairs
    else if n in {"PATHWAY_MAP", "MODULE", "DISEASE", "DRUG", "ORTHOLOGY", "COMPOUND", "REL_PATHWAY",
                  "REACTION", "ENZYME"} then PairAppend
    else if n in {"GENE", "ORGANISM"} then Ignored
    else if n == "DBLINKS" then SubKeyFirst
    else if n in {"REFERENCE", "AUTHORS", "TITLE", "JOURNAL"} then Ignored
    else if n != ToUpper(n) then Ignored
    else Unknown
  }

  /** The arms of `parse_organism`: it stores OrganismFields, skips the
      sequences and every name with a lower-case letter, and raises on every
      other name. */
  function OrganismRule(n: string): (r: Rule)
    ensures Stores(r) <==> n in OrganismFields
    ensures r == Unknown <==> n !in OrganismFields && n !in {"AASEQ", "NTSEQ"} && !HasLower(n)
  {
    NotUpperIffHasLower(n);
    if n == "ENTRY" then FirstToken
    else if n == "NAME" then CommaList
    else if n in {"DEFINITION", "POSITION"} then Verbatim
    else if n == "ORTHOLOGY" then PairOverwrite
    else if n in {"PATHWAY", "DISEASE"} then PairAppend
    else if n == "CLASS" then LineAppend
    else if n in {"DRUG_TARGET", "MOTIF", "DBLINKS", "STRUCTURE"} then SubKeyFirst
    else if n in {"AASEQ", "NTSEQ"} then Ignored
    else if n != ToUpper(n) then Ignored
    else Unknown
  }

  /** The rule a parser applies to lines of the named field. */
  function RuleOf(kind: Kind, n: string): Rule {
    match kind
    case Orthology => KoRule(n)
    case Reaction => ReactionRule(n)
    case Compound => CompoundRule(n)
    case Pathway => PathwayRule(n)
    case Organism => OrganismRule(n)
  }

  function TableOf(kind: Kind): Table {
    n => RuleOf(kind, n)
  }

  /** A field the parser stores (every other name is skipped or rejected). */
  predicate Kept(kind: Kind, n: string) {
    Stores(RuleOf(kind, n))
  }

  /** One raw record to its field map; every stored field is one the parser keeps,
      with the shape that field's rule stores, and every error comes from the
      rule that raises it. */
  function Parse(kind: Kind, raw: string): (r: Result<Record, ParseError>)
    ensures r.Success? ==> forall k :: k in r.value ==> Kept(kind, k) && Holds(RuleOf(kind, k), r.value[k])
    ensures r.Failure? ==> Explains(TableOf(kind), r.error)
  {
    var r := Run(TableOf(kind), LogicalLinesOf(raw), map[]);
    if r.Success? then
      assert forall k :: k in r.value ==> Kept(kind, k) by {
        forall k | k in r.value ensures Kept(kind, k) {
          HoldsOnlyStored(RuleOf(kind, k), r.value[k]);
        }
      }
      r
    else r
  }

  /** A parsed record holds only fields its parser keeps. */
  lemma KeysWithin(kind: Kind, raw: string, fields: set<string>)
    requires forall n :: Kept(kind, n) ==> n in fields
    ensures Parse(kind, raw).Success? ==> Parse(kind, raw).value.Keys <= fields
  {
  }

  // ---------------------------------------------------------------------------
  // The five parsers

  const KoFields: set<string> :=
    {"ENTRY", "NAME", "DEFINITION", "PATHWAY", "MODULE", "DISEASE", "CLASS", "DBLINKS", "GENES"}

  /** The names `parse_ko` recognises and passes over. */
  const KoSkipped: set<string> := {"BRITE", "REFERENCE", "AUTHORS", "TITLE", "JOURNAL", "SEQUENCE"}

  /** The literature fields every parser but `parse_ko` passes over by this list. */
  const ReferenceFields: set<string> := {"REFERENCE", "AUTHORS", "TITLE", "JOURNAL"}

  lemma KoKeeps()
    ensures forall n :: Kept(Orthology, n) ==> n in KoFields
  {
  }

  /** `parse_ko`: a KO record stores only its nine known fields. */
  function ParseKo(raw: string): (r: Result<Record, ParseError>)
    ensures r == Parse(Orthology, raw)
    ensures r.Success? ==> r.value.Keys <= KoFields
  {
    KoKeeps();
    KeysWithin(Orthology, raw, KoFields);
    Parse(Orthology, raw)
  }

  const ReactionFields: set<string> :=
    {"ENTRY", "NAME", "DEFINITION", "REMARK", "COMMENT", "ENZYME", "RPAIR", "EQUATION",
     "RCLASS", "PATHWAY", "ORTHOLOGY", "MODULE", "DBLINKS"}

  lemma ReactionKeeps()
    ensures forall n :: Kept(Reaction, n) ==> n in ReactionFields
  {
  }

  /** Only EQUATION lines are read as equations: DEFINITION, although listed
      with EQUATION, is taken verbatim by the earlier arm. */
  lemma OnlyEquationIsEquation(n: string)
    ensures ReactionRule(n) == EquationSplit <==> n == "EQUATION"
  {
  }

  lemma RejectsOnlyEquation(r: Result<Record, ParseError>)
    ensures r.Failure? && Explains(TableOf(Reaction), r.error) && r.error.BadEquation? ==> r.error.name == "EQUATION"
  {
    if r.Failure? && Explains(TableOf(Reaction), r.error) && r.error.BadEquation? {
      OnlyEquationIsEquation(r.error.name);
    }
  }

  /** `parse_rn`: a REACTION record stores only its thirteen known fields, and
      only a malformed EQUATION line raises the equation error. */
  function ParseRn(raw: string): (r: Result<Record, ParseError>)
    ensures r == Parse(Reaction, raw)
    ensures r.Success? ==> r.value.Keys <= ReactionFields
    ensures r.Failure? && r.error.BadEquation? ==> r.error.name == "EQUATION"
  {
    ReactionKeeps();
    RejectsOnlyEquation(Parse(Reaction, raw));
    KeysWithin(Reaction, raw, ReactionFields);
    Parse(Reaction, raw)
  }

  const CompoundFields: set<string> :=
    {"ENTRY", "NAME", "FORMULA", "EXACT_MASS", "MOL_WEIGHT", "REMARK", "COMMENT",
     "REACTION", "ENZYME", "SEQUENCE", "PATHWAY", "MODULE", "DBLINKS"}

  const CompoundSkipped: set<string> :=
    {"BRITE", "ATOM", "BOND", "BRACKET", "ORIGINAL", "REPEAT", "GENE", "ORGANISM",
     "REFERENCE", "AUTHORS", "TITLE", "JOURNAL"}

  lemma CompoundKeeps()
    ensures forall n :: Kept(Compound, n) ==> n in CompoundFields
  {
  }

  /** `parse_co`: a COMPOUND record stores only its thirteen known fields;
      SEQUENCE lines are collected as tokens (the later arm that ignores
      SEQUENCE is never reached). */
  function ParseCo(raw: string): (r: Result<Record, ParseError>)
    ensures r == Parse(Compound, raw)
    ensures r.Success? ==> r.value.Keys <= CompoundFields
  {
    CompoundKeeps();
    KeysWithin(Compound, raw, CompoundFields);
    Parse(Compound, raw)
  }

  const PathwayFields: set<string> :=
    {"ENTRY", "NAME", "DESCRIPTION", "KO_PATHWAY", "CLASS", "PATHWAY_MAP", "MODULE", "DISEASE", "DRUG",
     "ORTHOLOGY", "COMPOUND", "REL_PATHWAY", "REACTION", "ENZYME", "DBLINKS"}

  const PathwaySkipped: set<string> := {"GENE", "ORGANISM", "REFERENCE", "AUTHORS", "TITLE", "JOURNAL"}

  lemma PathwayKeeps()
    ensures forall n :: Kept(Pathway, n) ==> n in PathwayFields
  {
  }

  /** A name the PATHWAY or GENES parser rejects is all upper case: one with a
      lower-case letter is skipped. */
  lemma UnknownIsUpper(kind: Kind, n: string)
    requires kind == Pathway || kind == Organism
    ensures RuleOf(kind, n) == Unknown ==> !HasLower(n)
  {
    NotUpperIffHasLower(n);
  }

  lemma RejectsOnlyUpper(kind: Kind, r: Result<Record, ParseError>)
    requires kind == Pathway || kind == Organism
    ensures r.Failure? && Explains(TableOf(kind), r.error) && r.error.UnknownField? ==> !HasLower(r.error.name)
  {
    if r.Failure? && Explains(TableOf(kind), r.error) && r.error.UnknownField? {
      UnknownIsUpper(kind, r.error.name);
    }
  }

  /** `parse_pathway`: a PATHWAY record stores only its fifteen known fields,
      and a field name with a lower-case letter is never an error. */
  function ParsePathway(raw: string): (r: Result<Record, ParseError>)
    ensures r == Parse(Pathway, raw)
    ensures r.Success? ==> r.value.Keys <= PathwayFields
    ensures r.Failure? && r.error.UnknownField? ==> !HasLower(r.error.name)
  {
    PathwayKeeps();
    RejectsOnlyUpper(Pathway, Parse(Pathway, raw));
    KeysWithin(Pathway, raw, PathwayFields);
    Parse(Pathway, raw)
  }

  const OrganismFields: set<string> :=
    {"ENTRY", "NAME", "DEFINITION", "POSITION", "ORTHOLOGY", "PATHWAY", "DISEASE",
     "CLASS", "DRUG_TARGET", "MOTIF", "DBLINKS", "STRUCTURE"}

  lemma OrganismKeeps()
    ensures forall n :: Kept(Organism, n) ==> n in OrganismFields
  {
  }

  /** `parse_organism`: a GENES record stores only its twelve known fields, and
      a field name with a lower-case letter is never an error. */
  function ParseOrganism(raw: string): (r: Result<Record, ParseError>)
    ensures r == Parse(Organism, raw)
    ensures r.Success? ==> r.value.Keys <= OrganismFields
    ensures r.Failure? && r.error.UnknownField? ==> !HasLower(r.error.name)
  {
    OrganismKeeps();
    RejectsOnlyUpper(Organism, Parse(Organism, raw));
    KeysWithin(Organism, raw, OrganismFields);
    Parse(Organism, raw)
  }

  // ---------------------------------------------------------------------------
  // What every parser does

  /** Each field of a parsed record is its rule's closed form over the lines
      naming that field, whatever the other fields' lines are. */
  lemma ParsedFieldFollowsItsLines(kind: Kind, raw: string, n: string)
    ensures Parse(kind, raw).Success? ==>
              FieldOfLines(RuleOf(kind, n), n, BodiesOf(LogicalLinesOf(raw), n)) == Success(Lookup(Parse(kind, raw).value, n))
  {
    var ll := LogicalLinesOf(raw);
    RunIsFieldwise(TableOf(kind), ll, map[], n);
    AbsorbAllIsFieldOfLines(RuleOf(kind, n), n, BodiesOf(ll, n));
  }

  /** Every line is named exactly when the first line's name column is not blank. */
  lemma AllNamedIffFirstNamed(raw: string)
    ensures AllNamed(LogicalLinesOf(raw)) <==> CutLines(raw)[0].name != ""
  {
    var cuts := CutLines(raw);
    assert LogicalLinesOf(raw) == Resolve(cuts, None);
    ResolvedAllNamed(cuts);
  }

  /** A record parses exactly when its first line names a field and every
      field's rule accepts all of that field's lines. */
  lemma ParseSucceedsIff(kind: Kind, raw: string)
    ensures Parse(kind, raw).Success? <==>
              && CutLines(raw)[0].name != ""
              && forall n :: FieldOfLines(RuleOf(kind, n), n, BodiesOf(LogicalLinesOf(raw), n)).Success?
  {
    var ll := LogicalLinesOf(raw);
    RunSucceedsIff(TableOf(kind), ll);
    AllNamedIffFirstNamed(raw);
    forall n ensures AbsorbAll(RuleOf(kind, n), n, None, BodiesOf(ll, n)) == FieldOfLines(RuleOf(kind, n), n, BodiesOf(ll, n)) {
      AbsorbAllIsFieldOfLines(RuleOf(kind, n), n, BodiesOf(ll, n));
    }
  }

  /** The missing-name error is raised exactly for a record whose first line
      has a blank name column, that is, for an all-whitespace record. */
  lemma NoFieldNameIffBlankFirstColumn(kind: Kind, raw: string)
    ensures Parse(kind, raw) == Failure(NoFieldName) <==> CutLines(raw)[0].name == ""
    ensures Parse(kind, raw) == Failure(NoFieldName) <==> AllSpace(raw)
  {
    FirstNameBlankIffAllSpace(raw);
    var ll := LogicalLinesOf(raw);
    AllNamedIffFirstNamed(raw);
    RunNeedsNames(TableOf(kind), ll, map[]);
    if CutLines(raw)[0].name == "" {
      ResolveFindsHeaderAbove(CutLines(raw), 0);
      RunStopsAtFailure(TableOf(kind), ll, map[]);
    }
  }

  /** A parsed record holds a field exactly when its parser keeps that field and some line names it. */
  lemma KeysAreKeptNamedFields(kind: Kind, raw: string, n: string)
    ensures Parse(kind, raw).Success? ==>
              (n in Parse(kind, raw).value <==>
               Kept(kind, n) && exists i :: 0 <= i < |LogicalLinesOf(raw)| && LogicalLinesOf(raw)[i].name == Some(n))
  {
    var ll := LogicalLinesOf(raw);
    RunIsFieldwise(TableOf(kind), ll, map[], n);
    AbsorbAllPresence(RuleOf(kind, n), n, None, BodiesOf(ll, n));
    BodiesOfEmptyIff(ll, n);
  }

  /** A line naming a field the parser does not know makes the whole record fail. */
  lemma UnknownFieldRejected(kind: Kind, raw: string, i: nat)
    requires i < |LogicalLinesOf(raw)| && LogicalLinesOf(raw)[i].name.Some?
    ensures RuleOf(kind, LogicalLinesOf(raw)[i].name.value) == Unknown ==> Parse(kind, raw).Failure?
    ensures RuleOf(kind, LogicalLinesOf(raw)[i].name.value) == Unknown
            && (forall j :: 0 <= j < i ==> Readable(TableOf(kind), LogicalLinesOf(raw)[j])) ==>
              Parse(kind, raw) == Failure(UnknownField(LogicalLinesOf(raw)[i].name.value))
  {
    RunRejectsUnknown(TableOf(kind), LogicalLinesOf(raw), i);
  }

  /** A record that fails to parse has a line that cannot be read, and the
      error is that line's: a line before any field name, or a line whose
      field rule rejects its body, naming that field. */
  lemma ParseFailsAtARejectedLine(kind: Kind, raw: string)
    ensures Parse(kind, raw).Failure? ==>
              exists i :: 0 <= i < |LogicalLinesOf(raw)| && Rejects(TableOf(kind), LogicalLinesOf(raw)[i], Parse(kind, raw).error)
  {
    RunFailsAtARejectedLine(TableOf(kind), LogicalLinesOf(raw), map[]);
  }

  /** Every parser reads ENTRY as the first token of its last ENTRY line, and
      every ENTRY line must have a token. */
  lemma EntryIsFirstToken(kind: Kind, raw: string)
    ensures Parse(kind, raw).Success? ==>
              var bodies := BodiesOf(LogicalLinesOf(raw), "ENTRY");
              && AllHaveIds(bodies)
              && ("ENTRY" in Parse(kind, raw).value <==> bodies != [])
              && (bodies != [] ==> Parse(kind, raw).value["ENTRY"] == Str(SplitWs(Last(bodies))[0]))
  {
    assert RuleOf(kind, "ENTRY") == FirstToken;
    ParsedFieldFollowsItsLines(kind, raw, "ENTRY");
  }
}
