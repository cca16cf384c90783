/** The typed values a parsed KEGG record holds, and the rules by which one
    line's body changes the value of its field (microMetabPred/parse_KEGG.py). */
module Fields {
  import opened Results
  import opened Text

  /** The shape of one field of a parsed record. */
  datatype FieldValue =
    | Str(s: string)                           // ENTRY, DEFINITION, ...
    | StrSeq(items: seq<string>)               // NAME split on ", ", CLASS lines, REACTION ids
    | PairSeq(pairs: seq<(string, string)>)    // (id, description) per line
    | Pair(id: string, desc: string)           // Organism ORTHOLOGY
    | SubMap(groups: map<string, seq<string>>) // DBLINKS and other "KEY: ids" fields
    | Equation(lhs: seq<string>, rhs: seq<string>)

  /** A parsed record: field name to value. */
  type Record = map<string, FieldValue>

  /** Why a record could not be parsed. */
  datatype ParseError =
    | NoFieldName              // a line before any field name: only an all-whitespace record has one
    | UnknownField(name: string)
    | EmptyBody(name: string)  // the first token of an empty body was asked for
    | NoSubKey(name: string)   // a sub-key line without ": "
    | BadEquation(name: string)
    | MissingEntry             // a record without ENTRY reached the id filter or the registry

  /** How a field's value is built from the bodies of its lines. */
  datatype Rule =
    | FirstToken     // first whitespace token, overwritten by each line
    | Verbatim       // whole body, overwritten by each line
    | CommaList      // body split on ", ", overwritten
    | TokenList      // body split on whitespace, overwritten
    | TokenConcat    // whitespace tokens of every line, concatenated
    | SpaceJoined    // every body, joined by single spaces
    | PairAppend     // one (first token, rest) pair appended per line
    | PairOverwrite  // one (first token, rest) pair, overwritten
    | LineAppend     // every body appended verbatim
    | ClassPairs     // body split on "; " into (code, name) pairs, overwritten
    | EquationSplit  // "lhs <=> rhs", each side split on " + ", overwritten
    | SubKeyEach     // every "KEY: ids" line adds or replaces KEY
    | SubKeyFirst    // only the first "KEY: ids" line of the field counts
    | Ignored        // recognised, never stored
    | Unknown        // not recognised: an error

  /** Whether the rule stores a value at all; ignored and unknown fields store nothing. */
  predicate Stores(rule: Rule) {
    !(rule.Ignored? || rule.Unknown?)
  }

  /** The value has the constructor its rule stores. */
  predicate Holds(rule: Rule, v: FieldValue) {
    match rule
    case FirstToken | Verbatim | SpaceJoined => v.Str?
    case CommaList | TokenList | TokenConcat | LineAppend => v.StrSeq?
    case PairAppend | ClassPairs => v.PairSeq?
    case PairOverwrite => v.Pair?
    case EquationSplit => v.Equation?
    case SubKeyEach | SubKeyFirst => v.SubMap?
    case Ignored | Unknown => false
  }

  /** Only a rule that stores something holds a value. */
  lemma HoldsOnlyStored(rule: Rule, v: FieldValue)
    ensures Holds(rule, v) ==> Stores(rule)
  {
  }

  /** A field's current value (None while the field is absent) has its rule's shape. */
  predicate Fits(rule: Rule, cur: Option<FieldValue>) {
    cur.None? || Holds(rule, cur.value)
  }

  // ---------------------------------------------------------------------------
  // Readings of one body

  /** The body has a first whitespace-delimited token. */
  predicate HasId(body: string) {
    |SplitWs(body)| > 0
  }

  /** The first token of the body, and the remaining tokens joined by single spaces. */
  function IdAndRest(body: string): (string, string)
    requires HasId(body)
  {
    var toks := SplitWs(body);
    (toks[0], Join(" ", toks[1..]))
  }

  /** The body splits on ": " into at least two parts. */
  predicate HasSubKey(body: string) {
    |SplitOn(body, ": ")| >= 2
  }

  /** The text before the first ": ". */
  function SubKey(body: string): string
    requires HasSubKey(body)
  {
    SplitOn(body, ": ")[0]
  }

  /** The text between the first and the second ": ". */
  function SubText(body: string): string
    requires HasSubKey(body)
  {
    SplitOn(body, ": ")[1]
  }

  /** The whitespace tokens between the first and the second ": ". */
  function SubTokens(body: string): seq<string>
    requires HasSubKey(body)
  {
    SplitWs(SubText(body))
  }

  /** The body splits on " <=> " into exactly two sides. */
  predicate IsEquation(body: string) {
    |SplitOn(body, " <=> ")| == 2
  }

  /** The two sides of " <=> ", each stripped and cut at " + ". */
  function SidesOf(body: string): (seq<string>, seq<string>)
    requires IsEquation(body)
  {
    var sides := SplitOn(body, " <=> ");
    (SplitOn(Strip(sides[0]), " + "), SplitOn(Strip(sides[1]), " + "))
  }

  /** A Pathway CLASS body: for each "; "-item, its first five characters and
      what follows its sixth. */
  function ClassCodesOf(body: string): seq<(string, string)> {
    var items := SplitOn(body, "; ");
    seq(|items|, k requires 0 <= k < |items| => (Take(items[k], 5), Drop(items[k], 6)))
  }

  // ---------------------------------------------------------------------------
  // The value so far, by shape

  function ItemsSoFar(cur: Option<FieldValue>): seq<string>
    requires cur.None? || cur.value.StrSeq?
  {
    if cur.None? then [] else cur.value.items
  }

  function PairsSoFar(cur: Option<FieldValue>): seq<(string, string)>
    requires cur.None? || cur.value.PairSeq?
  {
    if cur.None? then [] else cur.value.pairs
  }

  function GroupsSoFar(cur: Option<FieldValue>): map<string, seq<string>>
    requires cur.None? || cur.value.SubMap?
  {
    if cur.None? then map[] else cur.value.groups
  }

  // ---------------------------------------------------------------------------
  // One line, then all lines, of one field

  /** The field's value after one more line with this body; `cur` is the value
      before it (None while the field is absent). An error names the field;
      AbsorbKeepsShape states what a successful line leaves. */
  function Absorb(rule: Rule, name: string, cur: Option<FieldValue>, body: string): (r: Result<Option<FieldValue>, ParseError>)
    requires Fits(rule, cur)
    ensures r.Failure? ==> r.error in {EmptyBody(name), NoSubKey(name), BadEquation(name), UnknownField(name)}
  {
    match rule
    case FirstToken =>
      if HasId(body) then Success(Some(Str(SplitWs(body)[0]))) else Failure(EmptyBody(name))
    case Verbatim => Success(Some(Str(body)))
    case CommaList => Success(Some(StrSeq(SplitOn(body, ", "))))
    case TokenList => Success(Some(StrSeq(SplitWs(body))))
    case TokenConcat => Success(Some(StrSeq(ItemsSoFar(cur) + SplitWs(body))))
    case SpaceJoined => Success(Some(Str(if cur.None? then body else cur.value.s + " " + body)))
    case PairAppend =>
      if HasId(body) then Success(Some(PairSeq(PairsSoFar(cur) + [IdAndRest(body)])))
      else Failure(EmptyBody(name))
    case PairOverwrite =>
      if HasId(body) then Success(Some(Pair(IdAndRest(body).0, IdAndRest(body).1)))
      else Failure(EmptyBody(name))
    case LineAppend => Success(Some(StrSeq(ItemsSoFar(cur) + [body])))
    case ClassPairs => Success(Some(PairSeq(ClassCodesOf(body))))
    case EquationSplit =>
      if IsEquation(body) then Success(Some(Equation(SidesOf(body).0, SidesOf(body).1)))
      else Failure(BadEquation(name))
    case SubKeyEach =>
      if HasSubKey(body) then Success(Some(SubMap(GroupsSoFar(cur)[SubKey(body) := SubTokens(body)])))
      else Failure(NoSubKey(name))
    case SubKeyFirst =>
      // the map is filled only when it is created: later lines of the field change nothing
      if cur.Some? then Success(cur)
      else if HasSubKey(body) then Success(Some(SubMap(map[SubKey(body) := SubTokens(body)])))
      else Failure(NoSubKey(name))
    case Ignored => Success(cur)
    case Unknown => Failure(UnknownField(name))
  }

  /** One line keeps the field's value in its rule's shape, and never removes a present field. */
  lemma AbsorbKeepsShape(rule: Rule, name: string, cur: Option<FieldValue>, body: string)
    requires Fits(rule, cur)
    ensures var r := Absorb(rule, name, cur, body);
            (r.Success? ==> Fits(rule, r.value)) && (r.Success? && cur.Some? ==> r.value.Some?)
  {
    match rule
    case FirstToken => {}
    case Verbatim => {}
    case CommaList => {}
    case TokenList => {}
    case TokenConcat => {}
    case SpaceJoined => {}
    case PairAppend => {}
    case PairOverwrite => {}
    case LineAppend => {}
    case ClassPairs => {}
    case EquationSplit => {}
    case SubKeyEach => {}
    case SubKeyFirst => {}
    case Ignored => {}
    case Unknown => {}
  }

  /** The field's value after all of its lines, in order; the first failing line decides the error. */
  function AbsorbAll(rule: Rule, name: string, cur: Option<FieldValue>, bodies: seq<string>): (r: Result<Option<FieldValue>, ParseError>)
    requires Fits(rule, cur)
    ensures r.Success? ==> Fits(rule, r.value)
    decreases |bodies|
  {
    if bodies == [] then Success(cur)
    else
      AbsorbKeepsShape(rule, name, cur, bodies[0]);
      match Absorb(rule, name, cur, bodies[0])
      case Failure(e) => Failure(e)
      case Success(next) => AbsorbAll(rule, name, next, bodies[1..])
  }

  // ---------------------------------------------------------------------------
  // What a field holds, stated over all of its lines at once

  predicate AllHaveIds(bodies: seq<string>) {
    forall i :: 0 <= i < |bodies| ==> HasId(bodies[i])
  }

  predicate AllHaveSubKeys(bodies: seq<string>) {
    forall i :: 0 <= i < |bodies| ==> HasSubKey(bodies[i])
  }

  predicate AllEquations(bodies: seq<string>) {
    forall i :: 0 <= i < |bodies| ==> IsEquation(bodies[i])
  }

  /** One (id, description) pair per body, in order. */
  function PairsOf(bodies: seq<string>): (ps: seq<(string, string)>)
    requires AllHaveIds(bodies)
    ensures |ps| == |bodies|
    decreases |bodies|
  {
    if bodies == [] then [] else [IdAndRest(bodies[0])] + PairsOf(bodies[1..])
  }

  /** The whitespace tokens of all bodies, in order. */
  function TokensOfLines(bodies: seq<string>): seq<string>
    decreases |bodies|
  {
    if bodies == [] then [] else SplitWs(bodies[0]) + TokensOfLines(bodies[1..])
  }

  /** Each body's (KEY, ids), in order. */
  function SubKeyLines(bodies: seq<string>): (ps: seq<(string, seq<string>)>)
    requires AllHaveSubKeys(bodies)
    ensures |ps| == |bodies|
    ensures forall i :: 0 <= i < |bodies| ==> ps[i] == (SubKey(bodies[i]), SubTokens(bodies[i]))
    decreases |bodies|
  {
    if bodies == [] then [] else [(SubKey(bodies[0]), SubTokens(bodies[0]))] + SubKeyLines(bodies[1..])
  }

  /** The pairs as a map, a later pair replacing an earlier one with the same key. */
  function MapOf<K, V>(ps: seq<(K, V)>): map<K, V>
    decreases |ps|
  {
    if ps == [] then map[] else map[ps[0].0 := ps[0].1] + MapOf(ps[1..])
  }

  /** Each body's KEY mapped to its ids, a later line replacing an earlier one with the same KEY. */
  function SubKeyMapOf(bodies: seq<string>): map<string, seq<string>>
    requires AllHaveSubKeys(bodies)
  {
    MapOf(SubKeyLines(bodies))
  }

  // Each rule's closed form: the value (None: absent) a field holds once all
  // of its bodies have been read, or the error they cause.

  function Last(bodies: seq<string>): string
    requires bodies != []
  {
    bodies[|bodies| - 1]
  }

  /** The first token of the last line; every line must have one. */
  function FirstTokenField(name: string, bodies: seq<string>): Result<Option<FieldValue>, ParseError> {
    if !AllHaveIds(bodies) then Failure(EmptyBody(name))
    else if bodies == [] then Success(None)
    else Success(Some(Str(SplitWs(Last(bodies))[0])))
  }

  /** The last line. */
  function VerbatimField(bodies: seq<string>): Option<FieldValue> {
    if bodies == [] then None else Some(Str(Last(bodies)))
  }

  /** The last line cut at ", ". */
  function CommaListField(bodies: seq<string>): Option<FieldValue> {
    if bodies == [] then None else Some(StrSeq(SplitOn(Last(bodies), ", ")))
  }

  /** The tokens of the last line. */
  function TokenListField(bodies: seq<string>): Option<FieldValue> {
    if bodies == [] then None else Some(StrSeq(SplitWs(Last(bodies))))
  }

  /** The tokens of every line, in order. */
  function TokenConcatField(bodies: seq<string>): Option<FieldValue> {
    if bodies == [] then None else Some(StrSeq(TokensOfLines(bodies)))
  }

  /** Every line, joined by single spaces. */
  function SpaceJoinedField(bodies: seq<string>): Option<FieldValue> {
    if bodies == [] then None else Some(Str(Join(" ", bodies)))
  }

  /** One (id, description) pair per line; every line must have an id. */
  function PairAppendField(name: string, bodies: seq<string>): Result<Option<FieldValue>, ParseError> {
    if !AllHaveIds(bodies) then Failure(EmptyBody(name))
    else Success(if bodies == [] then None else Some(PairSeq(PairsOf(bodies))))
  }

  /** The (id, description) pair of the last line; every line must have an id. */
  function PairOverwriteField(name: string, bodies: seq<string>): Result<Option<FieldValue>, ParseError> {
    if !AllHaveIds(bodies) then Failure(EmptyBody(name))
    else if bodies == [] then Success(None)
    else Success(Some(Pair(IdAndRest(Last(bodies)).0, IdAndRest(Last(bodies)).1)))
  }

  /** Every line, verbatim and in order. */
  function LineAppendField(bodies: seq<string>): Option<FieldValue> {
    if bodies == [] then None else Some(StrSeq(bodies))
  }

  /** The (code, name) pairs of the last line. */
  function ClassPairsField(bodies: seq<string>): Option<FieldValue> {
    if bodies == [] then None else Some(PairSeq(ClassCodesOf(Last(bodies))))
  }

  /** The two sides of the last line; every line must be an equation. */
  function EquationField(name: string, bodies: seq<string>): Result<Option<FieldValue>, ParseError> {
    if !AllEquations(bodies) then Failure(BadEquation(name))
    else if bodies == [] then Success(None)
    else Success(Some(Equation(SidesOf(Last(bodies)).0, SidesOf(Last(bodies)).1)))
  }

  /** Each KEY mapped to the ids of its last line; every line must have a KEY. */
  function SubKeyEachField(name: string, bodies: seq<string>): Result<Option<FieldValue>, ParseError> {
    if !AllHaveSubKeys(bodies) then Failure(NoSubKey(name))
    else Success(if bodies == [] then None else Some(SubMap(SubKeyMapOf(bodies))))
  }

  /** The KEY and ids of the first line only; later lines are split but never
      stored, and cannot fail. */
  function SubKeyFirstField(name: string, bodies: seq<string>): Result<Option<FieldValue>, ParseError> {
    if bodies == [] then Success(None)
    else if !HasSubKey(bodies[0]) then Failure(NoSubKey(name))
    else Success(Some(SubMap(map[SubKey(bodies[0]) := SubTokens(bodies[0])])))
  }

  /** The closed form of the field's rule. */
  function FieldOfLines(rule: Rule, name: string, bodies: seq<string>): Result<Option<FieldValue>, ParseError> {
    match rule
    case FirstToken => FirstTokenField(name, bodies)
    case Verbatim => Success(VerbatimField(bodies))
    case CommaList => Success(CommaListField(bodies))
    case TokenList => Success(TokenListField(bodies))
    case TokenConcat => Success(TokenConcatField(bodies))
    case SpaceJoined => Success(SpaceJoinedField(bodies))
    case PairAppend => PairAppendField(name, bodies)
    case PairOverwrite => PairOverwriteField(name, bodies)
    case LineAppend => Success(LineAppendField(bodies))
    case ClassPairs => Success(ClassPairsField(bodies))
    case EquationSplit => EquationField(name, bodies)
    case SubKeyEach => SubKeyEachField(name, bodies)
    case SubKeyFirst => SubKeyFirstField(name, bodies)
    case Ignored => Success(None)
    case Unknown => if bodies == [] then Success(None) else Failure(UnknownField(name))
  }
}
