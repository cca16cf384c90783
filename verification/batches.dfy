/** Many records at once: a flat file of records separated by "///", the
    optional filter by entry id, the batches of ids sent to the KEGG REST
    service, and the map from entry id to record. */
module Batches {
  import opened Results
  import opened Text
  import opened Fields
  import opened FieldLaws
  import opened Parsers

  // ---------------------------------------------------------------------------
  // Cutting a flat file into raw records

  /** The line that ends every record of a KEGG flat file. */
  const RecordEnd: string := "///"

  /** The records of a flat file: the pieces that a "///" ends; whatever follows
      the last "///" is dropped. */
  function SplitRecords(text: string): (records: seq<string>)
    ensures |records| == |SplitOn(text, RecordEnd)| - 1
  {
    var pieces := SplitOn(text, RecordEnd);
    pieces[..|pieces| - 1]
  }

  /** The text after the last "///" (all of it when there is none). */
  function Trailer(text: string): string {
    var pieces := SplitOn(text, RecordEnd);
    pieces[|pieces| - 1]
  }

  /** Each part followed by the separator, in order. */
  function EachEndedBy(sep: string, parts: seq<string>): string
    decreases |parts|
  {
    if parts == [] then "" else parts[0] + sep + EachEndedBy(sep, parts[1..])
  }

  /** A join is every part but the last ended by the separator, then the last part. */
  lemma {:induction false} JoinIsEachEndedBy(sep: string, parts: seq<string>)
    requires |parts| >= 1
    ensures Join(sep, parts) == EachEndedBy(sep, parts[..|parts| - 1]) + parts[|parts| - 1]
    decreases |parts|
  {
    if |parts| > 1 {
      var rest := parts[1..];
      JoinIsEachEndedBy(sep, rest);
      assert rest[..|rest| - 1] == parts[..|parts| - 1][1..];
      assert rest[|rest| - 1] == parts[|parts| - 1];
      var front := EachEndedBy(sep, rest[..|rest| - 1]);
      ConcatAssoc(parts[0] + sep, front, parts[|parts| - 1]);
    } else {
      ConcatNil(parts[0]);
    }
  }

  /** Nothing is lost: the file is its records, each ended by "///", then the
      dropped trailer; no record contains "///". */
  lemma SplitRecordsRoundTrip(text: string)
    ensures text == EachEndedBy(RecordEnd, SplitRecords(text)) + Trailer(text)
    ensures forall i :: 0 <= i < |SplitRecords(text)| ==> !Contains(SplitRecords(text)[i], RecordEnd)
  {
    var pieces := SplitOn(text, RecordEnd);
    JoinSplitOn(text, RecordEnd);
    JoinIsEachEndedBy(RecordEnd, pieces);
    SplitOnPiecesFree(text, RecordEnd);
  }

  // ---------------------------------------------------------------------------
  // Parsing and filtering the records

  /** `record['ENTRY']`, None when the record has no ENTRY. */
  function EntryOf(rec: Record): Option<string> {
    if "ENTRY" in rec && rec["ENTRY"].Str? then Some(rec["ENTRY"].s) else None
  }

  /** A record shaped by a parser's rules has an entry id exactly when it has
      an ENTRY field, since every parser reads ENTRY as one token. */
  lemma ShapedEntryIsText(kind: Kind, rec: Record)
    requires forall k :: k in rec ==> Holds(RuleOf(kind, k), rec[k])
    ensures EntryOf(rec).Some? <==> "ENTRY" in rec
  {
    assert RuleOf(kind, "ENTRY") == FirstToken;
  }

  /** A parser, as `get_from_kegg_flat_file` takes it: raw record to record or error. */
  type Parser = string -> Result<Record, ParseError>

  /** The parser of a KEGG database. */
  function ParserOf(kind: Kind): Parser {
    raw => Parse(kind, raw)
  }

  /** Whether the id filter keeps the record (no filter keeps everything). */
  predicate Wanted(rec: Record, ids: Option<set<string>>) {
    ids.None? || (EntryOf(rec).Some? && EntryOf(rec).value in ids.value)
  }

  /** The loop of `get_from_kegg_flat_file`: parse each raw record in order;
      with an id filter, a record without ENTRY is an error, and only records
      whose entry is listed are kept. The first error in file order decides. */
  function Collect(parse: Parser, raws: seq<string>, ids: Option<set<string>>): (r: Result<seq<Record>, ParseError>)
    ensures r.Success? ==> |r.value| <= |raws|
    ensures r.Success? ==> forall i :: 0 <= i < |r.value| ==> Wanted(r.value[i], ids)
    decreases |raws|
  {
    if raws == [] then Success([])
    else
      match parse(raws[0])
      case Failure(e) => Failure(e)
      case Success(rec) =>
        if ids.Some? && EntryOf(rec).None? then Failure(MissingEntry)
        else
          match Collect(parse, raws[1..], ids)
          case Failure(e) => Failure(e)
          case Success(rest) => Success(if Wanted(rec, ids) then [rec] + rest else rest)
  }

  /** Every raw record parses. */
  predicate AllParse(parse: Parser, raws: seq<string>) {
    forall i :: 0 <= i < |raws| ==> parse(raws[i]).Success?
  }

  /** The parsed records, in order. */
  function ParseAll(parse: Parser, raws: seq<string>): (recs: seq<Record>)
    requires AllParse(parse, raws)
    ensures |recs| == |raws|
    ensures forall i :: 0 <= i < |raws| ==> recs[i] == parse(raws[i]).value
    decreases |raws|
  {
    if raws == [] then [] else [parse(raws[0]).value] + ParseAll(parse, raws[1..])
  }

  /** The records the filter keeps, in order. */
  function Filter(recs: seq<Record>, ids: Option<set<string>>): (kept: seq<Record>)
    ensures |kept| <= |recs|
    ensures forall i :: 0 <= i < |kept| ==> Wanted(kept[i], ids)
    decreases |recs|
  {
    if recs == [] then []
    else (if Wanted(recs[0], ids) then [recs[0]] else []) + Filter(recs[1..], ids)
  }

  /** The filter keeps the records' order: it distributes over concatenation. */
  lemma {:induction false} FilterAppend(a: seq<Record>, b: seq<Record>, ids: Option<set<string>>)
    ensures Filter(a + b, ids) == Filter(a, ids) + Filter(b, ids)
    decreases |a|
  {
    if a == [] {
      assert a + b == b;
    } else {
      assert a + b == [a[0]] + (a[1..] + b);
      assert a == [a[0]] + a[1..];
      FilterCons(a[0], a[1..] + b, ids);
      FilterCons(a[0], a[1..], ids);
      FilterAppend(a[1..], b, ids);
      ConcatAssoc(if Wanted(a[0], ids) then [a[0]] else [], Filter(a[1..], ids), Filter(b, ids));
    }
  }

  /** The filter looks at the first record, then at the rest. */
  lemma FilterCons(r: Record, rest: seq<Record>, ids: Option<set<string>>)
    ensures Filter([r] + rest, ids) == (if Wanted(r, ids) then [r] else []) + Filter(rest, ids)
  {
    assert ([r] + rest)[1..] == rest;
  }

  /** Without a filter every parsed record is kept. */
  lemma {:induction false} FilterNoneKeepsAll(recs: seq<Record>)
    ensures Filter(recs, None) == recs
    decreases |recs|
  {
    if recs != [] {
      FilterNoneKeepsAll(recs[1..]);
      assert [recs[0]] + recs[1..] == recs;
    }
  }

  /** The filter keeps exactly the wanted records. */
  lemma {:induction false} FilterKeepsWanted(recs: seq<Record>, ids: Option<set<string>>, rec: Record)
    ensures rec in Filter(recs, ids) <==> rec in recs && Wanted(rec, ids)
    decreases |recs|
  {
    if recs != [] {
      FilterKeepsWanted(recs[1..], ids, rec);
      assert recs == [recs[0]] + recs[1..];
    }
  }

  /** Every parsed record has an entry id. */
  predicate AllHaveEntries(parse: Parser, raws: seq<string>)
    requires AllParse(parse, raws)
  {
    forall i :: 0 <= i < |raws| ==> EntryOf(parse(raws[i]).value).Some?
  }

  /** The loop succeeds exactly when every record parses and, under a filter,
      has an entry id; it then keeps the wanted records in order. */
  lemma {:induction false} CollectIsParseThenFilter(parse: Parser, raws: seq<string>, ids: Option<set<string>>)
    ensures Collect(parse, raws, ids).Success? <==>
              AllParse(parse, raws) && (ids.Some? ==> AllHaveEntries(parse, raws))
    ensures Collect(parse, raws, ids).Success? ==>
              AllParse(parse, raws) && Collect(parse, raws, ids).value == Filter(ParseAll(parse, raws), ids)
    decreases |raws|
  {
    if raws != [] {
      var rest := raws[1..];
      CollectIsParseThenFilter(parse, rest, ids);
      assert forall i :: 0 <= i < |rest| ==> rest[i] == raws[i + 1];
      if AllParse(parse, raws) {
        assert ParseAll(parse, raws)[1..] == ParseAll(parse, rest);
      }
      if AllParse(parse, rest) && parse(raws[0]).Success? {
        forall i | 0 <= i < |raws| ensures parse(raws[i]).Success? {
          if i > 0 {
            assert raws[i] == rest[i - 1];
          }
        }
        if ids.Some? && AllHaveEntries(parse, rest) && EntryOf(parse(raws[0]).value).Some? {
          forall i | 0 <= i < |raws| ensures EntryOf(parse(raws[i]).value).Some? {
            if i > 0 {
              assert raws[i] == rest[i - 1];
            }
          }
        }
      }
    }
  }

  /** `get_from_kegg_flat_file` on the text of the file. */
  method FromFlatFile(parse: Parser, text: string, ids: Option<set<string>>) returns (r: Result<seq<Record>, ParseError>)
    ensures r == Collect(parse, SplitRecords(text), ids)
  {
    var raws := SplitRecords(text);
    var acc: seq<Record> := [];
    var i := 0;
    assert raws[i..] == raws;
    PrefixedNil(Collect(parse, raws, ids));
    while i < |raws|
      invariant 0 <= i <= |raws|
      invariant Collect(parse, raws, ids) == Prefixed(acc, Collect(parse, raws[i..], ids))
      decreases |raws| - i
    {
      CollectStep(parse, raws[i..], ids, acc);
      assert raws[i..][1..] == raws[i + 1..];
      var parsed := parse(raws[i]);
      if parsed.Failure? {
        return Failure(parsed.error);
      }
      var rec := parsed.value;
      if ids.Some? {
        var entry := EntryOf(rec);
        if entry.None? {
          return Failure(MissingEntry);
        }
        if entry.value in ids.value {
          acc := acc + [rec];
        }
      } else {
        acc := acc + [rec];
      }
      i := i + 1;
    }
    assert raws[i..] == [];
    ConcatNil(acc);
    return Success(acc);
  }

  /** The records found so far in front of what the rest of the file gives. */
  function Prefixed(acc: seq<Record>, r: Result<seq<Record>, ParseError>): Result<seq<Record>, ParseError> {
    match r
    case Failure(e) => Failure(e)
    case Success(rest) => Success(acc + rest)
  }

  lemma PrefixedNil(r: Result<seq<Record>, ParseError>)
    ensures Prefixed([], r) == r
  {
    if r.Success? {
      ConcatNil(r.value);
    }
  }

  /** One step of the loop: a failing record ends it with its error, any
      other record is appended when wanted. */
  lemma CollectStep(parse: Parser, raws: seq<string>, ids: Option<set<string>>, acc: seq<Record>)
    requires raws != []
    ensures parse(raws[0]).Failure? ==> Collect(parse, raws, ids) == Failure(parse(raws[0]).error)
    ensures parse(raws[0]).Success? && ids.Some? && EntryOf(parse(raws[0]).value).None? ==>
              Collect(parse, raws, ids) == Failure(MissingEntry)
    ensures parse(raws[0]).Success? && (ids.None? || EntryOf(parse(raws[0]).value).Some?) ==>
              Prefixed(acc, Collect(parse, raws, ids)) ==
                Prefixed(acc + (if Wanted(parse(raws[0]).value, ids) then [parse(raws[0]).value] else []),
                         Collect(parse, raws[1..], ids))
  {
    if parse(raws[0]).Success? && (ids.None? || EntryOf(parse(raws[0]).value).Some?) {
      var rec := parse(raws[0]).value;
      if Collect(parse, raws[1..], ids).Success? {
        var rest := Collect(parse, raws[1..], ids).value;
        if Wanted(rec, ids) {
          ConcatAssoc(acc, [rec], rest);
        } else {
          ConcatNil(acc);
        }
      }
    }
  }

  // ---------------------------------------------------------------------------
  // Batches of ids for the KEGG REST service

  /** `chunks(l, n)`: l cut into consecutive pieces of n, the last one shorter
      when n does not divide |l|. */
  function Chunks<T>(l: seq<T>, n: nat): (cs: seq<seq<T>>)
    requires n > 0
    ensures forall i :: 0 <= i < |cs| ==> 0 < |cs[i]| <= n
    ensures forall i :: 0 <= i < |cs| - 1 ==> |cs[i]| == n
    decreases |l|
  {
    if |l| == 0 then []
    else if |l| <= n then [l]
    else [l[..n]] + Chunks(l[n..], n)
  }

  /** The pieces one after the other. */
  function Flatten<T>(cs: seq<seq<T>>): seq<T>
    decreases |cs|
  {
    if cs == [] then [] else cs[0] + Flatten(cs[1..])
  }

  /** Chunking loses and reorders nothing. */
  lemma {:induction false} ChunksFlatten<T>(l: seq<T>, n: nat)
    requires n > 0
    ensures Flatten(Chunks(l, n)) == l
    decreases |l|
  {
    if |l| > n {
      ChunksFlatten(l[n..], n);
      assert l[..n] + l[n..] == l;
    } else if |l| > 0 {
      ConcatNil(l);
    }
  }

  /** The number of ids asked for in one request. */
  const BatchSize: nat := 10

  /** The prefix of a KEGG REST `get` request. */
  const KeggGet: string := "http://rest.kegg.jp/get/"

  /** One `get` URL per batch of ids, the ids of a batch joined by "+". */
  function RequestUrls(ids: seq<string>): (urls: seq<string>)
    ensures forall i :: 0 <= i < |urls| ==> KeggGet <= urls[i]
  {
    var batches := Chunks(ids, BatchSize);
    seq(|batches|, i requires 0 <= i < |batches| => KeggGet + Join("+", batches[i]))
  }

  /** The service can read the ids back: cutting the part after the prefix at
      "+" gives the batch, and the batches in order are the ids (as long as no
      id contains "+"). */
  lemma RequestsRecoverIds(ids: seq<string>)
    requires forall i :: 0 <= i < |ids| ==> '+' !in ids[i]
    ensures var urls, batches := RequestUrls(ids), Chunks(ids, BatchSize);
            && |urls| == |batches|
            && (forall i :: 0 <= i < |urls| ==> SplitOn(urls[i][|KeggGet|..], "+") == batches[i])
            && Flatten(batches) == ids
  {
    var urls, batches := RequestUrls(ids), Chunks(ids, BatchSize);
    ChunksFlatten(ids, BatchSize);
    forall i | 0 <= i < |urls| ensures SplitOn(urls[i][|KeggGet|..], "+") == batches[i] {
      ChunkItemsFromIds(ids, BatchSize, i);
      forall j | 0 <= j < |batches[i]| ensures '+' !in batches[i][j] {
        assert batches[i][j] in batches[i];
        var k :| 0 <= k < |ids| && ids[k] == batches[i][j];
      }
      assert urls[i][|KeggGet|..] == Join("+", batches[i]);
      SplitOnJoin(batches[i], '+');
    }
  }

  /** Every item of a chunk is an item of the list. */
  lemma {:induction false} ChunkItemsFromIds<T>(l: seq<T>, n: nat, i: nat)
    requires n > 0 && i < |Chunks(l, n)|
    ensures forall x :: x in Chunks(l, n)[i] ==> x in l
    decreases |l|
  {
    if |l| > n && i > 0 {
      ChunkItemsFromIds(l[n..], n, i - 1);
    }
  }

  /** One request per ten ids, the last one taking the rest. */
  lemma {:induction false} RequestCount(ids: seq<string>)
    ensures |RequestUrls(ids)| == (|ids| + BatchSize - 1) / BatchSize
    decreases |ids|
  {
    if |ids| > BatchSize {
      RequestCount(ids[BatchSize..]);
    }
  }

  /** Up to ten ids go in a single request. */
  lemma SmallBatchIsOneRequest(ids: seq<string>)
    requires 0 < |ids| <= BatchSize
    ensures RequestUrls(ids) == [KeggGet + Join("+", ids)]
  {
  }

  /** The records of the downloaded responses, each response cut like a flat file. */
  function ResponseRecords(responses: seq<string>): (raws: seq<string>)
    ensures |responses| == 1 ==> raws == SplitRecords(responses[0])
    decreases |responses|
  {
    if responses == [] then [] else SplitRecords(responses[0]) + ResponseRecords(responses[1..])
  }

  /** The records of two runs of responses are those of the first run, then
      those of the second: with the one-response case this gives every
      response's records, in response order. */
  lemma {:induction false} ResponseRecordsAppend(a: seq<string>, b: seq<string>)
    ensures ResponseRecords(a + b) == ResponseRecords(a) + ResponseRecords(b)
    decreases |a|
  {
    if a == [] {
      assert a + b == b;
    } else {
      assert (a + b)[0] == a[0];
      assert (a + b)[1..] == a[1..] + b;
      ResponseRecordsAppend(a[1..], b);
    }
  }

  /** `get_from_kegg_api` once the responses are in: every record of every
      response, parsed, in order. */
  function FromResponses(parse: Parser, responses: seq<string>): (r: Result<seq<Record>, ParseError>)
    ensures r.Success? <==> AllParse(parse, ResponseRecords(responses))
    ensures r.Success? ==> r.value == ParseAll(parse, ResponseRecords(responses))
  {
    var raws := ResponseRecords(responses);
    CollectIsParseThenFilter(parse, raws, None);
    if Collect(parse, raws, None).Success? then FilterNoneKeepsAll(ParseAll(parse, raws)); Collect(parse, raws, None)
    else Collect(parse, raws, None)
  }

  // ---------------------------------------------------------------------------
  // The record map keyed by entry id

  /** The records keyed by their entry ids: a record without ENTRY
      is an error; a later record replaces an earlier one with the same entry. */
  function Registry(recs: seq<Record>): (r: Result<map<string, Record>, ParseError>)
    ensures r.Success? <==> AllEntered(recs)
    ensures r.Failure? ==> r.error == MissingEntry
    decreases |recs|
  {
    if recs == [] then Success(map[])
    else if EntryOf(recs[0]).None? then Failure(MissingEntry)
    else
      match Registry(recs[1..])
      case Failure(e) => Failure(e)
      case Success(m) => Success(map[EntryOf(recs[0]).value := recs[0]] + m)
  }

  /** Every record has an entry id. */
  predicate AllEntered(recs: seq<Record>) {
    forall i :: 0 <= i < |recs| ==> EntryOf(recs[i]).Some?
  }

  /** Each record with its entry id, in order. */
  function EntryPairs(recs: seq<Record>): (ps: seq<(string, Record)>)
    requires AllEntered(recs)
    ensures |ps| == |recs|
    ensures forall i :: 0 <= i < |recs| ==> ps[i] == (EntryOf(recs[i]).value, recs[i])
    decreases |recs|
  {
    if recs == [] then [] else [(EntryOf(recs[0]).value, recs[0])] + EntryPairs(recs[1..])
  }

  /** The map is built exactly when every record has an entry id, and it is
      the pairs read left to right. */
  lemma {:induction false} RegistryIsMapOf(recs: seq<Record>)
    ensures Registry(recs).Success? ==> Registry(recs).value == MapOf(EntryPairs(recs))
    decreases |recs|
  {
    if recs != [] {
      var rest := recs[1..];
      RegistryIsMapOf(rest);
      assert forall i :: 0 <= i < |rest| ==> rest[i] == recs[i + 1];
      if AllEntered(recs) {
        assert EntryPairs(recs)[1..] == EntryPairs(rest);
      }
      if EntryOf(recs[0]).Some? && AllEntered(rest) {
        forall i | 0 <= i < |recs| ensures EntryOf(recs[i]).Some? {
          if i > 0 {
            assert recs[i] == rest[i - 1];
          }
        }
      }
    }
  }

  /** The keys are the records' entry ids, and each key holds the last record
      with that entry id. */
  lemma RegistryLastRecordWins(recs: seq<Record>, i: nat)
    requires i < |recs|
    requires forall j :: i < j < |recs| ==> EntryOf(recs[j]) != EntryOf(recs[i])
    ensures Registry(recs).Success? ==>
              && Registry(recs).value.Keys == (set j | 0 <= j < |recs| && EntryOf(recs[j]).Some? :: EntryOf(recs[j]).value)
              && Registry(recs).value[EntryOf(recs[i]).value] == recs[i]
  {
    RegistryIsMapOf(recs);
    if Registry(recs).Success? {
      var ps := EntryPairs(recs);
      MapOfKeys(ps);
      LastPairWins(ps, i);
      var keys := set j | 0 <= j < |ps| :: ps[j].0;
      assert keys == set j | 0 <= j < |recs| && EntryOf(recs[j]).Some? :: EntryOf(recs[j]).value;
    }
  }

  /** `get_kegg_record_dict` with a records file: the records of the file,
      filtered by id, keyed by entry id. */
  function RecordMap(parse: Parser, text: string, ids: Option<set<string>>): (r: Result<map<string, Record>, ParseError>)
    ensures ids.Some? && r.Success? ==> r.value.Keys <= ids.value
  {
    match Collect(parse, SplitRecords(text), ids)
    case Failure(e) => Failure(e)
    case Success(recs) =>
      RegistryKeysWanted(recs, ids);
      Registry(recs)
  }

  /** `get_kegg_record_dict` without a records file: every downloaded record,
      keyed by entry id; it fails when a record fails to parse or has no ENTRY. */
  function ApiRecordMap(parse: Parser, responses: seq<string>): (r: Result<map<string, Record>, ParseError>)
    ensures r.Success? <==>
              AllParse(parse, ResponseRecords(responses)) && AllEntered(ParseAll(parse, ResponseRecords(responses)))
    ensures r.Success? ==> r.value == MapOf(EntryPairs(ParseAll(parse, ResponseRecords(responses))))
  {
    match FromResponses(parse, responses)
    case Failure(e) => Failure(e)
    case Success(recs) =>
      RegistryIsMapOf(recs);
      Registry(recs)
  }

  /** The keys of a map of wanted records are wanted ids. */
  lemma RegistryKeysWanted(recs: seq<Record>, ids: Option<set<string>>)
    requires forall i :: 0 <= i < |recs| ==> Wanted(recs[i], ids)
    ensures ids.Some? && Registry(recs).Success? ==> Registry(recs).value.Keys <= ids.value
  {
    RegistryIsMapOf(recs);
    if ids.Some? && Registry(recs).Success? {
      MapOfKeys(EntryPairs(recs));
    }
  }
}
