# KEGG flat-file record parser, modelled in Dafny

This project models the record parser of microMetabPred (`microMetabPred/parse_KEGG.py`).
The parser reads KEGG flat-file records: KO (orthology), REACTION, COMPOUND, PATHWAY and GENES (organism) entries.
It turns each record into a dictionary from field name to value.
It also models how records are gathered: cut out of a flat file, filtered by entry id, requested from the KEGG REST API ten ids at a time, and keyed by ENTRY.

Modules, lowest first:

- `Results` (results.dfy): `Option` and `Result`.
- `Text` (text.dfy): the Python string operations the parser uses, on ASCII: `strip`, `split()`, `split(sep)`, `sep.join`, `s[:n]`, `s[n:]`, `upper`.
- `Tokenizer` (tokenizer.dfy): the line layout.
  - A record is stripped and cut at newlines.
  - Columns 0-11 of a line hold the field name and the rest holds the body; each is stripped.
  - A line with a blank name column continues the field above it.
  - `Resolve` carries the name forward, as the `past_entry` variable does. `HeaderAbove` is an independent reference that looks back for the nearest named line.
- `Fields` (fields.dfy): the field values a record can hold, the typed parse errors, and the fifteen field rules.
  - Every arm of every parser's if-chain is one of the rules.
  - `Absorb` is what one line does to its field. `AbsorbAll` is what all of a field's lines do.
- `FieldLaws` (field_laws.dfy):
  - For each rule, a closed form of the field after all of its lines (`FieldOfLines`), and the lemma that the line-by-line fold equals it.
  - Laws of the rules: overwriting, appending, keeping the first line, round trips of the pieces.
- `Interpreter` (interpreter.dfy): the loop every parser runs.
  - It runs over the named lines with a dispatch table from field name to rule.
  - Fields do not interfere with each other (`RunIsFieldwise`).
- `Parsers` (parsers.dfy): the five dispatch tables, written arm by arm in source order, and the five parsers built on them.
- `Batches` (batches.dfy):
  - Splitting a flat file on `///`.
  - Filtering by entry id.
  - Chunking ids into batches of ten and forming the request URLs.
  - Parsing API responses.
  - The dictionary keyed by ENTRY.

## Behaviour of the code as written that the model keeps

- In the REACTION parser, the `EQUATION` arm also names `DEFINITION`, but the earlier verbatim arm already takes `DEFINITION`. Only `EQUATION` is ever split as an equation (`Parsers.OnlyEquationIsEquation`).
- In the COMPOUND parser, `SEQUENCE` is listed among the ignored protein fields, but the earlier token arm already takes it. `SEQUENCE` tokens are therefore collected.
- DBLINKS-style fields behave differently by parser:
  - In the KO parser, every "KEY: ids" line of `DBLINKS` and `GENES` is recorded (rule `SubKeyEach`).
  - In the other four parsers, the assignment sits inside the `if name not in dict` block. Only the first line of such a field is recorded; later lines are split but never stored, and cannot fail (rule `SubKeyFirst`, `FieldLaws.SubKeyFirstKeepsFirst`).
- A record whose first line has a blank name column always fails:
  - KO, REACTION and COMPOUND reach the final `raise` with a `None` name.
  - PATHWAY and ORGANISM call `.upper()` on `None`.
  - Both are modelled as the error `NoFieldName`.

## Model

| member | source | states |
|---|---|---|
| Text.Take | microMetabPred/parse_KEGG.py:9 | `s[:n]` is a prefix of s of length n, or all of s when s is shorter |
| Text.Drop | microMetabPred/parse_KEGG.py:12 | `s[n:]` is what follows `s[:n]` in s |
| Text.SplitWs | microMetabPred/parse_KEGG.py:21 | every token of `split()` is non-empty and holds no whitespace |
| Text.SplitOn | microMetabPred/parse_KEGG.py:17 | `split(sep)` gives at least one piece; the first piece is a prefix of s, and is empty only when s is empty or starts with sep |
| Text.FirstPieceLeftmost | microMetabPred/parse_KEGG.py:17 | the first piece of `split(sep)` runs up to the leftmost occurrence of sep: no occurrence of sep starts inside it |
| Text.Strip | microMetabPred/parse_KEGG.py:8 | the stripped text starts and ends with a non-space character, and is empty exactly when the input is all whitespace |
| Text.StripRemovesOnlyOuterSpace | microMetabPred/parse_KEGG.py:9-12 | stripping removes only whitespace: the result is a contiguous slice of the input with whitespace only on both sides |
| Text.SplitWsJoin | microMetabPred/parse_KEGG.py:21-23 | joining non-empty whitespace-free tokens with single spaces and splitting on whitespace gives the tokens back |
| Text.JoinSplitOn | microMetabPred/parse_KEGG.py:17 | joining the pieces of `s.split(sep)` with sep gives s back |
| Text.SplitOnPiecesFree | microMetabPred/parse_KEGG.py:229 | no piece of `s.split(sep)` contains sep |
| Text.SplitOnLeftmost | microMetabPred/parse_KEGG.py:229 | every piece of `split(sep)` but the last ends at the leftmost occurrence of sep after its start, also for a separator that overlaps itself such as "///" |
| Text.SplitOnUnique | microMetabPred/parse_KEGG.py:229 | any pieces that re-join to s, whose last piece holds no sep and whose other pieces each end at the leftmost sep, are exactly `s.split(sep)` |
| Text.SplitOnJoin | microMetabPred/parse_KEGG.py:255 | splitting the '+'-join of pieces that hold no '+' gives the pieces back |
| Text.NotUpperIffHasLower | microMetabPred/parse_KEGG.py:170 | a name differs from its upper-case form exactly when it holds a lower-case ASCII letter |
| Tokenizer.LinesRoundTrip | microMetabPred/parse_KEGG.py:8 | cutting the stripped record at newlines loses nothing (re-joining gives it back) and leaves no newline inside a line |
| Tokenizer.NameOf | microMetabPred/parse_KEGG.py:9 | the field name has at most twelve characters, and is blank exactly when the first twelve characters of the line are all whitespace |
| Tokenizer.BodyOf | microMetabPred/parse_KEGG.py:12 | a line of at most twelve characters has an empty body, and a body is never longer than the part of the line after column twelve |
| Tokenizer.Resolve | microMetabPred/parse_KEGG.py:7-11 | one logical line per line; which name each line gets is stated by ResolveFindsHeaderAbove and ResolveShift |
| Tokenizer.ResolveFindsHeaderAbove | microMetabPred/parse_KEGG.py:7-11 | carrying `past_entry` forward gives each line the name of the nearest line at or above it whose name column is not blank, or None when there is none |
| Tokenizer.ResolveShift | microMetabPred/parse_KEGG.py:7-11 | the same from any starting name: a line with no named line above it takes the name carried in |
| Tokenizer.ResolveKeepsBodies | microMetabPred/parse_KEGG.py:12 | every line keeps its own body, whatever name it gets |
| Tokenizer.NoHeaderAboveIffBlank | microMetabPred/parse_KEGG.py:9-11 | a line has no field name exactly when every name column up to it is blank |
| Tokenizer.HeaderAboveIsSomeName | microMetabPred/parse_KEGG.py:9-11 | a field name is never blank and is the name column of some line at or above it |
| Tokenizer.NamedIffFirstNamed | microMetabPred/parse_KEGG.py:9-11 | every line has a field name exactly when the first line's name column is not blank |
| Tokenizer.BodiesOfSelects | microMetabPred/parse_KEGG.py:8-43 | a field's bodies are bodies of lines carrying that field's name; when all lines carry it there is one body per line, and none when no line carries it |
| Tokenizer.BodiesOfAppend | microMetabPred/parse_KEGG.py:8-43 | a field's bodies keep the order of its lines: selecting from two stretches of lines gives the first stretch's bodies followed by the second's |
| Tokenizer.BodiesOfEmptyIff | microMetabPred/parse_KEGG.py:8-43 | a field has no bodies exactly when no line carries its name |
| Fields.AbsorbKeepsShape | microMetabPred/parse_KEGG.py:13-42 | one accepted line leaves the field holding the kind of value its rule stores, and never removes a present field |
| Fields.Absorb | microMetabPred/parse_KEGG.py:13-42 | one line's arm: an error always names the line's field (EmptyBody, NoSubKey, BadEquation or UnknownField); when a line fails is stated by FieldLaws.AbsorbFailsIff |
| Fields.AbsorbAll | microMetabPred/parse_KEGG.py:8-43 | after all of a field's lines the field still holds its rule's kind of value |
| FieldLaws.IdAndRestKeepsTokens | microMetabPred/parse_KEGG.py:21-23 | the (id, description) pair keeps every token of the body: the id followed by the description's tokens is the body's tokens |
| FieldLaws.EquationSidesRoundTrip | microMetabPred/parse_KEGG.py:62-66 | an equation's two sides re-join around " <=> " to the body, and each side's compounds re-join with " + " to the stripped side |
| FieldLaws.ClassCodesDropOnlyTheSixthChar | microMetabPred/parse_KEGG.py:150 | a PATHWAY CLASS body gives one pair per "; "-item; each pair is the item with only its sixth character removed, or (item, "") for items of at most five characters |
| FieldLaws.SubKeyMapOfKeys | microMetabPred/parse_KEGG.py:35-38 | the KEY map has exactly the KEYs of the field's lines |
| FieldLaws.LaterSubKeyLineWins | microMetabPred/parse_KEGG.py:35-38 | a KEY maps to the ids of the last line with that KEY |
| FieldLaws.AccumulatingRulesOnlyExtend | microMetabPred/parse_KEGG.py:20-38 | the appending rules only extend the value a field had, and the rule that keeps the first KEY line leaves an existing value unchanged |
| FieldLaws.UnknownFailsAtOnce | microMetabPred/parse_KEGG.py:41-42 | a field the parser does not know fails at its first line with UnknownField |
| FieldLaws.AbsorbFailsIff | microMetabPred/parse_KEGG.py:13-42 | one line fails exactly when its rule cannot read the body (no first token, no ": ", not exactly one " <=> ", unknown field), except that an existing first-KEY field ignores the line; the error is the one that rule raises |
| FieldLaws.OverwriteForgets | microMetabPred/parse_KEGG.py:55-66 | an overwriting rule's result does not depend on the value the field had |
| FieldLaws.OverwriteLastLineWins | microMetabPred/parse_KEGG.py:192-196 | an overwriting field (such as the organism ORTHOLOGY pair) holds what its last line makes of it, unless some line is rejected, in which case that rule's error is raised |
| FieldLaws.AbsorbPresence | microMetabPred/parse_KEGG.py:32-40 | after an accepted line the field is present exactly when its rule stores a value, so ignored fields stay absent |
| FieldLaws.AbsorbAllPresence | microMetabPred/parse_KEGG.py:32-40 | after all of its lines a field is present exactly when its rule stores a value and it was present or had a line |
| FieldLaws.TokenConcatCollects | microMetabPred/parse_KEGG.py:104-108 | a token-list field holds the whitespace tokens of all of its lines, in order, after those it had |
| FieldLaws.SpaceJoinedCollects | microMetabPred/parse_KEGG.py:97-101 | a COMPOUND NAME field holds all of its lines joined by single spaces |
| FieldLaws.PairAppendCollects | microMetabPred/parse_KEGG.py:20-26 | a pair-list field holds one (id, description) pair per line, in order; a line without a token fails with EmptyBody |
| FieldLaws.LineAppendCollects | microMetabPred/parse_KEGG.py:27-31 | a CLASS line list holds every line verbatim, in order |
| FieldLaws.SubKeyEachCollects | microMetabPred/parse_KEGG.py:34-38 | a KO DBLINKS/GENES field is the map of every line's KEY to its ids, later lines winning; a line without ": " fails with NoSubKey |
| FieldLaws.SubKeyFirstKeepsFirst | microMetabPred/parse_KEGG.py:74-78 | once a first-KEY field exists, later lines leave it unchanged and cannot fail |
| FieldLaws.IgnoredStaysAbsent | microMetabPred/parse_KEGG.py:39-40 | an ignored field never appears, whatever its lines |
| FieldLaws.AbsorbAllIsFieldOfLines | microMetabPred/parse_KEGG.py:8-43 | folding a field's lines one at a time equals the rule's closed form over all of the field's lines |
| Interpreter.Step | microMetabPred/parse_KEGG.py:9-43 | a line without a field name fails with NoFieldName and only then; otherwise the line's field gets what its rule makes of it, every other field is unchanged, and an error comes from the rule that raises it |
| Interpreter.Run | microMetabPred/parse_KEGG.py:8-44 | a run keeps every field in its rule's kind of value, never loses a field, and every error is explained by the dispatch table |
| Interpreter.RunIsFieldwise | microMetabPred/parse_KEGG.py:8-44 | after a successful run each field holds what its own rule makes of its own lines alone |
| Interpreter.RunSucceeds | microMetabPred/parse_KEGG.py:8-44 | a run succeeds when every line is named and every field's rule accepts all of that field's lines |
| Interpreter.RunNeedsNames | microMetabPred/parse_KEGG.py:10-11 | a successful run met no unnamed line, and a run over named lines never fails with NoFieldName |
| Interpreter.RunSucceedsIff | microMetabPred/parse_KEGG.py:8-44 | from the empty record, a run succeeds exactly when every line is named and every field's rule accepts all of that field's lines |
| Interpreter.RunRejectsUnknown | microMetabPred/parse_KEGG.py:41-42 | a line naming a field the table does not know makes the run fail; when every earlier line is readable, the error is UnknownField naming that line's field |
| Interpreter.RunFailsAtARejectedLine | microMetabPred/parse_KEGG.py:8-44 | every failed run has a line that cannot be read, and the error is that line's: NoFieldName for a line before any name, otherwise its field rule's error naming the field |
| Interpreter.RunStopsAtFirstRejected | microMetabPred/parse_KEGG.py:8-44 | when every line before line i is readable, a line i without a name, or one whose rule rejects its body, decides the run's error |
| Parsers.Parse | microMetabPred/parse_KEGG.py:5-44 | a parsed record holds only fields its parser keeps, each with the kind of value its rule stores; every error is explained by the parser's if-chain |
| Parsers.ParseKo | microMetabPred/parse_KEGG.py:5-44 | parse_ko stores only ENTRY, NAME, DEFINITION, PATHWAY, MODULE, DISEASE, CLASS, DBLINKS and GENES |
| Parsers.ParseRn | microMetabPred/parse_KEGG.py:47-84 | parse_rn stores only its listed fields, and only EQUATION can raise the equation error |
| Parsers.ParseCo | microMetabPred/parse_KEGG.py:87-134 | parse_co stores only its listed fields |
| Parsers.ParsePathway | microMetabPred/parse_KEGG.py:137-175 | parse_pathway stores only its listed fields, and rejects only unknown names without lower-case letters |
| Parsers.ParseOrganism | microMetabPred/parse_KEGG.py:178-223 | parse_organism stores only its listed fields, and rejects only unknown names without lower-case letters |
| Parsers.KoRule | microMetabPred/parse_KEGG.py:14-42 | parse_ko's if-chain stores exactly the fields of KoFields and raises exactly on names neither stored nor in its skipped list |
| Parsers.ReactionRule | microMetabPred/parse_KEGG.py:55-82 | parse_rn's if-chain stores exactly its listed fields, raises exactly on names neither stored nor reference fields, and splits only EQUATION as an equation |
| Parsers.CompoundRule | microMetabPred/parse_KEGG.py:95-132 | parse_co's if-chain stores exactly its listed fields (SEQUENCE among them) and raises exactly on names neither stored nor skipped |
| Parsers.PathwayRule | microMetabPred/parse_KEGG.py:145-173 | parse_pathway's if-chain stores exactly its listed fields and raises exactly on names neither stored, skipped, nor holding a lower-case letter |
| Parsers.OrganismRule | microMetabPred/parse_KEGG.py:186-221 | parse_organism's if-chain stores exactly its listed fields and raises exactly on names neither stored, AASEQ/NTSEQ, nor holding a lower-case letter |
| Parsers.KeysWithin | microMetabPred/parse_KEGG.py:13-42 | a parser whose kept fields all lie in a set stores no key outside that set |
| Parsers.KoKeeps | microMetabPred/parse_KEGG.py:14-38 | parse_ko's if-chain stores values only under ENTRY, NAME, DEFINITION, PATHWAY, MODULE, DISEASE, CLASS, DBLINKS and GENES |
| Parsers.ReactionKeeps | microMetabPred/parse_KEGG.py:55-78 | parse_rn's if-chain stores values only under its listed fields |
| Parsers.CompoundKeeps | microMetabPred/parse_KEGG.py:95-127 | parse_co's if-chain stores values only under its listed fields |
| Parsers.PathwayKeeps | microMetabPred/parse_KEGG.py:145-167 | parse_pathway's if-chain stores values only under its listed fields |
| Parsers.OrganismKeeps | microMetabPred/parse_KEGG.py:186-214 | parse_organism's if-chain stores values only under its listed fields |
| Parsers.RejectsOnlyEquation | microMetabPred/parse_KEGG.py:61-64 | every equation error parse_rn can raise names EQUATION |
| Parsers.RejectsOnlyUpper | microMetabPred/parse_KEGG.py:218-221 | every unknown-field error of parse_pathway or parse_organism names a field without lower-case letters |
| Parsers.OnlyEquationIsEquation | microMetabPred/parse_KEGG.py:57-66 | in parse_rn the equation arm applies to EQUATION and to no other name; DEFINITION is taken by the verbatim arm first |
| Parsers.UnknownIsUpper | microMetabPred/parse_KEGG.py:170-173 | in parse_pathway and parse_organism an unknown name holds no lower-case letter (names with one are skipped) |
| Parsers.ParsedFieldFollowsItsLines | microMetabPred/parse_KEGG.py:8-43 | each field of a parsed record is its rule's closed form over the lines naming that field |
| Parsers.AllNamedIffFirstNamed | microMetabPred/parse_KEGG.py:9-11 | every logical line of a record is named exactly when the first line's name column is not blank |
| Parsers.ParseSucceedsIff | microMetabPred/parse_KEGG.py:8-44 | a record parses exactly when its first name column is not blank and every field's rule accepts all of that field's lines |
| Parsers.NoFieldNameIffBlankFirstColumn | microMetabPred/parse_KEGG.py:9-11 | the missing-name error is raised exactly for records whose first line has a blank name column, which are exactly the all-whitespace records |
| Tokenizer.FirstNameBlankIffAllSpace | microMetabPred/parse_KEGG.py:8-11 | the first line of the stripped record has a blank name column exactly when the whole record is whitespace |
| Parsers.KeysAreKeptNamedFields | microMetabPred/parse_KEGG.py:13-42 | a parsed record holds a field exactly when its parser keeps that field and some line names it |
| Parsers.UnknownFieldRejected | microMetabPred/parse_KEGG.py:41-42 | a record with a line naming a field its parser does not know fails; when every earlier line is readable, the error is UnknownField naming that field |
| Parsers.ParseFailsAtARejectedLine | microMetabPred/parse_KEGG.py:8-44 | a record that fails to parse has a line that cannot be read, and the error is that line's, naming its field |
| Parsers.EntryIsFirstToken | microMetabPred/parse_KEGG.py:14-15 | in a parsed record every ENTRY line has a token, ENTRY is present exactly when some line names it, and it holds the first token of the last ENTRY line |
| Batches.SplitRecords | microMetabPred/parse_KEGG.py:229 | a flat file gives one record fewer than its pieces around "///" |
| Batches.SplitRecordsRoundTrip | microMetabPred/parse_KEGG.py:229 | the records, each followed by "///", and then the dropped trailer give the file back; no record contains "///" |
| Batches.ShapedEntryIsText | microMetabPred/parse_KEGG.py:14-15 | in a parsed record the entry id is present exactly when ENTRY is |
| Batches.Collect | microMetabPred/parse_KEGG.py:227-236 | the collected records are at most one per raw record, and all are wanted by the id filter |
| Batches.CollectIsParseThenFilter | microMetabPred/parse_KEGG.py:229-235 | collecting succeeds exactly when every record parses and, when filtering, every record has an ENTRY; the result is then every parsed record that the filter wants, in order |
| Batches.FilterKeepsWanted | microMetabPred/parse_KEGG.py:231-233 | a record is kept exactly when it is among the parsed records and its ENTRY is a wanted id |
| Batches.FilterAppend | microMetabPred/parse_KEGG.py:229-235 | the filter keeps records in file order: filtering two runs of records gives the first run's kept records followed by the second's |
| Batches.FilterNoneKeepsAll | microMetabPred/parse_KEGG.py:234-235 | without an id list every parsed record is kept |
| Batches.Filter | microMetabPred/parse_KEGG.py:231-235 | the kept records are no more than the parsed ones and all are wanted; FilterKeepsWanted states the converse |
| Batches.FromFlatFile | microMetabPred/parse_KEGG.py:227-236 | the loop over the file's records computes the same result as the recursive definition |
| Batches.Chunks | microMetabPred/parse_KEGG.py:240-243 | every chunk has between 1 and n items, and every chunk but the last has exactly n |
| Batches.ChunksFlatten | microMetabPred/parse_KEGG.py:240-243 | the chunks, concatenated in order, give the list back |
| Batches.ChunkItemsFromIds | microMetabPred/parse_KEGG.py:242-243 | every item of a chunk is an item of the list |
| Batches.RequestUrls | microMetabPred/parse_KEGG.py:255 | every request URL starts with the KEGG REST `get/` address |
| Batches.RequestsRecoverIds | microMetabPred/parse_KEGG.py:255 | one URL per chunk of ten, each URL's suffix split at '+' is its chunk, and all chunks together are the ids in order |
| Batches.RequestCount | microMetabPred/parse_KEGG.py:255 | the number of requests is the number of ids divided by ten, rounded up |
| Batches.SmallBatchIsOneRequest | microMetabPred/parse_KEGG.py:255 | one to ten ids make a single request for all of them joined by '+' |
| Batches.ResponseRecords | microMetabPred/parse_KEGG.py:261 | a single response is cut into records like a flat file |
| Batches.ResponseRecordsAppend | microMetabPred/parse_KEGG.py:261 | the records of two runs of responses are the first run's records followed by the second's, so every response's records appear in response order |
| Batches.FromResponses | microMetabPred/parse_KEGG.py:264-266 | parsing the downloaded records succeeds exactly when every record parses, and gives each parsed record in order |
| Batches.Registry | microMetabPred/parse_KEGG.py:277 | the dictionary is built exactly when every record has an ENTRY, and otherwise fails with MissingEntry |
| Batches.RegistryIsMapOf | microMetabPred/parse_KEGG.py:277 | the dictionary is the (entry, record) pairs read left to right |
| Batches.RegistryLastRecordWins | microMetabPred/parse_KEGG.py:277 | the keys are the records' entry ids, and a key holds the last record with that entry id |
| Batches.RegistryKeysWanted | microMetabPred/parse_KEGG.py:273-277 | when records were filtered by id, every key of the dictionary is a wanted id |
| Batches.RecordMap | microMetabPred/parse_KEGG.py:270-277 | get_kegg_record_dict with a records file: every key is a wanted id |
| Batches.ApiRecordMap | microMetabPred/parse_KEGG.py:270-277 | get_kegg_record_dict from the API succeeds exactly when every downloaded record parses and has an ENTRY, and is then the map of the records by entry id |

## Left out

- Network access is not modelled: `download_coroutine`, `kegg_download_manager`'s session, asyncio, and the HTTP status check. `FromResponses` and `ApiRecordMap` take the response texts as a parameter.
- File reading is not modelled. `FromFlatFile` and `RecordMap` take the file's text.
- The `verbose` message print in `get_kegg_record_dict` is not modelled.
- Exception types and message text are not modelled. A `ValueError`, `KeyError`, `IndexError` or `AttributeError` is a `Failure`, and its `ParseError` names the field and the cause.
  - The unknown-field `raise` evaluates `dict['ENTRY']` first, so a record without an ENTRY line raises `KeyError` rather than `ValueError`. Both are the failure `UnknownField`.
- Only ASCII is modelled: `strip`, `split()` and `upper` use ASCII whitespace and ASCII letters.
- Python dictionaries keep insertion order. Dafny maps have no order, so field and key order is not modelled.
- The id collection passed to `get_kegg_record_dict` may be a set whose iteration order Python leaves open. `RequestUrls` takes the ids as a sequence in the order they are iterated.
- The test module's concrete fixture records are not restated as lemmas.
- Interpreter.Step: requires the record so far to hold the kind of value each field's rule stores. The source does not state this; it holds from the empty record on (`Interpreter.Run` keeps it).
- Interpreter.Run: requires the same invariant as `Interpreter.Step`.
- Batches.Chunks: requires n > 0. Python's `range` with step 0 raises; the source always passes 10.
- Batches.RequestsRecoverIds: requires that no id contains '+'. KEGG ids never do, and otherwise the URL cannot be split back into ids.
- Batches.EntryOf: reads ENTRY only when it holds text. Python would key a tuple ENTRY as it is, and would raise TypeError on a list or dict ENTRY (unhashable in the id lookup and in the dict comprehension); no parser stores anything but text under ENTRY (`Batches.ShapedEntryIsText`).
- Batches.RecordMap: states only that the keys are wanted ids; its parts are stated by `Batches.CollectIsParseThenFilter` and `Batches.RegistryLastRecordWins`.
- Interpreter.RunStopsAtFirstRejected: says nothing about a rejected line of a first-KEY field (rule `SubKeyFirst`), because such a line raises only while its field is still absent, which depends on the field's earlier lines. `Interpreter.RunFailsAtARejectedLine` still covers the error it raises.
