# log-analyzer core in Dafny

This project models the two halves of the log analyzer's pipeline.

- **The line parser** (`parseLog`). It turns one access-log line into a
  parsed entry, or into `null`. The model starts from the regular
  expression's match. It splits the request group on single spaces with
  JavaScript's `split` semantics, rejects the line unless there are exactly
  three pieces, and otherwise copies the capture groups into the entry.
- **The rolling summary** (`createLogAnalyzer`). It is a class that owns two
  tables from text to count: one per client address, one per endpoint.
  - `AddLog` raises one count in each table.
  - `GetSummary` reports the number of distinct client addresses, and the
    `limit` most frequent addresses and endpoints.

The ranking step is specified relationally by `Ranking.IsTopN`. It is
implemented by an in-place insertion sort on an array of entries, followed
by a prefix and a projection onto keys, and proved against that
specification.

Files:

- `wrappers.dfy`: `Option`.
- `js_text.dfy`: the ECMAScript character classes `\s`, `\S`, `\d` and `.`,
  plus `split` and `join` with a one-character separator.
- `parse_log.dfy`: the entry types, the match record, and `ParseLog`.
- `parse_log_examples.dfy`: the parser's unit-test scenarios.
- `ranking.dfy`: the specification of a top-N answer, and the sort that
  computes one.
- `summarize_logs.dfy`: the `LogAnalyzer` class and the frequency tables it
  maintains.
- `summarize_logs_examples.dfy`: the analyzer's unit-test scenarios.

How the regular expression is handled:

- A match is a `RegexMatch` record. It holds the nine capture groups, the
  whitespace runs between them, and the text before and after the match.
- `WellFormed` states the character class of each part.
- `Text` reassembles the line from the parts.
- `EngineResult(line, m)` says what the engine may return for `line`:
  - some well-formed match that spells out the line;
  - or nothing, when no well-formed match spells out the line.
- `EngineResult` is the precondition of `ParseLog`.

## Model

| member | source | states |
|---|---|---|
| JsText.Split | src/parseLog.ts:42 | `split(" ")` with a one-character separator: the maximal runs between separators, in order. Adjacent separators, or one at either end, give an empty piece, and there is always at least one piece. |
| JsText.SplitCount | src/parseLog.ts:42-43 | `split(" ")` gives exactly one piece more than there are separators. So "three pieces" means "exactly two spaces". |
| JsText.SplitPiecesFree | src/parseLog.ts:42 | No piece of a split contains the separator. |
| JsText.JoinSplit | src/parseLog.ts:42 | Joining the pieces of a split with the separator gives back the original text. |
| JsText.SplitJoin | src/parseLog.ts:42 | Splitting a join of separator-free pieces gives back exactly those pieces, in order. |
| LogParser.EngineResult | src/parseLog.ts:35 | What `log.match(logRegex)` may return: a well-formed match spelling out the line, or nothing when no match does. The engine's choice among several matches is not stated. |
| LogParser.ParseLog | src/parseLog.ts:34-69 | The result is an entry exactly when there is a match and its request group holds exactly two spaces; otherwise it is `None`. An entry copies groups 1, 3, 6, 7 and 9 unchanged and takes its date from group 4. Its three request parts are space-free and spell out group 5 when joined with single spaces. It is defined for every permitted input: a full entry or `None`, never a partial one. |
| LogParser.RequestPartsUnique | src/parseLog.ts:42-52 | Any cut of the request group into three space-free parts joined by single spaces is accepted, and is exactly the request the parser returns (method, endpoint, protocol, in that order). |
| LogParser.DoubleSpaceGivesEmptyEndpoint | src/parseLog.ts:42-52 | Two adjacent spaces yield an empty piece. A method and a protocol separated by two spaces are accepted, with `""` as the endpoint. |
| LogParser.RoleNeverDecides | src/parseLog.ts:60 | Replacing group 3 by any other `\S*` text leaves acceptance unchanged, and the new text becomes the role. |
| LogParser.ParsedFieldsKeepClasses | src/parseLog.ts:58-63 | The fields of a parsed entry keep the classes of their groups. The client address and role have no whitespace. The response code is a non-empty run of digits. The port is non-empty and has no whitespace. No request part contains `"`. |
| LogParser.BracketInMatch | src/parseLog.ts:22 | Every text the pattern can match contains `[`. |
| LogParserExamples.EmptyLineRejected | src/parseLog.test.ts:4-7 | The empty line has no match, so it gives `None`. |
| LogParserExamples.TestStringRejected | src/parseLog.test.ts:8-11 | "test string" has no match, so it gives `None`. |
| LogParserExamples.MissingMethodRejected | src/parseLog.test.ts:13-18 | A request group holding only `http://example.net/faq/ HTTP/1.1` splits into two pieces, so the matched line gives `None`. |
| LogParserExamples.SampleLineFields | src/parseLog.test.ts:19-38 | The sample line's match gives the full entry. Its address is `177.71.128.21`, role `-`, response `200`, port `3574`, and its user agent is that of the line. Its request is `GET` `/intranet-analytics/` `HTTP/1.1`, as lines 52-59 of the same file expect. |
| LogParserExamples.AdminRoleKept | src/parseLog.test.ts:61-66 | A line with role `admin` is accepted, and its role is `admin`. |
| LogParserExamples.QualifiedUriKept | src/parseLog.test.ts:68-73 | A fully qualified URI is accepted and kept verbatim as the endpoint. |
| Ranking.KeysOf | src/summarizeLogs.ts:54 | `.map(([key]) => key)`: same length, and position `i` holds the key of entry `i`. |
| Ranking.LeftOutNotHigher | src/summarizeLogs.ts:52-53 | In a correct top-N answer, no key left out has a higher count than any key listed. |
| Ranking.TopNUpToTies | src/summarizeLogs.ts:52-54 | Two correct answers for the same table and limit have the same length and the same count at every position. They can differ only among keys of equal count: in their order, and, when the limit falls inside a group of equal counts, in which keys of that count they list. |
| Ranking.TopNUnique | src/summarizeLogs.ts:52-54 | When no two keys share a count, the correct answer is unique. |
| Ranking.SortedPrefixIsTopN | src/summarizeLogs.ts:52-54 | The first `min(limit, size)` keys of any count-ordered enumeration of the table's entries form a correct answer. |
| Ranking.TableKeys | src/summarizeLogs.ts:51 | Produces every key of the table, exactly once. |
| Ranking.TableEntries | src/summarizeLogs.ts:51 | `Array.from(table.entries())`: a new array listing every entry of the table once. |
| Ranking.EnumeratesPermuted | src/summarizeLogs.ts:52 | Any reordering of an enumeration of the table's entries still enumerates them. |
| Ranking.SortByCount | src/summarizeLogs.ts:52 | Sorts the array in place by non-increasing count, and the result is a permutation of the old contents. |
| Ranking.TopByCount | src/summarizeLogs.ts:51-54 | The result is a correct top-`limit` answer for the table. It has `min(limit, size)` keys, distinct and all in the table, by non-increasing count, with no left-out key counting more. |
| LogSummary.CountOf | src/summarizeLogs.ts:25-28 | The `has`/`get` read with its default: a key's count, or 0 when the table has no entry for it. The same read is made at lines 31-34. |
| LogSummary.Frequencies | src/summarizeLogs.ts:24-36 | The table that repeated `addLog` calls build from a sequence of keys. Each key raises its own count by one, starting from 0 for a new one. The lemmas below state what it holds. |
| LogSummary.FrequenciesAddOne | src/summarizeLogs.ts:25-29 | After one more key, a text's count is the number of times it occurred before, plus one for the added key: the added key's count goes up by one and every other count is unchanged. |
| LogSummary.FrequenciesKeys | src/summarizeLogs.ts:62 | The keys of a frequency table are the distinct texts added. So the table's size is the number of distinct client addresses ever seen. |
| LogSummary.FrequenciesPositive | src/summarizeLogs.ts:29 | Every count in a table is at least 1. |
| LogSummary.FrequenciesCount | src/summarizeLogs.ts:24-36 | A key's count is the number of times that text was added (0 when never). |
| LogSummary.LogAnalyzer.constructor | src/summarizeLogs.ts:16-18 | `createLogAnalyzer()`: both tables are empty and nothing has been added. |
| LogSummary.LogAnalyzer.AddLog | src/summarizeLogs.ts:24-36 | The IP table changes only at the entry's client address: that count becomes its old value plus one, or 1. The URL table changes likewise at the entry's endpoint. Both tables remain the frequency tables of everything added. |
| LogSummary.LogAnalyzer.GetSummary | src/summarizeLogs.ts:50-65 | `uniqueVisitors` is the number of distinct client addresses ever added. Both lists are correct top-`limit` answers for their tables (`IsTopN`). The default limit is 3. The method has no `modifies` clause, so it changes nothing. |
| LogSummaryExamples.EmptyOnCreation | src/summarizeLogs.test.ts:6-12 | A new analyzer's summary is `0`, `[]`, `[]`. |
| LogSummaryExamples.OneEntry | src/summarizeLogs.test.ts:14-38 | After one entry: one visitor, with its address and endpoint as the lists. |
| LogSummaryExamples.SameClientTwice | src/summarizeLogs.test.ts:40-65 | The same entry twice still counts as one visitor. |
| LogSummaryExamples.TwoClients | src/summarizeLogs.test.ts:67-80 | Two clients with one entry each: two visitors, both listed, in either order. |
| LogSummaryExamples.OrderedByVisits | src/summarizeLogs.test.ts:82-93 | The client with two entries is listed before the one with a single entry. |
| LogSummaryExamples.LimitOne | src/summarizeLogs.test.ts:95-106 | With limit 1, only the most frequent client is listed. |
| LogSummaryExamples.SameEndpointTwice | src/summarizeLogs.test.ts:108-124 | Two hits on the same endpoint list it once. |
| LogSummaryExamples.EndpointsByHits | src/summarizeLogs.test.ts:126-155 | The endpoint with two hits is listed before the one with a single hit. |
| LogSummaryExamples.AddClientEntries | src/summarizeLogs.test.ts:160-164 | After two entries from one client and three from another, the tables hold exactly those counts, and one endpoint with 5 hits. |
| LogSummaryExamples.AddEndpointEntries | src/summarizeLogs.test.ts:166-185 | The last three entries of that test bring the tables to 5/2/1 addresses and 6/2 endpoint hits. |
| LogSummaryExamples.VisitorsAndEndpoints | src/summarizeLogs.test.ts:157-198 | Three visitors, with addresses ordered 5, 2, 1 and endpoints ordered 6, 2, as the test expects. |

## Left out

- The regular-expression engine (src/parseLog.ts:22). Its backtracking is not reimplemented.
  - A match is an input that `EngineResult` relates to the line.
  - Among several possible matches, the model does not determine which one the engine picks (leftmost, then greedy priority).
- LogParser.ParseLog: the timestamp is kept as an opaque `MomentDate` holding group 4's text. `moment` and its time-zone arithmetic are foreign code.
  - The code never rejects a line for an invalid timestamp (non-strict `moment` makes an Invalid Date), so neither does the model.
  - The date test (src/parseLog.test.ts:40-50) checks `moment`'s behaviour and is not stated.
- The parser's test scenarios are stated over the match the engine returns for each test line (the leftmost, greedy one), taken as given. Each line has other decompositions, for example one that moves the first character of the client address into the text before the match; the model does not derive which one the engine picks. The full line text is not spelled out character by character.
- The casts to `HttpMethod` and `HttpStatusCode` (src/parseLog.ts:49, 61) have no run-time effect. `parseLog.types` is not part of this model.
- The request field `method` is named `httpMethod`, because `method` is a Dafny keyword.
- Ranking.TableKeys: it does not reproduce a JavaScript `Map`'s insertion order, because the table is a Dafny `map`, which has no order. As a result, for keys of equal count both their order and, when the limit cuts through such a group, which of them are listed, are left open (the source's stable sort over insertion order would list the earlier-added ones). The tests leave the order open by sorting first and never cut through a tie.
- LogSummary.LogAnalyzer.GetSummary: the limit is a `nat`. A negative limit, for which `slice(0, -k)` drops elements from the end, is not modelled.
- Strings are sequences of Unicode scalar values. JavaScript strings, and regular expressions without the `u` flag, work on UTF-16 code units, so a lone surrogate cannot be represented. No character class or count the parser uses depends on this.
- Counts are unbounded integers. JavaScript number precision above 2^53 is not modelled.
- One detail of the sort is not modelled. `Array.prototype.sort` is stable and compares by `b[1] - a[1]`. The model's insertion sort is also stable, but the answer is specified only up to ties, as above.
- The analyzer's test scenarios are stated for any entry and for any addresses and endpoints that are distinct where the tests' are. They are not restricted to the tests' literal values.
- src/parseFile.ts (file streaming, the async loop, error handling, console output) and src/index.ts (command-line wiring) are I/O and are not part of this model.
