# ConnectionMonitor in Dafny

ConnectionMonitor is a console tool. It runs `netstat -n` and takes the remote address
of every ESTABLISHED connection from the table. It skips loopback and gateway addresses
and asks a geolocation service about each remaining address. It then prints each answer
as a ten-line record. After a pass it waits for a key and starts over. When the table
holds no connection it says so and ends.

This project models that pipeline and proves properties of it:

- **`Text`**: `String.Split` on one character (`Split`, with its inverse `Join`) and
  ordinal `String.Contains`.
- **`DottedQuad`**: the address pattern `\d+\.\d+\.\d+\.\d+` and the way `Regex.Matches`
  scans a line for it.
  - At each position the engine takes the longest dotted quad (`MatchAt`: maximal digit
    run, '.', maximal digit run, '.', maximal digit run, '.', maximal digit run).
  - The scan goes left to right and resumes after each match (`MatchSpans`, `Matches`).
  - A proof ties `MatchAt` to the pattern's meaning (`IsDottedQuad`, defined by cutting
    the text at '.'). Every match is a dotted quad, and every dotted quad at a position
    is found there, the longest one winning.
- **`Extractor`**: the text-processing part of `GetActiveConnections`. It is a pure
  specification (`Extract`) plus the imperative loop (`GetActiveConnections`), proved
  equal to it. A line is cut at '\n' only, so a '\r' left at the end of a line stays
  there, as in the program.
- **`Filter`**: the filter list, `IsInvalidIp`, and the two filter decisions of `Main`:
  - before a lookup, on the extracted address (`Candidates`);
  - after it, on the answer's "ip" field (`KeepRecord`).
- **`IpInfo`** and **`Display`**: the lookup answer as a map from field names to text, and
  `DisplayIpInfo` as the ten lines it prints (`Render`).
- **`Monitor`**: one pass of `Main`'s loop.
  - The `foreach` with its three `continue`s is the method `ShowConnections`, proved
    against the function `Report`.
  - The whole pass is `RunCycle`, proved against `Cycle`. Its `Outcome` says whether
    `Main` returns or waits for a key.
  - The lookup service is a function supplied by the caller. Its answers are `Found`,
    `NotFound` and `Failed`.
- **`Sample`**: the three-row example table. It has one public peer, the gateway and
  the loopback. It is followed from the captured text through extraction, filtering
  and the lookups to the printed pass.

## Model

| member | source | states |
|---|---|---|
| Text.Contains | ConnectionMonitor/Program.cs:78 | Ordinal, case-sensitive substring test. Its meaning for the extraction is stated by Text.ContainsPiece and Extractor.UnmarkedLinesContributeNothing. |
| Text.Split | ConnectionMonitor/Program.cs:75 | Cutting at a character gives at least one piece, and no piece contains that character. |
| Text.JoinSplit | ConnectionMonitor/Program.cs:75 | Joining the pieces with the separator gives back the text: splitting loses and invents nothing. |
| Text.SplitJoin | ConnectionMonitor/Program.cs:75 | Pieces without the separator, joined with it, split back into exactly those pieces. |
| Text.SplitWithoutSeparator | ConnectionMonitor/Program.cs:75 | A text without the separator is a single piece. |
| Text.SplitAtFirstSeparator | ConnectionMonitor/Program.cs:75 | The first piece ends at the first separator; the rest is the split of what follows it. |
| Text.ContainsPiece | ConnectionMonitor/Program.cs:75-78 | When a line of the output contains a word, so does the whole output. |
| DottedQuad.RunEnd | ConnectionMonitor/Program.cs:17 | The greedy `\d+` run from a position stays inside the line and ends at a non-digit or at the end of the line. |
| DottedQuad.RunEndDigits | ConnectionMonitor/Program.cs:17 | The greedy `\d+` run consists of digits only. |
| DottedQuad.RunEndStopsAt | ConnectionMonitor/Program.cs:17 | The greedy `\d+` run ends exactly at the first non-digit or at the end of the line. |
| DottedQuad.MatchAt | ConnectionMonitor/Program.cs:17 | The engine's attempt at one position: a match found there is non-empty and lies inside the line. Its meaning is stated by DottedQuad.MatchAtSound, DottedQuad.MatchAtLongest and DottedQuad.MatchAtExact. |
| DottedQuad.MatchAtSound | ConnectionMonitor/Program.cs:17 | What the engine matches at a position is a dotted quad, and the digits do not continue past it. |
| DottedQuad.MatchAtLongest | ConnectionMonitor/Program.cs:17 | If a dotted quad starts at a position, the engine matches there, and its match is at least as long as that quad. |
| DottedQuad.MatchAtExact | ConnectionMonitor/Program.cs:17 | A dotted quad that the digits do not continue past is exactly the engine's match at its start. |
| DottedQuad.NoMatchAtMeansNoQuad | ConnectionMonitor/Program.cs:17 | Where the engine finds no match, no dotted quad starts. |
| DottedQuad.DottedQuadLength | ConnectionMonitor/Program.cs:17 | A dotted quad has at least seven characters. |
| DottedQuad.QuadOfGroups | ConnectionMonitor/Program.cs:17 | Four non-empty digit groups joined by '.' form a dotted quad. |
| DottedQuad.MatchSpans | ConnectionMonitor/Program.cs:80 | The scan's matches lie inside the line, from left to right, and never overlap. |
| DottedQuad.Matches | ConnectionMonitor/Program.cs:80 | The texts `Regex.Matches` returns for a line, in order. What they are is stated by DottedQuad.MatchesShape, DottedQuad.TwoMatches and DottedQuad.MatchesOfConnectionLine. |
| DottedQuad.MatchSpansHit | ConnectionMonitor/Program.cs:80 | Each match of the scan is what the engine matches at its start. |
| DottedQuad.MatchSpansFirst | ConnectionMonitor/Program.cs:80 | Nothing matches before the first match, and nothing anywhere when there is none (leftmost). |
| DottedQuad.MatchSpansGaps | ConnectionMonitor/Program.cs:80 | Nothing matches between two consecutive matches. |
| DottedQuad.MatchSpansLast | ConnectionMonitor/Program.cs:80 | Nothing matches after the last match. |
| DottedQuad.MatchSpansSkip | ConnectionMonitor/Program.cs:80 | The scan passes over a stretch without matches unchanged. |
| DottedQuad.NoMatchInStretch | ConnectionMonitor/Program.cs:17 | No match starts in a stretch without '.' that ends the line or ends in a non-digit. |
| DottedQuad.MatchesShape | ConnectionMonitor/Program.cs:17 | Every match in a line is a dotted quad followed by a non-digit or the end of the line. |
| DottedQuad.TwoMatches | ConnectionMonitor/Program.cs:80 | A line with exactly two match positions, and nothing matching before, between or after them, has exactly those two matches. |
| DottedQuad.MatchesOfConnectionLine | ConnectionMonitor/Program.cs:80-83 | A connection row (dot-free text, local quad, port and blanks, remote quad, port and state) has exactly the two addresses as matches, so ports never enter a match. |
| Extractor.Remote | ConnectionMonitor/Program.cs:78-84 | What one line contributes. Stated by Extractor.SecondMatchWins and Extractor.RowRemote. |
| Extractor.ExtractLines | ConnectionMonitor/Program.cs:76-86 | The remote addresses of the lines, in line order. Stated by Extractor.ExtractLinesAppend, Extractor.ExtractLinesLength and Extractor.ExtractLinesOrigin. |
| Extractor.Extract | ConnectionMonitor/Program.cs:75-86 | The remote addresses of a captured table. Stated by Extractor.NoEstablishedNoConnections, Extractor.ExtractedShape and Extractor.ThreeRows, and implemented by Extractor.GetActiveConnections. |
| Extractor.GetActiveConnections | ConnectionMonitor/Program.cs:58-90 | The loop over the lines returns exactly the extraction of the captured output; with no process it returns the empty list. |
| Extractor.ExtractLinesAppend | ConnectionMonitor/Program.cs:75-86 | Lines contribute independently and in order: the extraction of two runs of lines is the concatenation of their extractions. |
| Extractor.SecondMatchWins | ConnectionMonitor/Program.cs:78-84 | A line contributes exactly its second match when it contains ESTABLISHED and has two or more matches. Otherwise, including with one or no match, it contributes nothing. |
| Extractor.ExtractLinesLength | ConnectionMonitor/Program.cs:76-84 | There are no more addresses than lines. |
| Extractor.UnmarkedLinesContributeNothing | ConnectionMonitor/Program.cs:76-78 | Lines without ESTABLISHED yield no address. |
| Extractor.NoEstablishedNoConnections | ConnectionMonitor/Program.cs:75-78 | An output without ESTABLISHED anywhere yields the empty list. |
| Extractor.ExtractLinesOrigin | ConnectionMonitor/Program.cs:83 | Every extracted address is what some line of the output contributes. |
| Extractor.ExtractedShape | ConnectionMonitor/Program.cs:9-17 | Every extracted address is a dotted quad of at least seven characters: never "" and never "::1". |
| Extractor.RowRemote | ConnectionMonitor/Program.cs:78-83 | An established row with dotted-quad addresses and numeric ports yields its remote address without the port. |
| Extractor.ThreeRows | ConnectionMonitor/Program.cs:75-86 | A table of three such rows, one per line, yields their three addresses in row order. |
| Filter.IsInvalidIp | ConnectionMonitor/Program.cs:53-56 | Exact membership in the filter list. Which extracted addresses it can hold is stated by Monitor.ExtractedFilteredIff. |
| Filter.Candidates | ConnectionMonitor/Program.cs:34-36 | No more addresses are looked up than there are connections. |
| Filter.CandidatesMembers | ConnectionMonitor/Program.cs:34-36 | An address is looked up exactly when it is among the connections and not in the filter list. |
| Filter.KeepRecord | ConnectionMonitor/Program.cs:41-42 | An answer is kept exactly when it has an "ip" field and that field is not in the filter list; a missing field reads as "", which is filtered. |
| Filter.CandidatesAppend | ConnectionMonitor/Program.cs:34-36 | Filtering keeps the order of the connections. |
| Filter.CandidatesIdempotent | ConnectionMonitor/Program.cs:34-36 | Filtering the candidates again changes nothing. |
| Filter.NoCandidatesIff | ConnectionMonitor/Program.cs:34-36 | Nothing is looked up exactly when every connection is in the filter list. |
| Filter.CandidatesKeepRepeats | ConnectionMonitor/Program.cs:34-36 | There is no deduplication: an unfiltered address is looked up as many times as it occurs, and a filtered one never. |
| IpInfo.Field | ConnectionMonitor/Program.cs:116-124 | The field's text, or the fallback when the answer has no such field. Stated for the printed record by Display.RenderReadBack and for the second check by Filter.KeepRecord. |
| Display.Render | ConnectionMonitor/Program.cs:112-136 | A record prints as exactly ten lines, and the last one is "-----". |
| Display.ValueAfterLabel | ConnectionMonitor/Program.cs:126-134 | The value can be read back after a label ending in its only ": ". |
| Display.RenderReadBack | ConnectionMonitor/Program.cs:116-134 | Line k of the printed record is the k-th caption ("IP: ", "  Country: ", "  Organization: ", "  Hostname: ", "  City: ", "  Region: ", "  Postal Code: ", "  Timezone: ", "  Location: ") followed by the k-th of ip, country, org, hostname, city, region, postal, timezone, loc, or "Unknown" when that field is absent. Reading the line back gives that value. |
| Display.RenderSameIff | ConnectionMonitor/Program.cs:116-135 | Two answers print the same exactly when they agree on those nine fields, with "Unknown" for absent ones; other fields never show. |
| Monitor.ErrorLine | ConnectionMonitor/Program.cs:106 | The error line starts with "Error fetching data for IP " and the address, and ends with the exception's message. |
| Monitor.LookupLines | ConnectionMonitor/Program.cs:38-44 | A lookup prints nothing exactly when the status was not a success, or the answer's "ip" field is absent or in the filter list. A failed lookup prints one line, the error line naming the address. A kept answer prints ten lines: the first is "IP: " and its own address, the last is "-----". |
| Monitor.Report | ConnectionMonitor/Program.cs:34-45 | The lines the foreach prints, connection by connection. Stated by Monitor.ReportAppend, Monitor.ReportOfCandidates, Monitor.FailureDoesNotStop, Monitor.SilentAnswerLeavesNoTrace and Monitor.KeptAnswerInsertsRecord. |
| Monitor.ShowConnections | ConnectionMonitor/Program.cs:34-45 | The foreach looks up exactly the candidates, in order, and prints exactly the report of the connections. |
| Monitor.Cycle | ConnectionMonitor/Program.cs:21-49 | A pass ends the program exactly when there are no connections. Otherwise it looks up exactly the candidates. |
| Monitor.RunCycle | ConnectionMonitor/Program.cs:23-48 | One iteration of Main's loop yields the pass above. Main returns only on an empty connection list. |
| Monitor.ReportAppend | ConnectionMonitor/Program.cs:34-45 | The report is built connection by connection, in order. |
| Monitor.ReportOfCandidates | ConnectionMonitor/Program.cs:36 | Filtered connections leave no trace: the report of the candidates is the report of all connections. |
| Monitor.FailureDoesNotStop | ConnectionMonitor/Program.cs:104-109 | A failed lookup adds its error line, and the connections after it are still looked up and printed. |
| Monitor.SilentAnswerLeavesNoTrace | ConnectionMonitor/Program.cs:38-42 | A non-success answer, or a record the second check drops, prints nothing, and the connections around it are reported as if it were absent. |
| Monitor.KeptAnswerInsertsRecord | ConnectionMonitor/Program.cs:41-44 | A kept answer puts its ten-line record between the reports of the connections before and after it. |
| Monitor.SingleCandidateReport | ConnectionMonitor/Program.cs:34-45 | When exactly one connection survives the filter, the report is what that one lookup prints. |
| Monitor.OnlyFilteredStillRefreshes | ConnectionMonitor/Program.cs:26-48 | When every connection is filtered, nothing is looked up, and the pass still waits for a key instead of ending. |
| Monitor.ExtractedFilteredIff | ConnectionMonitor/Program.cs:9-17 | An extracted address is filtered exactly when it is 127.0.0.1 or 192.168.1.1. |
| Monitor.NoEstablishedExits | ConnectionMonitor/Program.cs:26-29 | Output without ESTABLISHED prints the fetching line and "No active connections found.", then ends the program. |
| Sample.SampleQuads | ConnectionMonitor/Program.cs:17 | 93.184.216.34, 192.168.1.1 and 127.0.0.1 are dotted quads. |
| Sample.SampleRow | ConnectionMonitor/Program.cs:75-83 | A sample row is one line and yields its remote address. |
| Sample.TableOfThree | ConnectionMonitor/Program.cs:75-86 | Three established rows yield their remote addresses in row order, whatever the local address and ports. |
| Sample.SampleCycle | ConnectionMonitor/Program.cs:26-47 | Extracting 93.184.216.34, 192.168.1.1 and 127.0.0.1 leads to a pass that looks up only 93.184.216.34, prints the header, that lookup's lines and the prompt, and waits for a key. |
| Sample.SampleTable | ConnectionMonitor/Program.cs:75-86 | The three-row example table yields 93.184.216.34, 192.168.1.1 and 127.0.0.1 in that order. Only 93.184.216.34 is looked up, and the pass prints only that lookup's lines between the header and the prompt. |

## Left out

- Starting `netstat -n` and reading its output (Program.cs:62-73) is operating-system I/O.
  The captured output is a parameter. It is `None` when `Process.Start` gives no process,
  and then the list is empty.
- The geolocation request, its HTTP status and `JObject.Parse` (Program.cs:92-110) are
  network and library calls. The caller supplies the lookup as a function from address to
  `Found(record)`, `NotFound` (non-success status) or `Failed(message)` (any exception,
  including a body that does not parse). The same address therefore gets the same answer
  within a pass.
- `Console.Clear`, `Console.ReadLine` and the endless `while (true)` (Program.cs:21-49)
  are interaction.
  - One pass is modelled. Its `Outcome` tells whether `Main` returns or waits for a key
    and runs another pass.
  - Printed text is a sequence of lines.
- async/await is left out: the program awaits every call before going on, so a pass is
  sequential.
- `\d` is read as the ASCII digits '0' to '9'. .NET also accepts other Unicode decimal
  digits here.
- JSON values that are not strings are treated as their text. How `JToken.ToString()`
  renders numbers, objects or JSON null is library behaviour.
- The null check at the top of `DisplayIpInfo` (Program.cs:114) cannot fire, because the
  caller already skips a null answer. It is not modelled.
- Display.Render: its own contract states only the ten-line layout and the closing
  separator. The caption and the value of each of the nine field lines are stated by
  Display.RenderReadBack.
