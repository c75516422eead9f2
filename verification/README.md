# Verified models of the measurement, generator and reference-ledger code

This project models the deterministic logic of the repository's evaluation tooling and proves what that logic is relied
on for. Every `.dfy` file is one module; `dafny verify dfyconfig.toml` checks them all.

| modules | what they model |
|---|---|
| `Json`, `SpineProbe` | requests serialized as JSON (RFC 8259, sections 4, 5 and 7, in Python's spelling) and the probe that decides from a common prefix whether a request was only appended to |
| `Census`, `CensusSummary`, `Attribution`, `Headers`, `Turns` | the census that attributes every character of a request to one category, its reconciliation gate, its calibrated token estimate, and what each category means in terms of the requests |
| `Names`, `Births`, `FlagReplay`, `FlagSeeds`, `FlagHistory` | the 50-turn feature-flag generator as a state machine whose random choices are nondeterministic, and its registry told from the list of operations alone |
| `Routing`, `RouterTable`, `RouterReplay`, `RouterSeeds`, `RouterRuns`, `RouterHistory` | the 50-turn route-table generator, the hop-bounded resolution it maintains, the verifier's normalization, and the table told from the list of operations alone |
| `Sections`, `SectionNames` | cutting a recorded slice at its header lines, which header names which region, and ablating one region |
| `LedgerKit`, `Money`, `Transfer`, `Logroll` | the reference programs of the hard scenarios: atomic batch with fee legs, money texts, transfers, log aggregation |
| `Dedupe` | the webhook deduper that forgets |
| `Receipts`, `Extraction`, `Claims` | lifecycle facts from sealed receipts, their merging, and the scoring of claims against them |
| `Retry` | done tasks, kept trials and retry rounds |
| `Bootstrap`, `PromptAb`, `Leaderboard` | paired bootstrap statistics, aggregation of cells, leaderboard and screening |
| `Options`, `Seqs`, `Text`, `Decimal`, `Sums` | optional values, lists without repeats, and the parts of Python's strings, numerals and dictionaries that the others use |

Code that updates state is a class or a method with loops, proved against a specification function or relation; code
that is made of expressions is a function. Text is a sequence of code points.

## Where the code does less than its documentation says

- An `append_gap` of at most 1 is documented to mean that the request was only appended to. That is false when the
  previous list ends in a bare nonzero number, and only then (`SpineProbe.AppendIntegrityExactly`); chat messages are
  objects, so the tool's own use is safe.
- "Keep the old path working" fails for paths that already use all five redirects, and only for them
  (`Routing.MoveKeepsMeaning`, `RouterTable.SixthMoveUnresolvesFirstName`).
  A run of the generator reaches that point by turn 24 (`RouterRuns.FirstNameStopsResolving`).
- `_norm` can change what a path resolves to when a dangling redirect hides it, and only then
  (`Routing.NormKeepsMeaningExactly`); with distinct paths it never does.
- Both `_norm` and the drop rule clean one layer of dangling redirects: when that is enough is stated exactly
  (`Routing.NormIsCleanExactly`, `RouterTable.DropDanglesExactly`).
- The deduper's promise depends on a clock that does not go back (`Dedupe.MissesExactly`, `Dedupe.ClockGoesBack`).
- `parse_amount` is documented for texts like `12.50`, but takes more than `Money.parse` does: `5.-1`, `5.`, `5.999`,
  `1_0`. What it takes, and where the two agree, is stated exactly (`Money.ParseAmountExactly`,
  `Money.ParsersAgreeExactly`).
- A claim that carries both a count and `all` can be called an overstatement although it claims fewer starts than there
  were (`Claims.OverstatementMeans`), and "all were started" can be supported by equal counts of different operations
  (`Claims.AllCanMislead`, `Claims.ChildrenCanMislead`); when scoring decides rightly is stated exactly
  (`Claims.SupportedMeans`).

## Model

| member | source | states |
|---|---|---|
| Json.ReadDumped | evals/spine_probe.py:46-52 | serialized JSON is self-delimiting: reading a dumped value with any text behind it (no digit behind a number) yields the value and exactly that text |
| Json.LoadsDumps | evals/spine_probe.py:46-52 | reading a dumped value gives it back, so two values with one serialization are equal |
| Json.DumpsIsShortest | evals/serializer_census.py:75-76 | no text that reads as a given string, number or literal is shorter than the one written, and one of the same length is the same text but for the case of hexadecimal digits |
| Json.NoCapitals | evals/serializer_census.py:75-76 | the text of a string has no capital letter that the string does not have, so hexadecimal digits are lower case |
| Json.PlainIsItself | evals/serializer_census.py:75-76 | a string without quotes, backslashes and control characters is written as itself between quotes, in whatever script (`ensure_ascii=False`) |
| Json.DumpFieldsConcat | evals/serializer_census.py:75-76 | the members of an object follow each other in order with `, ` between them |
| Json.DumpOneField | evals/serializer_census.py:75-76 | a member is its key's text, `: ` and its value's text |
| Text.Utf8WidthIsLeast | evals/serializer_census.py:83-84 | a character takes as many bytes as the shortest UTF-8 form that can hold it |
| SpineProbe.CommonPrefixLen | evals/spine_probe.py:63-72 | the binary search returns the length of the longest common prefix |
| SpineProbe.LcpIsLongest | evals/spine_probe.py:63-72 | that length is unique and is what comparing character by character counts |
| SpineProbe.AppendLosesOneCharacter | evals/spine_probe.py:129-141 | a proper append has gap exactly 1 (the closing bracket), an unchanged request gap 0 |
| SpineProbe.AppendIntegrity | evals/spine_probe.py:129-141 | for all message lists, gap at most 1 holds if and only if the first list is a prefix of the second, provided the first does not end in a nonzero bare number |
| SpineProbe.AppendIntegrityExactly | evals/spine_probe.py:129-141 | that proviso is exact: the verdict is right for every next request if and only if it holds |
| SpineProbe.GrownNumberLooksClean | evals/spine_probe.py:129-141 | the failing family: a last bare number n that becomes 10n is reported as a clean append |
| SpineProbe.PairRow | evals/spine_probe.py:131-141 | one row: true common prefix, next length, and on same-turn pairs only a gap, at most 1 if and only if the pair is a genuine append (unless the first list ends in a bare number) |
| SpineProbe.PairLoop | evals/spine_probe.py:129-141 | the pair loop reports every adjacent pair in order |
| SpineProbe.PairRows | evals/spine_probe.py:224-228 | the published clean count is the number of same-turn pairs the probe calls clean and, when every request ends in a message object, the number of genuine appends |
| SpineProbe.CleanPairsAreAppends | evals/spine_probe.py:224-228 | the pairs called clean are then exactly the genuine appends |
| SpineProbe.SameTurnMeans | evals/spine_probe.py:125-133 | a pair counts as same-turn unless its second call is the first call of a turn, calls being counted off turn by turn; calls beyond the report count as same-turn |
| Turns.ChangesAreOpenings | evals/serializer_census.py:219-233 | with turns numbered upwards a change of turn number marks exactly the first call of each turn that made calls |
| SpineProbe.Marks | evals/spine_probe.py:152-163 | the scan finds every header occurrence in order, with its name, and ends with the end mark |
| SpineProbe.Composition | evals/spine_probe.py:146-166 | the characters per region sum to the whole request |
| SpineProbe.RegionsTelescope | evals/spine_probe.py:164-166 | the spans between consecutive marks tile the request |
| SpineProbe.MarkNameReads | evals/spine_probe.py:159-161 | a region is named by its header's text up to a line break or ` (`, at most 36 characters of it |
| SpineProbe.CompositionCounts | evals/spine_probe.py:146-166 | under every name the composition holds exactly the number of characters that stand under a header of that name |
| Headers.HitsAreAll | evals/serializer_census.py:145-151 | jumping past each hit misses no header before the scan limit |
| Headers.HitsOrdered | evals/serializer_census.py:145-151 | the cuts ascend and stay inside the scanned text |
| Headers.HitsCount | evals/serializer_census.py:145-155 | cutting at the headers attributes every character to the last header at or above it |
| Census.CensusTap.Capture | evals/serializer_census.py:97-118 | a capture appends exactly the record of this request, serialized now, and leaves earlier records alone |
| Census.ScanHeaders | evals/serializer_census.py:145-151 | the loop collects exactly the headers before the scan limit |
| Census.ScanEndIsLast | evals/serializer_census.py:142-143 | scanning stops right behind the last context closer, so the request tail holds none; without a closer it goes to the end |
| Census.SeedParts | evals/serializer_census.py:140-158 | the loops build the pre-header span, one span per header, and the request tail |
| Census.SeedPartsCover | evals/serializer_census.py:140-158 | the seed parts cover the message's whole serialization once, in characters and in UTF-8 bytes |
| Census.MsgPartsCover | evals/serializer_census.py:171-198 | whatever the role and position, the parts of a message sum to its serialization, in characters and bytes |
| Census.DumpFieldsExtent | evals/serializer_census.py:75-76 | a member of an object takes up its key's text, its value's, two characters between them and two before the next member, in characters and in bytes |
| Census.ClaimLoop | evals/serializer_census.py:179-187 | the claim loop visits the three keys in order and its running totals are the sums of the claimed parts |
| Census.AssistantParts | evals/serializer_census.py:176-194 | the envelope is what the claims leave over, and the alarm is raised exactly when it is negative |
| Census.DecomposeCall | evals/serializer_census.py:161-201 | parts, whole, gap and alarm of a call |
| Census.ClaimsFit | evals/serializer_census.py:179-187 | values under three different keys of one object never take up more than the object's text |
| Census.Reconciles | evals/serializer_census.py:161-201 | for every message list and schema list the parts sum to the whole (gap 0), in characters and in bytes |
| Census.NoNegativeResidual | evals/serializer_census.py:188-193 | no captured call has a negative assistant envelope |
| CensusSummary.AddParts | evals/serializer_census.py:247-256 | the inner loop adds one call's parts to a table that already holds the earlier ones |
| CensusSummary.Summarize | evals/serializer_census.py:218-256 | totals, rollup and the three-way split are the tallies of all parts, and the run is invalid exactly if some call is |
| CensusSummary.TableConserves | evals/serializer_census.py:247-256 | however parts are grouped, the table's values sum to the parts' characters or bytes |
| CensusSummary.TableAt | evals/serializer_census.py:247-256 | a table has an entry for exactly the keys that occur, and it holds the characters or bytes of the parts under that key |
| CensusSummary.BucketsPartition | evals/serializer_census.py:232-234 | first, later and unmapped calls partition the characters |
| CensusSummary.BucketMeans | evals/serializer_census.py:219-234 | the buckets are the first call of every turn, its later calls, and the calls the report does not account for |
| Attribution.MessageShare | evals/serializer_census.py:171-198 | every captured message contributes to each category exactly what its role, place and keys say, told without the census's tables |
| Attribution.RequestBooked | evals/serializer_census.py:161-198 | a captured request contributes to each category its messages' shares, the schemas' text, or the list's own brackets and separators |
| Attribution.TotalsAttributed | evals/serializer_census.py:247-251 | the published totals per category are these contributions summed over the run, in characters and bytes |
| Attribution.RollupAttributed | evals/serializer_census.py:204-256 | the rollup and each bucket of the split hold the contributions to each coarse category, the split those of the requests of that bucket |
| Attribution.RegionNameReads | evals/serializer_census.py:129-137 | a region of the seed is named by its header up to a line break, an escape or ` (`, at most 36 characters of it, or is `_unnamed` |
| Attribution.SeedCounts | evals/serializer_census.py:140-158 | the seed's parts hold, under each name, exactly the characters that stand under a header of that name before the last context closer; what is behind it is the request |
| CensusSummary.AllPartsAreSent | evals/serializer_census.py:218-256 | the parts of captured calls add up to the serialized requests and schemas, in characters and UTF-8 bytes |
| CensusSummary.RoundsExactly | evals/serializer_census.py:272-273 | an estimate is the only integer within a half of the calibrated number that is even if it is exactly a half off |
| CensusSummary.CensusConserves | evals/serializer_census.py:218-256 | for captured calls the run is valid, categories, rollup and split each sum to the characters sent, and categories and rollup to the UTF-8 bytes sent |
| CensusSummary.EstimatesAdd | evals/serializer_census.py:266-273 | the summed estimate is within half a token per category of the calibrated total |
| CensusSummary.DriftBound | evals/serializer_census.py:266-277 | it differs from the provider's total by at most half the number of categories |
| CensusSummary.DriftAlarmSilent | evals/serializer_census.py:275-282 | from ten tokens per pair of categories on, the ten per cent alarm cannot fire |
| CensusSummary.DriftAlarmBelowTheBound | evals/serializer_census.py:275-282 | that size is sharp for two categories: at nine tokens, one below it, the bound is attained and the alarm fires |
| Names.RenamedName | benchmarks/multiturn_coding/_gen_long50.py:103-107 | renaming moves a name one step along its orbit: -v2, -next, -next-v2, ... |
| Names.FirstRenamings | benchmarks/multiturn_coding/_gen_long50.py:103-107 | from a clean name: -v2, then -next, then -next-v2, then -next-next |
| Names.StemOfName | benchmarks/multiturn_coding/_gen_long50.py:103-107 | the stem can be read off every name of its orbit |
| Names.NameInjective | benchmarks/multiturn_coding/_gen_long50.py:103-107 | orbits of different stems are disjoint and no orbit repeats a name |
| Names.RenamedStaysInFamily | benchmarks/multiturn_coding/_gen_long50.py:191-196 | renaming keeps the stem and strictly lengthens the name, so a target is fresh in its family |
| Sums.Pigeonhole | benchmarks/multiturn_coding/_gen_long50.py:68-69 | a set with distinct values in an interval is no larger than the interval |
| Births.FewYoung | benchmarks/multiturn_coding/_gen_long50.py:68-69 | with at most one birth per turn, all but age-1 names are at least `age` turns old |
| FlagReplay.NoEmptyChoice | benchmarks/multiturn_coding/_gen_long50.py:84-114 | in every reachable state, whatever kind is drawn, the list of flags to draw from is not empty |
| FlagReplay.NoEmptyTeams | benchmarks/multiturn_coding/_gen_long50.py:109-111 | nor is the list of teams |
| FlagReplay.RenameKeepsFamilies | benchmarks/multiturn_coding/_gen_long50.py:103-107 | a rename never overwrites a live or retired name and keeps all families apart |
| FlagReplay.StepKeepsInv | benchmarks/multiturn_coding/_gen_long50.py:84-118 | every choosable operation keeps the invariant: families apart, births of exactly the live names, sizes |
| FlagReplay.RunKeepsInv | benchmarks/multiturn_coding/_gen_long50.py:84-118 | so it holds in every state of every run |
| FlagReplay.HistoryIsKept | benchmarks/multiturn_coding/_gen_long50.py:114-117 | on every run a retired entry is never altered or removed |
| FlagReplay.StepKeepsHistory | benchmarks/multiturn_coding/_gen_long50.py:114-117 | one operation keeps all retired entries, and a retirement records the flag as it was |
| FlagReplay.AddsUseWords | benchmarks/multiturn_coding/_gen_long50.py:91-95 | each add uses up one seed word and nothing else does |
| FlagReplay.ReachableRegistries | benchmarks/multiturn_coding/_gen_long50.py:58-119 | on every run live and retired names are disjoint, births are recorded for exactly the live names, live plus retired is 3 plus the adds, and no live flag's next name is taken |
| FlagHistory.RunIsTold | benchmarks/multiturn_coding/_gen_long50.py:58-119 | on every run the registry is what the list of operations tells: which flags are live and which retired, and each one's default (its first, turned by every flip under whatever name), owner and birth turn |
| FlagHistory.RunsAreAllowed | benchmarks/multiturn_coding/_gen_long50.py:69-118 | the runs are exactly the lists of operations each of which obeys the rules of choice: words from the end, adds only in the first six turns, ages of three and five turns, more than six live flags to retire one, a new owner, and only flips and owner changes without words |
| FlagReplay.GenS7 | benchmarks/multiturn_coding/_gen_long50.py:58-119 | the generator for every outcome of its random choices: 50 turns that form a run of the state machine, no choice from an empty list |
| FlagSeeds.ShuffleHasNoRepeats | benchmarks/multiturn_coding/_gen_long50.py:66-67 | no shuffle of distinct words repeats one |
| FlagSeeds.AnyShuffleStarts | benchmarks/multiturn_coding/_gen_long50.py:51-67 | the actual 29 seed words, in any order, satisfy the invariant at turn 1: none lies in another's rename orbit |
| FlagSeeds.GenerateS7 | benchmarks/multiturn_coding/_gen_long50.py:51-119 | hence the generator completes on the actual words |
| Routing.ResolveByScan | benchmarks/multiturn_coding/_gen_long50.py:141-149 | scanning the table as the embedded code does computes the resolution function |
| Routing.ResolveFollowsChains | benchmarks/multiturn_coding/_gen_long50.py:141-149 | with distinct paths a path resolves exactly when a chain of at most five redirects leads from it to a page |
| Routing.ResolveIsTrace | benchmarks/multiturn_coding/_gen_long50.py:141-149 | resolution is the endpoint of following redirects within the remaining hops |
| Routing.MoveTrace | benchmarks/multiturn_coding/_gen_long50.py:191-200 | for every hop budget, a move to a fresh path adds one hop to the paths that led to the page and changes nothing else |
| Routing.MoveKeepsMeaning | benchmarks/multiturn_coding/_gen_long50.py:191-200 | after a move every path resolves as before, except exactly those that used all five redirects to reach the moved page; the new path resolves to the page |
| Routing.MoveKeepsNearPaths | benchmarks/multiturn_coding/_gen_long50.py:191-200 | every path at most four redirects away keeps its endpoint |
| Routing.DropTrace | benchmarks/multiturn_coding/_gen_long50.py:201-211 | for every hop budget, a drop unresolves exactly the paths that led to the dropped page |
| Routing.NormKeepsMeaningExactly | benchmarks/multiturn_coding/_gen_long50.py:371-380 | for every table, normalizing changes no resolution if and only if no path hidden behind a dangling redirect resolves afterwards |
| Routing.NormKeepsMeaning | benchmarks/multiturn_coding/_gen_long50.py:371-380 | with distinct paths, normalizing changes what no path resolves to, at any depth |
| Routing.NormNeedsDistinctPaths | benchmarks/multiturn_coding/_gen_long50.py:371-380 | a family of tables with a repeated path where it uncovers a page |
| Routing.NormIsCleanExactly | benchmarks/multiturn_coding/_gen_long50.py:371-380 | one pass leaves no dangling redirect if and only if every target of a kept redirect has an entry that does not dangle itself |
| Routing.NormKeeps | benchmarks/multiturn_coding/_gen_long50.py:371-380 | normalizing keeps, as often as they are there, exactly the pages and the redirects to a path that some route has |
| Routing.NormLeavesDangling | benchmarks/multiturn_coding/_gen_long50.py:371-380 | a family of tables where one pass leaves one |
| Routing.EqualNormsResolveAlike | benchmarks/multiturn_coding/_gen_long50.py:349-381 | any table that agrees after normalization with one of distinct paths resolves every path alike if and only if no dangling redirect of it hides a path that should resolve; with distinct paths always |
| RouterTable.MoveTargetFresh | benchmarks/multiturn_coding/_gen_long50.py:191-196 | no path is, and no other redirect points to, a page's next name |
| RouterTable.MoveKeepsShape | benchmarks/multiturn_coding/_gen_long50.py:191-200 | a move keeps every path a name, redirects one step long, and each family's page last |
| RouterTable.MoveKeepsLinks | benchmarks/multiturn_coding/_gen_long50.py:191-200 | and keeps every earlier name of a page linked to the next |
| RouterTable.DropKeepsTable | benchmarks/multiturn_coding/_gen_long50.py:201-211 | a drop keeps that shape although it may leave redirects dangling |
| RouterTable.TraceToPage | benchmarks/multiturn_coding/_gen_long50.py:141-149 | a page's earlier names lead to it, one hop per renaming, up to the budget |
| RouterTable.TraceInFamily | benchmarks/multiturn_coding/_gen_long50.py:141-149 | redirects never leave a family |
| RouterTable.ResolvesExactly | benchmarks/multiturn_coding/_gen_long50.py:141-149 | a name resolves to an endpoint exactly when its family's page has it and is at most five renamings ahead |
| RouterTable.RedirectsAcyclic | benchmarks/multiturn_coding/_gen_long50.py:191-200 | a redirect's target is longer than its path, so redirects have no cycle |
| RouterTable.SixthMoveUnresolvesFirstName | benchmarks/multiturn_coding/_gen_long50.py:141-149 | the sixth move of a page makes its first name unresolvable |
| RouterRuns.Moves | benchmarks/multiturn_coding/_gen_long50.py:173-200 | from turn 7 on, any page that is three turns old can be moved again every third turn while segments last |
| RouterRuns.FirstNameStopsResolving | benchmarks/multiturn_coding/_gen_long50.py:157-214 | a run of the generator, for any shuffle, after which /login does not resolve although its page is still there |
| RouterTable.DropDanglesExactly | benchmarks/multiturn_coding/_gen_long50.py:201-211 | a drop leaves a redirect of the page's family dangling if and only if the page was renamed twice or more, and touches no other family: no-dangling is not an invariant |
| RouterReplay.CountIsPages | benchmarks/multiturn_coding/_gen_long50.py:177 | the length of the filtered list is the number of pages |
| RouterReplay.DropIsGuarded | benchmarks/multiturn_coding/_gen_long50.py:173-180 | the drop branch is reached only by drawing a drop, under its guard |
| RouterReplay.NoEmptyChoice | benchmarks/multiturn_coding/_gen_long50.py:166-202 | in every reachable state, whatever operation is drawn, the list of routes to draw from is not empty |
| RouterReplay.MoveIsFresh | benchmarks/multiturn_coding/_gen_long50.py:191-196 | in such a state a move's target is known to no route |
| RouterReplay.StepKeepsInv | benchmarks/multiturn_coding/_gen_long50.py:173-211 | every choosable operation keeps the invariant: distinct paths, table shape, births of exactly the paths, sizes |
| RouterReplay.RunKeepsInv | benchmarks/multiturn_coding/_gen_long50.py:173-211 | so it holds in every state of every run |
| RouterReplay.ReachableTables | benchmarks/multiturn_coding/_gen_long50.py:157-214 | every reachable table has distinct paths, births for exactly its paths, acyclic redirects, and resolves names exactly up to five renamings back |
| RouterReplay.ReachableMoves | benchmarks/multiturn_coding/_gen_long50.py:191-200 | every move of every run keeps the meaning of all other paths, up to the exact hop limit |
| RouterHistory.RunIsTold | benchmarks/multiturn_coding/_gen_long50.py:157-214 | on every run the table is what the list of operations tells: the page at each path with its handler and version, the redirects of left paths, and when each path came |
| RouterHistory.RunInOrder | benchmarks/multiturn_coding/_gen_long50.py:157-214 | on every run the table lists its paths in the order in which they came into it |
| RouterHistory.RunsAreAllowed | benchmarks/multiturn_coding/_gen_long50.py:173-202 | the runs are exactly the lists of operations each of which obeys the rules of choice: segments from the end, adds only in the first six turns, ages of three and five turns, never the first page, and more than eight pages to drop one |
| RouterReplay.RemoveIsFilter | benchmarks/multiturn_coding/_gen_long50.py:203-210 | with distinct paths, removing the first equal entry is filtering |
| RouterReplay.DropByRemoval | benchmarks/multiturn_coding/_gen_long50.py:201-211 | removing the page and then each redirect to it leaves exactly the surviving routes |
| RouterReplay.GenS8 | benchmarks/multiturn_coding/_gen_long50.py:157-214 | the generator for every outcome of its random choices: 50 turns that form a run, no choice from an empty list |
| RouterSeeds.AnyShuffleStarts | benchmarks/multiturn_coding/_gen_long50.py:152-164 | the actual 25 path segments, in any order, satisfy the invariant at turn 1 |
| RouterSeeds.GenerateS8 | benchmarks/multiturn_coding/_gen_long50.py:152-214 | hence the generator completes on the actual segments |
| Sections.LinesOfConcat | evals/slipstream_replay.py:105 | cutting a text behind a terminator that the rest cannot extend cuts its list of lines |
| SectionNames.LinesOfThree | evals/slipstream_replay.py:105 | a line breaks at exactly ten characters, and `\r\n` breaks it once |
| Sections.FindBest | evals/slipstream_replay.py:94-98 | the loop keeps the first longest matching header prefix |
| Sections.BestIsUnique | evals/slipstream_replay.py:94-98 | that entry is unique; there is none exactly when no prefix matches |
| Sections.FindRegion | evals/slipstream_replay.py:91-98 | the region of a header line, earlier exchanges being filed as adjacency |
| SectionNames.OneHeader | evals/slipstream_replay.py:51-98 | no line matches two of the headers, so the longest match is the only one |
| SectionNames.HeadersRead | evals/slipstream_replay.py:51-98 | a line that begins with one of the 27 headers belongs to the region of that header, whatever follows |
| SectionNames.OtherLines | evals/slipstream_replay.py:91-98 | a line that begins with none of them belongs to no region |
| Sections.SplitSections | evals/slipstream_replay.py:101-114 | the loop produces the section list of the text |
| SectionNames.SectionCount | evals/slipstream_replay.py:101-114 | a text has as many sections as lines that begin with a hash and a space, and one more if it does not begin so |
| Sections.SplitIsSectioning | evals/slipstream_replay.py:101-114 | joining the sections gives the text back, and each is a block opened by at most one header, labelled by its first line |
| Sections.SplitUndoesGlue | evals/slipstream_replay.py:101-114 | a section list is determined by its text |
| Sections.AblateResplits | evals/slipstream_replay.py:117-123 | re-splitting an ablated text yields exactly the other sections, unchanged and in order |
| Sections.AblateIsExact | evals/slipstream_replay.py:117-123 | ablation fails exactly when the region is absent, removes just that region's text, and a second ablation reports absence |
| Sections.AblationsCommute | evals/slipstream_replay.py:117-123 | the order of two ablations does not matter, nor whether either reports absence |
| Sections.UnknownStays | evals/slipstream_replay.py:48-50 | sections whose header matches no entry are never ablated |
| LedgerKit.BalanceIsOpeningPlusNet | evals/hardbench/scenarios.py:187-196 | every balance moves by exactly the net effect of the posted legs, self-legs included |
| LedgerKit.MoveAllConserves | evals/hardbench/scenarios.py:187-196 | no leg creates or destroys money |
| LedgerKit.FeeIsNearest | evals/hardbench/selftest.py:39 | the fee is the only number of cents nearest to one per cent with halves rounded up |
| LedgerKit.TransferEffect | evals/hardbench/selftest.py:36-41 | what a transfer with its fee leg does to every account, FEES as a source included |
| LedgerKit.CheckAllFindsFirst | evals/hardbench/selftest.py:23-34 | validation succeeds if and only if every item is valid, and otherwise reports the first bad one |
| LedgerKit.AcceptsExactly | evals/hardbench/selftest.py:20-34 | a batch is accepted if and only if it is a list of triples of a positive Money between two different open accounts |
| LedgerKit.FailsOnFirstBad | evals/hardbench/selftest.py:21-34 | otherwise it fails with the error of the first violated condition of the first bad item, and with no other |
| LedgerKit.PostsExactly | evals/hardbench/selftest.py:35-42 | an accepted batch posts each transfer in order, never from an account to itself, and right behind it the fee to FEES, the nearest cent to one per cent, exactly if the account is open, the amount is at least 50 cents and the destination does not start with FEE |
| LedgerKit.LegsPosted | evals/hardbench/selftest.py:35-41 | all legs of a valid batch are between open accounts |
| LedgerKit.BatchesCompose | evals/hardbench/selftest.py:20-42 | two batches in turn are accepted, and post the same legs, just as their concatenation |
| LedgerKit.PostingKeepsBooks | evals/hardbench/scenarios.py:187-196 | if every balance is what the journal says, it still is after posting |
| LedgerKit.OpeningKeepsBooks | evals/hardbench/scenarios.py:175-180 | a new account opens in balance with the journal |
| LedgerKit.AsciiCodes | evals/hardbench/scenarios.py:139-147 | for ASCII codes the checks are the documented convention |
| LedgerKit.OtherCodes | evals/hardbench/scenarios.py:139-147 | beyond ASCII, a code of caseless letters passes if and only if an upper-case one is among them, against the convention |
| LedgerKit.Ledger.OpenAccount | evals/hardbench/scenarios.py:175-180 | opens an account at zero exactly when the code is new and well formed, else changes nothing |
| LedgerKit.Ledger.Post | evals/hardbench/scenarios.py:187-196 | validates in order, then moves the money and journals the leg; a failure changes nothing |
| LedgerKit.Ledger.ApplyBatch | evals/hardbench/selftest.py:20-42 | all or nothing: it succeeds exactly on a list of good transfers; a failure leaves no trace, a success journals exactly the transfers and fee legs, moves every balance by their net effect and conserves the sum |
| LedgerKit.Ledger.Validate | evals/hardbench/selftest.py:23-34 | the validation loop reports the first error |
| LedgerKit.Ledger.PostAll | evals/hardbench/selftest.py:35-41 | the posting loop journals every transfer followed by its fee leg when due |
| LedgerKit.Ledger.PostOne | evals/hardbench/selftest.py:36-41 | one transfer and its fee leg |
| LedgerKit.Ledger.PostFee | evals/hardbench/selftest.py:38-41 | the fee leg is posted exactly when one is due |
| Money.MoneyParseExactly | evals/hardbench/scenarios.py:96-109 | Money.parse accepts exactly blanks, a minus sign, digits and at most two fraction digits, and gives them their value |
| Money.PyIntExactly | evals/hardbench/scenarios.py:349-351 | int accepts exactly groups of digits joined by single underscores, with a sign and any of 25 blanks around, and gives them the value of the digits together |
| Money.ParseAmountExactly | evals/hardbench/scenarios.py:339-351 | parse_amount accepts exactly texts with at most one point whose whole part and padded two-character fraction are integer literals, and the value it gives them |
| Money.ParseAmountExtends | evals/hardbench/scenarios.py:339-351 | parse_amount agrees wherever Money.parse accepts |
| Money.ParsersAgreeExactly | evals/hardbench/scenarios.py:339-351 | the two parsers agree on a text if and only if parse_amount rejects it or its parts are plain digits, one or two behind the point |
| Money.OnlyParseAmount | evals/hardbench/scenarios.py:339-351 | every other text of the accepted shape is an amount to parse_amount alone |
| Money.ParseUndoesFormat | evals/hardbench/scenarios.py:354-358 | printing and parsing back is the identity on every integer number of cents, for both parsers |
| Money.FormatIsPrinted | evals/hardbench/scenarios.py:354-358 | an amount is printed with a minus sign exactly if it is negative, a whole part without needless zeros, and always two digits behind the point |
| Money.CharInFront | evals/hardbench/scenarios.py:96-109 | in front of a digit Money.parse takes exactly 29 blanks, a minus sign or a digit, and int the 25 of them it skips, a sign or a digit |
| Money.FormatInjective | evals/hardbench/scenarios.py:123-126 | two amounts print alike exactly when they are equal |
| Money.SignInside | evals/hardbench/scenarios.py:339-351 | so parse_amount reads 5.-1 as 4.99, which Money.parse rejects |
| Money.LongFraction | evals/hardbench/scenarios.py:339-351 | and cuts off digits beyond the second, which Money.parse rejects |
| Money.SeparatorInside | evals/hardbench/scenarios.py:339-351 | a separator U+001C to U+001F, which strip takes for a blank and int does not, fails both parsers inside a part and neither at the end of the text |
| Transfer.NetHistoryConcat | evals/hardbench/selftest.py:54-69 | the effects of two stretches of history add up |
| Transfer.Extend | evals/hardbench/selftest.py:59-69 | a history stays covered when a covered entry is added |
| Transfer.Account.Deposit | evals/hardbench/selftest.py:59-62 | adds the amount and its entry, or changes nothing if the text is no amount; history explains the balance |
| Transfer.Account.Withdraw | evals/hardbench/selftest.py:64-69 | succeeds exactly when the balance covers the amount; a failure changes nothing |
| Transfer.TransferBetween | evals/hardbench/selftest.py:83-87 | a failed transfer leaves no trace in either account; a successful one moves the money and conserves the sum, also when both are one account |
| Logroll.Aggregate | evals/hardbench/selftest.py:118-128 | counts and bytes are the tallies of the rows that start a run of adjacent duplicates, and the counts sum to the number of runs |
| Logroll.ReportsRequests | evals/hardbench/selftest.py:118-128 | for each user it reports the number of runs of equal user, path and time, and the bytes of their first rows |
| Logroll.RepeatIsInvisible | evals/hardbench/selftest.py:118-128 | repeating a row, with any byte count, changes nothing |
| Logroll.CollapseIsIdempotent | evals/hardbench/selftest.py:118-128 | collapsing adjacent duplicates leaves none |
| Dedupe.WebhookDeduper.Evict | benchmarks/subagent_fanout.py:235-238 | drops exactly the entries older than the window |
| Dedupe.WebhookDeduper.IsDuplicate | benchmarks/subagent_fanout.py:240-247 | answers as a log of all calls with eviction would, for any clock, and records the call |
| Dedupe.ForgettingIsInvisible | benchmarks/subagent_fanout.py:228-247 | with a clock that never goes back, it answers True exactly when the id was accepted within the last window |
| Dedupe.MissesExactly | benchmarks/subagent_fanout.py:228-247 | with any clock a positive answer is right, and an id is missed exactly when the clock has overshot, and come back from, every acceptance in the window |
| Dedupe.WindowIsADay | benchmarks/subagent_fanout.py:235-247 | exactly a day later an event is still a duplicate, any later it is not |
| Dedupe.AcceptancesAreApart | benchmarks/subagent_fanout.py:228-247 | two acceptances of one id are more than the window apart |
| Dedupe.ClockGoesBack | benchmarks/subagent_fanout.py:240-247 | when the clock goes back an id can be accepted twice at one instant: the counterexample |
| Dedupe.Handle | benchmarks/subagent_fanout.py:250-254 | an event is processed exactly when it has an id not accepted within the window |
| Receipts.DedupAbsorbs | evals/receipt_claims.py:236 | removing repeats early changes nothing |
| Receipts.MergedConcat | evals/receipt_claims.py:220-237 | merging a concatenation is joining the merges |
| Receipts.MergeIsHomomorphism | evals/receipt_claims.py:220-237 | merging the merges of two lists is merging the two lists as one |
| Receipts.MergedCounts | evals/receipt_claims.py:60-68 | any count of a merge, the * aggregate included, is the sum of the counts of its parts |
| Receipts.MergedRows | evals/receipt_claims.py:220-237 | a merge has a row for every tool that one of its parts has a row for |
| Receipts.MergedChildCount | evals/receipt_claims.py:220-237 | the merged child count is at least the number of distinct child ids, and equal exactly when no id occurs twice |
| Receipts.MergeReceiptTruth | evals/receipt_claims.py:220-237 | the nested loops compute the merge |
| Extraction.ExtractReceiptTruth | evals/receipt_claims.py:163-217 | the extraction loops compute the facts of one turn, or fail without a receipt and operation list |
| Extraction.CountsAreTallies | evals/receipt_claims.py:172-213 | each count, the * aggregate included, is the number of operations of that tool in that category; children are counted once |
| Extraction.MergedCountsAreTallies | evals/receipt_claims.py:220-237 | the counts of merged receipts are the numbers of operations of all turns, and of the distinct children of each |
| Extraction.OutcomeMeans | evals/receipt_claims.py:181-187 | an outcome is told, in any case of letters, by the disposition or without one by the outcome status; what is rejected did not start |
| Extraction.ChildrenMean | evals/receipt_claims.py:188-210 | the children of a receipt are what its spawn operations are linked to, and its own references whose last artifact is a subagent or that, without one, start with `subagent-` |
| Extraction.ExtractedRows | evals/receipt_claims.py:172-210 | a receipt has a row for every tool with an operation, and for the spawning tool if there are children |
| Extraction.SessionIds | evals/receipt_claims.py:212-232 | a session lists the ids and dispositions of its receipts in the order of the turns, each with its fallbacks |
| Extraction.SessionCounts | evals/receipt_claims.py:60-68 | a session counts the operations of the named tool, of all tools for *, and the children of each turn under the spawning tool |
| Extraction.RejectedPlusStarted | evals/receipt_claims.py:181-187 | rejected plus started, and succeeded plus failed, never exceed the tool's operations |
| Extraction.ExtractedSealsItsChildren | evals/receipt_claims.py:204-210 | an extracted receipt counts its own distinct children |
| Claims.Counts | evals/receipt_claims.py:60-68 | lookup for a tool, column sums for * |
| Claims.SupportedMeans | evals/receipt_claims.py:510-534 | a claim of any lifecycle category about the merged receipts of any turns is supported exactly when the proposition it states, spelled out over the requested or the started operations, holds of them and the children, if and only if (for `all` and `not_all`) the operations outside the base, or the children beyond one per operation, do not make up for the operations that are missing |
| Claims.SupportedMeansForTurn | evals/receipt_claims.py:510-534 | the same for the receipt of one turn |
| Claims.AssessMeans | evals/receipt_claims.py:510-546 | the assessment reports the number of operations or children counted, and the claim's own category as verdict exactly if it is supported |
| Claims.StraysBalance | evals/receipt_claims.py:522-531 | a category counts the operations of its base, less the missing ones, plus the strays from outside the base |
| Claims.SealingBalance | evals/receipt_claims.py:522-531 | every started operation either seals a child or is missing from `all` |
| Claims.OneToOneDecides | evals/receipt_claims.py:522-531 | without strays, or with as many children as operations that seal one, every claim is scored rightly; for other tools than the spawning one child claims always are |
| Claims.AllCanMislead | evals/receipt_claims.py:522-526 | the receipt of a turn with one request that never started and one start without a request supports "all were started", which is false |
| Claims.ChildrenCanMislead | evals/receipt_claims.py:522-526 | the receipt of a turn with two starts, one that sealed two children and one that sealed none, supports "every start sealed a child", which is false |
| Claims.OverstatementMeans | evals/receipt_claims.py:536-541 | the overstatement verdict falls exactly on claims of more starts than occurred, except the exactly described claims with a low count and `all` |
| Claims.TaxonomyAddsUp | evals/receipt_claims.py:566-571 | the eight taxonomy counts sum to the number of claims, and so do supported claims and errors |
| Claims.ExactMeans | evals/receipt_claims.py:572-578 | the code's test for exactness holds exactly when every claim is supported and every required category covered |
| Claims.MissingMeans | evals/receipt_claims.py:574 | what is missing are the requirements that no supported claim covers, each as often and in the order required |
| Claims.AssessClaims | evals/receipt_claims.py:565 | assesses every claim against its own tool, or fails on a claim with no receipt count |
| Claims.ScoreReply | evals/receipt_claims.py:549-582 | the scoring as a whole, with its errors, exactness, taxonomy, covered and missing categories |
| Retry.DoneTasks | evals/tbench/run_all.py:27-43 | the loop collects the tasks that have a clean verdict |
| Retry.TrialNames | evals/tbench/run_all.py:34-42 | a directory named task, `__` and anything is a trial of that task if no `__` starts earlier |
| Retry.DoneMeans | evals/tbench/run_all.py:27-43 | a task is done exactly if some trial of it has a reward from a verifier that ran |
| Retry.DoneIsMonotone | evals/tbench/run_all.py:27-43 | more trials never make a task undone |
| Retry.CollectAll | evals/tbench/compare.py:81-102 | for every task with a trial, the last of its best-scoring trials is kept |
| Retry.KeptIsBest | evals/tbench/compare.py:81-102 | the trial kept is the last with a clean verdict, without one the last with a reward, and without any the last |
| Retry.DoneIsKeptClean | evals/tbench/compare.py:84-89 | a task is done exactly when the kept trial has a clean verdict, in whatever order either lists the directories |
| Retry.RunRound | evals/tbench/run_all.py:54-69 | the chunks of a round partition its remaining list, five at a time |
| Retry.FiveAtATime | evals/tbench/run_all.py:54-56 | chunk i of a round holds the tasks 5i to 5i + 4 of its list |
| Retry.RemainingConcat | evals/tbench/run_all.py:49 | the remaining tasks keep the order in which they are listed |
| Retry.RunAgent | evals/tbench/run_all.py:46-70 | at most four rounds, each launching exactly the tasks not done when it began; it stops early only with nothing missing |
| Retry.LaunchedWhileNotDone | evals/tbench/run_all.py:48-57 | a task is launched in a round exactly if it was not done when the round began |
| Retry.DoneIsNotRelaunched | evals/tbench/run_all.py:48-57 | once done, a task is never launched again |
| Retry.LaunchBound | evals/tbench/run_all.py:46-70 | a task is launched at most as often as there are rounds times the times it is listed, so once a round at most if it is listed once |
| Bootstrap.MeanWithin | evals/prompt_ab/stats.py:13-15 | a mean lies between any bounds on its values |
| Bootstrap.IndicesInRange | evals/prompt_ab/stats.py:26-27 | the two percentile indices are in range and in order for any alpha up to 1 |
| Bootstrap.IntervalWithin | evals/prompt_ab/stats.py:18-28 | whatever is drawn, lo <= hi, and both and the mean lie between the smallest and largest value |
| Bootstrap.IntervalCutsOff | evals/prompt_ab/stats.py:18-28 | the interval cuts off half of alpha at either end: at most that share of the resampled means lies below lo and more than it up to lo, at most that share above hi and at least it from hi on |
| Bootstrap.BootsAreWeighted | evals/prompt_ab/stats.py:25 | a resampled mean weighs each value by how often it is drawn |
| Bootstrap.OneSidedDiffs | evals/prompt_ab/stats.py:31-44 | differences of one sign decide the comparison whatever is drawn |
| Bootstrap.PairedDiffMeans | evals/prompt_ab/stats.py:31-44 | a comparison reports the variant's mean less the control's, and is significant exactly if the interval leaves 0 outside |
| PromptAb.SamplesIgnoreOrder | evals/prompt_ab/run.py:146-156 | how many numbers a key collects and what they sum to does not depend on the order of the cells |
| PromptAb.AggregateIgnoresOrder | evals/prompt_ab/run.py:146-162 | the aggregate is invariant under permutation of the cells |
| PromptAb.Aggregate | evals/prompt_ab/run.py:146-162 | the loops compute the mean over trials for exactly the keys that have a number |
| PromptAb.AggregateKeys | evals/prompt_ab/run.py:146-156 | there is a mean under exactly the keys for which some cell has a number under a name other than item and error |
| PromptAb.CompareWithin | evals/prompt_ab/run.py:174-180 | a row reports lo <= hi between the smallest and largest per-item gap |
| PromptAb.ScreeningIsFair | evals/prompt_ab/run.py:199-208 | a variant worse on no common item is never dropped, one worse on all always is, whatever is drawn |
| PromptAb.DroppedExactly | evals/prompt_ab/run.py:199-208 | a variant is dropped exactly if its mean over the common items is on the wrong side of the control's and the 95 per cent interval does not contain 0 |
| PromptAb.Survivors | evals/prompt_ab/run.py:193-213 | control and exactly the chosen variants that are not dropped, in order |
| PromptAb.KeptConcat | evals/prompt_ab/run.py:193-213 | the survivors keep the order in which the variants are listed, behind `control` |
| PromptAb.SurvivorsIgnoreOrder | evals/prompt_ab/run.py:193-213 | the survivor list does not depend on the order of completion |
| Leaderboard.Leaderboard | evals/prompt_ab/run.py:165-181 | the nested loops build the rows in the order of the dictionaries |
| Leaderboard.RowsHold | evals/prompt_ab/run.py:165-181 | which rows there are: one for each variant and score that shares an item with the control |
| Leaderboard.RowReports | evals/prompt_ab/run.py:174-181 | a row gives the variant's mean, then the control's, each over the common items, and their difference |
| Leaderboard.BeforeIsLexicographic | evals/prompt_ab/run.py:184-186 | strings are compared character by character, a prefix coming first |
| Leaderboard.ShownInGroups | evals/prompt_ab/run.py:184-190 | rows are shown by metric, within it by score, within that by variant |
| Leaderboard.SortedIsUnique | evals/prompt_ab/run.py:184-190 | a list of rows sorted by metric, score and variant is determined by its rows |
| Leaderboard.ShownForAnyOrder | evals/prompt_ab/run.py:165-190 | in whatever order the dictionaries were filled, no two rows have one key, so the rows can be shown |
| Leaderboard.ShownIsUnique | evals/prompt_ab/run.py:165-190 | and what is shown does not depend on that order |
| Leaderboard.ResultsIgnoreOrder | evals/prompt_ab/run.py:165-213 | neither the leaderboard shown nor the survivor list depends on the order in which the cells completed |

## Left out

- Aliases under `src/sliceagent`: their implementations are not in the repository.
- Model calls, subprocesses, containers, globbing, cloning, clocks and random sources: parameters or nondeterministic choices here.
- Regular-expression claim extraction, language-model judges and prompt texts: claims are an input and prompts are not produced.
- JSON numbers other than integers, surrogates and escapes of code points outside the basic plane: not needed by the requests modelled.
- Equality of Python dictionaries up to member order: an object here is its members in order, as it is serialized.
- `region_at`, the `frac` ratio, tool counts, liveness and the choice of the request whose composition is reported: labels and statistics of the spine probe.
- Message hashes, the uncalibrated estimate and the report of the census: constants and formatting.
- Floating-point rounding: token ratios are exact rationals, scores and timestamps are reals.
- CensusSummary.DriftAlarm: compares exact rationals; the rounded drift shown in the report is not modelled.
- Header attribution as meaning: escaped text can look like a header, so spans are a partition and not a claim about content.
- `exact_equivalent` of the slice replay: `canonical_tool_args` is not part of this model.
- Money.MoneyParseExactly: decimal digits of other scripts are taken to be written as the ASCII digits that `int` reads them as, and a digit that `int` rejects (a superscript) gives None like any other error, although it raises ValueError and not ValidationError; the limit of 4300 digits below applies here too.
- Money.PyIntExactly: the same reading of other scripts' digits; and from Python 3.11 on, `int` by default refuses numerals of more than 4300 digits, which the model reads.
- Money.ParseAmountExactly: the same for both.
- Money.ParsersAgreeExactly: the same limit of 4300 digits.
- Money.OnlyParseAmount: the same limit of 4300 digits.
- Money.ParseUndoesFormat: the same limit, which `str` has too; amounts of more than 4300 digits can neither be printed nor read by default.
- Json.LoadsDumps: the same limit for integers in JSON.
- Python's Unicode tables of letters and digits: account codes take them as a parameter.
- Account codes and amounts of other Python types than strings and Money: one not-Money case stands for all of them.
- Extraction.Lower: ASCII only.
- The error of a session without any receipt, malformed receipt fields, malformed result files that make a reader raise, and artifacts that are not mappings.
- Trial timing, tokens and steps, the comparison table and its tallies: display of the kept trials.
- Retry.Harbor: the external runner may add any trials; which ones is not modelled.
- The tables of target metrics and of lower-is-better scores, and the order in which items are sorted: parameters of the screening.
- Planted-bug versions of the account, transfer and batch texts: the reference versions are modelled.
- Parsing, ordering and printing of the log tool, account statements, meters, charts and the other scenario generators: they would only add easy members.
