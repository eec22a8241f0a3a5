# Proxy pool: health bookkeeping and selection, modelled in Dafny

This project models the core of an in-process proxy pool. A `ProxyBalancer`
holds a registry of mutable proxy records, each with an address, the
latency of its last successful probe, a count of failures since then, and
the time it was last handed out. The modelled behaviour is:

- `init` builds the registry from an address list or a list file.
- `refreshProxies` probes every entry with `testProxy`, staggering the
  start times.
- `getBestProxy` re-ranks the registry with `sortProxies` and hands out
  the best entry that is not exhausted.
- Read-only reports list, filter and summarise the entries.
- `loadProxiesFromFile` parses a list file: split on newlines, trim, and
  drop blank and `#` lines.

Both the TypeScript sources and their JavaScript twins are modelled. They
differ in two places: how absent options are defaulted (`??` against `||`)
and the early return of `getProxyStats`. Those two have members of their
own (`ResolveOptionsJs`, `ProxyBalancer.WithJsDefaults`, `GetProxyStatsJs`).
Everywhere else one member models both versions, and the table below cites
the TypeScript lines. The JavaScript counterparts are:

- `init`: `src/ProxyBalancer.js:20-42`.
- `refreshProxies`: `src/ProxyBalancer.js:44-60`.
- `getBestProxy`: `src/ProxyBalancer.js:62-83`.
- `sortByLatency`: `src/ProxyBalancer.js:102-115`.
- `getFailedProxies`: `src/ProxyBalancer.js:117-128`.
- `getStatsSummary`: `src/ProxyBalancer.js:130-149`.
- `sortProxies`: `src/ProxySelector.js:1-15`.
- `testProxy`: `src/ProxyTester.js:4-37`. Here the agent is built inline
  inside the `try`, so an agent error is one more failure.
- `loadProxiesFromFile`: `src/utils/loadProxy.js:3-14`.

Files:

- `Interfaces.dfy`: the shared types.
  - The `Proxy` class: its fields are updated in place by the tester and
    the balancer.
  - `Latency`: `Unknown` stands for the source's `Infinity`.
  - The stats row, the options and the source of the registry.
- `ProxyTester.dfy`: one probe as a state transition.
  - The network exchange is replaced by its outcome: a response with a
    status and the elapsed time, an agent error, or a request error.
  - `TestProxy` is a method writing the two fields a probe updates.
  - Lemmas state the health after any series of probes.
- `ProxySelector.dfy`: the ranking comparator and the stable sort.
  - The comparator only reads the records, so the sort works on entries
    that pair each record with the key the comparator sees in it.
  - The sort is an insertion sort. `SortUnique` shows that every stable
    sort by the same comparator gives the same output, so the choice of
    algorithm does not matter.
- `LoadProxy.dfy`: the list-file parser.
  - Trimming uses the ECMAScript whitespace set.
  - Properties: soundness, completeness, line-wise composition, and a
    round trip through joining with newlines.
- `Balancer.dfy`: the balancer.
  - Option defaulting in both variants, the stagger schedule, the
    filters and the summary arithmetic.
  - The `ProxyBalancer` class. Its registry is a `seq<Proxy>` field that
    `Init` and `GetBestProxy` reassign. `RefreshProxies` and
    `GetBestProxy` write the records in place.

Effects are parameters:

- The probe's outcome is a `ProbeOutcome`.
- The clock reading for `getBestProxy` is `now`.
- Whether building the agent for the chosen address succeeded is `agentOk`.
- What reading the list file gave is a `ReadResult`.

`Math.round(sum / n)` on non-negative integers is the integer `r` with
`2nr <= 2·sum + n < 2nr + 2n`. That is what `RoundDiv` computes.

The refresh staggers start times by `(index % concurrentTests) * 500`. It
does not cap how many probes are in flight at once: every entry in the same
slot starts at the same time. The model follows the code, so
`concurrentTests` bounds the number of distinct start times, not the
number of simultaneous tests. With the TypeScript `??` default, an explicit
`concurrentTests` of 0 makes the delay `NaN`, which the timer treats as no
delay; the model gives offset 0.

## Model

| member | source | states |
|---|---|---|
| Interfaces.Proxy.constructor | src/ProxyBalancer.ts:37-42 | a new record has the given address, unknown latency, no failures and is marked never used |
| Interfaces.Proxy.MarkUsed | src/ProxyBalancer.ts:89 | stamps `lastUsed` with the current time and writes no other field |
| ProxyTester.Probe | src/ProxyTester.ts:25-34 | the latency is finite exactly after a status-200 response, the counter is 0 exactly then, and otherwise the counter grows by exactly one |
| ProxyTester.TestProxy | src/ProxyTester.ts:8-45 | the new latency and counter are the probe transition of the old ones (elapsed time and 0 on a pass; unknown and one more failure on any error); only those two fields are written and there is no error result |
| ProxyTester.HistoryHealth | src/ProxyTester.ts:29-34 | after any series of probes, the counter is the number of failures since the last pass (plus the starting count if none passed), and the latency is the last measurement if the last probe passed and unknown otherwise |
| ProxyTester.EligibleAfterHistory | src/ProxyTester.ts:32-34 | a fresh record stays below the failure threshold exactly when fewer than that many probes failed since its last pass |
| ProxySelector.KeyLeTotal | src/ProxySelector.ts:16-20 | the comparator orders any two keys, and two keys each ordered before the other are equal |
| ProxySelector.KeyLeTransitive | src/ProxySelector.ts:16-20 | the comparator's order is transitive |
| ProxySelector.InsertPerm | src/ProxySelector.ts:9 | inserting adds exactly the new entry, and no record is lost or duplicated |
| ProxySelector.InsertSorted | src/ProxySelector.ts:9-21 | inserting into a sorted sequence keeps it sorted |
| ProxySelector.SortEntriesPerm | src/ProxySelector.ts:9 | the sort permutes the entries and hence the records |
| ProxySelector.SortEntriesSorted | src/ProxySelector.ts:9-21 | the sorted keys ascend under the comparator |
| ProxySelector.SortedSnapshot | src/ProxySelector.ts:9 | after sorting, every entry still carries the key of its own record |
| ProxySelector.SortBy | src/ProxySelector.ts:9-21 | the sorted copy is a permutation of the registry whose keys ascend |
| ProxySelector.SortProxies | src/ProxySelector.ts:8-21 | same length and same records; latency ascends with unknown latency last; on equal latency, failures ascend |
| ProxySelector.MeasuredFirst | src/ProxySelector.ts:10-11 | in the ranking, every entry with a measured latency precedes every entry without one |
| ProxySelector.InsertWithKey | src/ProxySelector.ts:9 | inserting keeps the entries of every key in order, with the new entry before those that share its key |
| ProxySelector.SortStable | src/ProxySelector.ts:9 | for every key, its entries appear in the sorted output in input order |
| ProxySelector.RankingStable | src/ProxySelector.ts:9-21 | records equal on both latency and failures keep their relative registry order |
| ProxySelector.SortIdempotent | src/ProxySelector.ts:9-21 | sorting an already sorted sequence returns it unchanged |
| ProxySelector.RankingIdempotent | src/ProxySelector.ts:9-21 | ranking the ranked registry again leaves the order as it is |
| ProxySelector.SortUnique | src/ProxySelector.ts:9 | any sorted sequence that keeps every key's entries in input order equals the sort's output |
| ProxySelector.SortedSameKeysEqual | src/ProxySelector.ts:9 | two sorted sequences with the same entries for every key are equal |
| ProxySelector.RankingExample | src/ProxySelector.ts:3-4 | A (50 ms, 0 failures), B (30 ms, 1) and C (30 ms, 0) rank as C, B, A |
| LoadProxy.Trim | src/utils/loadProxy.ts:13 | the trimmed line has no whitespace at either end |
| LoadProxy.TrimSlice | src/utils/loadProxy.ts:13 | the trimmed line is the contiguous part of the line that starts right after its leading whitespace |
| LoadProxy.TrimDropsWhitespace | src/utils/loadProxy.ts:13 | every character removed before or after the trimmed part is whitespace |
| LoadProxy.TrimTrimmed | src/utils/loadProxy.ts:13 | trimming a line with no whitespace at its ends changes nothing |
| LoadProxy.TrimNoNewline | src/utils/loadProxy.ts:13 | trimming introduces no newline |
| LoadProxy.Split | src/utils/loadProxy.ts:12 | splitting gives at least one piece, and no piece holds a newline |
| LoadProxy.JoinSplit | src/utils/loadProxy.ts:12 | joining the pieces with newlines gives back the text |
| LoadProxy.SplitLine | src/utils/loadProxy.ts:12 | a line without a newline splits into itself |
| LoadProxy.SplitAppend | src/utils/loadProxy.ts:12 | text joined at a newline splits into the pieces of each side |
| LoadProxy.SplitJoin | src/utils/loadProxy.ts:12 | splitting the join of newline-free lines gives back the lines |
| LoadProxy.TrimAllAppend | src/utils/loadProxy.ts:13 | trimming works line by line |
| LoadProxy.TrimAllProxyLines | src/utils/loadProxy.ts:12-13 | trimmed split lines have no whitespace at their ends and no newline |
| LoadProxy.KeepLinesSound | src/utils/loadProxy.ts:14 | the filter keeps only non-empty lines that do not start with '#' |
| LoadProxy.KeepLinesComplete | src/utils/loadProxy.ts:14 | the filter drops no non-empty, non-comment line |
| LoadProxy.KeepAppend | src/utils/loadProxy.ts:14 | filtering works line by line and keeps order |
| LoadProxy.ParseProxyList | src/utils/loadProxy.ts:11-14 | every returned address is non-empty, has no whitespace at its ends, holds no newline and does not start with '#' |
| LoadProxy.ParseComplete | src/utils/loadProxy.ts:11-14 | every line whose trimmed form is neither empty nor a comment is returned, indented comments being dropped |
| LoadProxy.ParseAppend | src/utils/loadProxy.ts:11-14 | the parse of two texts joined at a newline is the parse of the first followed by the parse of the second |
| LoadProxy.ParseLine | src/utils/loadProxy.ts:11-14 | a single line parses to its trimmed form unless that is empty or a comment |
| LoadProxy.ParseJoin | src/utils/loadProxy.ts:11-14 | parsing the newline-join of lines the parser would return gives them back |
| LoadProxy.ParseRoundTrip | src/utils/loadProxy.ts:11-14 | writing the parsed list one address per line and parsing again gives the same list |
| LoadProxy.LoadProxiesFromFile | src/utils/loadProxy.ts:8-19 | a failed read gives the empty list; otherwise the result is the parse of the text, and every element is a proxy line |
| Balancer.ResolveOptions | src/ProxyBalancer.ts:27-31 | an absent option takes its default (3, 5000, 60000, 5, 'https://example.com'), and a present one, 0 included, is kept |
| Balancer.ResolveOptionsJs | src/ProxyBalancer.js:13-17 | field by field, an absent or falsy option (0, the empty string) takes its default and any other value is kept; so no resolved number is 0 and the test address is never empty |
| Balancer.ResolveAgreement | src/ProxyBalancer.js:13-17 | the two variants resolve the same settings exactly when no option is given as 0 or as the empty string |
| Balancer.StaggerOffset | src/ProxyBalancer.ts:68 | the delay is a whole number of 500 ms slots below `concurrentTests` slots, and it is 0 when `concurrentTests` is 0 |
| Balancer.StaggerSameSlot | src/ProxyBalancer.ts:68 | two entries start together exactly when their indices agree modulo `concurrentTests` |
| Balancer.StaggerFirstRound | src/ProxyBalancer.ts:68 | an entry whose index is below `concurrentTests` starts `index` slots of 500 ms in |
| Balancer.StaggerPeriodic | src/ProxyBalancer.ts:68 | the start delays repeat every `concurrentTests` entries |
| Balancer.Schedule | src/ProxyBalancer.ts:59-70 | one start delay per entry |
| Balancer.ScheduleExample | src/ProxyBalancer.ts:59-70 | two slots over five entries start at 0, 500, 0, 500, 0 ms |
| Balancer.Filter | src/ProxyBalancer.ts:82 | the filter keeps only registry entries of its bucket and is no longer than the registry |
| Balancer.FilterComplete | src/ProxyBalancer.ts:82 | the filter drops no entry of its bucket |
| Balancer.FilterAppend | src/ProxyBalancer.ts:133 | filtering works entry by entry, so it keeps registry order |
| Balancer.ActiveFailedPartition | src/ProxyBalancer.ts:151-153 | the active and the failed entries together are exactly the registry |
| Balancer.ActiveFailedCount | src/ProxyBalancer.ts:151-153 | the numbers of active and failed entries add up to the registry size |
| Balancer.FirstActive | src/ProxyBalancer.ts:82-88 | the index of the first entry below the failure threshold, or the length when there is none |
| Balancer.FirstAvailable | src/ProxyBalancer.ts:82-88 | `availableProxies` is empty exactly when no entry is active, and its first element is the first active entry |
| Balancer.RankedChoice | src/ProxyBalancer.ts:81-88 | the ranked registry holds the same records once each, and the entry picked from it is a record of the registry |
| Balancer.BestIsMinimal | src/ProxyBalancer.ts:81-88 | nothing is picked exactly when every entry is exhausted; otherwise no active entry has a lower latency, or the same latency with fewer failures |
| Balancer.RankByLatency | src/ProxyBalancer.ts:118-120 | exactly the active entries with a measured latency, in ascending milliseconds |
| Balancer.RankByLatencyStable | src/ProxyBalancer.ts:118-120 | measured entries of equal latency keep their registry order (the sort is stable) |
| Balancer.LatencySumAppend | src/ProxyBalancer.ts:158 | the latency sum, with a missing latency counted as 0, adds up over concatenation |
| Balancer.RoundDiv | src/ProxyBalancer.ts:157-160 | the result is the integer nearest to `sum / n`, with halves rounded up |
| Balancer.StatsOf | src/ProxyBalancer.ts:107-114 | a row has the entry's address and failures; its latency is present exactly when finite, and its last use is present exactly when the entry was ever selected |
| Balancer.StatsList | src/ProxyBalancer.ts:107-114 | one row per entry, in order |
| Balancer.Addresses | src/ProxyBalancer.ts:35-50 | the addresses are the array itself, or the loaded list for a file path |
| Balancer.ProxyBalancer.constructor | src/ProxyBalancer.ts:25-32 | the settings are the `??` resolution of the options, and the registry is empty |
| Balancer.ProxyBalancer.WithJsDefaults | src/ProxyBalancer.js:7-18 | the settings are the `||` resolution of the options, and the registry is empty |
| Balancer.ProxyBalancer.Init | src/ProxyBalancer.ts:34-54 | one fresh record per address, in order with duplicates kept, each unknown, unfailed and unused; any other source is rejected and leaves the registry as it was |
| Balancer.ProxyBalancer.RefreshProxies | src/ProxyBalancer.ts:56-74 | every entry is probed exactly once with its own outcome, `lastUsed` is untouched, the start delays follow the stagger schedule, and there is no error result |
| Balancer.ProxyBalancer.GetBestProxy | src/ProxyBalancer.ts:76-99 | an empty registry is rejected untouched. Otherwise the registry becomes its ranking, and stays so when every entry is exhausted. The first active ranked entry alone gets `lastUsed = now`, and its address is returned unless building the agent fails. No latency or failure count changes |
| Balancer.ProxyBalancer.GetProxyStats | src/ProxyBalancer.ts:106-115 | one row per entry, in registry order |
| Balancer.ProxyBalancer.GetProxyStatsJs | src/ProxyBalancer.js:89-100 | the empty list for an empty registry, and the same rows otherwise |
| Balancer.ProxyBalancer.StatsVariantsAgree | src/ProxyBalancer.js:90 | the early return changes nothing: both variants report the same rows |
| Balancer.ProxyBalancer.MeasuredRanking | src/ProxyBalancer.ts:118-120 | exactly the registry's active entries with a measured latency, in ascending milliseconds |
| Balancer.ProxyBalancer.SortByLatency | src/ProxyBalancer.ts:117-130 | row i is the row of the i-th entry of the latency ranking (MeasuredRanking), one per active measured entry; each has a latency and is below the threshold, in ascending latency |
| Balancer.ProxyBalancer.SortByLatencyComplete | src/ProxyBalancer.ts:119 | every active entry with a measured latency is reported |
| Balancer.ProxyBalancer.GetFailedProxies | src/ProxyBalancer.ts:132-143 | row i is the row of the i-th exhausted entry in registry order, so exactly the entries at or over the threshold, in registry order |
| Balancer.ProxyBalancer.GetFailedProxiesComplete | src/ProxyBalancer.ts:133 | every exhausted entry is reported |
| Balancer.ProxyBalancer.GetStatsSummary | src/ProxyBalancer.ts:145-169 | total is the registry size and active the number of entries below the threshold. Failed is the rest, as many as `getFailedProxies` reports. The mean is absent exactly when nothing is active, and otherwise is the rounded mean latency of the active entries with a missing latency counted as 0 |
| Balancer.SummaryExample | src/ProxyBalancer.ts:151-167 | entries of 100 ms, unknown, and unknown with 3 failures, under threshold 3, summarise to 3 total, 2 active, 1 failed and a mean of 50 ms |

## Left out

- Logging (`src/utils/logger.ts`, `src/utils/logger.js`): console and file output with timestamps, which has no effect on the state. It is not part of this model.
- Agent creation (`src/utils/createAgent.ts` and the inline `proxy-agent` imports): a call into a foreign library. Its only modelled effect is that it can fail. In `testProxy` that is the `AgentError` outcome; in `getBestProxy` it is the `agentOk` parameter.
- The HTTP request of `testProxy` and the clock: replaced by the `ProbeOutcome` parameter (status and elapsed time, or the kind of error) and by the `now` parameter of `GetBestProxy`. The request timeout is part of the outcome.
- Asynchrony: `setTimeout`, `Promise.all` and `startAutoRefresh`'s `setInterval`. A refresh is a sequential loop that applies one outcome per entry and returns each entry's start delay. Since each probe writes only its own record, the order of the probes does not change the final state. Overlapping refresh cycles are not modelled.
- `fs.readFile`: the text read, or the failure, is the `ReadResult` parameter. Only the parse and the error-gives-empty-list branch are modelled.
- Rendering: the `"<n> ms"` strings and `toLocaleString` dates of the report rows are not modelled. The rows carry `Option` numbers instead, with `None` for 'N/A' and 'Never used'.
- Floating point: `Infinity`, `NaN` and `Number.MAX_VALUE` become the `Latency` datatype, and latencies and counters are unbounded naturals. Negative, fractional or non-finite options, and number overflow, are not modelled.
- Strings are sequences of code points, not UTF-16 code units. Trimming uses the ECMAScript whitespace and line-terminator set.
- `testTimeout` and `refreshInterval` are resolved and stored, but their only uses are the request timeout and the refresh timer, which are both outside the model.
- Balancer.Schedule: states only its length. The value of each delay is stated by StaggerOffset, StaggerFirstRound and StaggerPeriodic, and ScheduleExample works one schedule out.
- The type declarations (`src/interfaces/interfaces.ts`) and the unused default-constants object (`src/config/defaultConfig.ts`) have no behaviour of their own. They are not part of this model beyond the types in `Interfaces.dfy`.
