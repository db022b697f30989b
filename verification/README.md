# kubectl-triage decision core in Dafny

`kubectl triage <pod>` looks at one Kubernetes pod and decides whether there
is anything to show. If there is, it builds a report that puts failures
first. This project models the decision core of `pkg/plugin/plugin.go`:

- **Health gate.** `isPodTrulyHealthy` checks that the pod is Running, that
  every Ready condition is True and that no container has ever restarted.
  `getReadyCount` produces the "ready/total" text.
- **Container classifier.** `identifyFailedContainers` gives each container
  a state label, a reason and a failed flag, and puts it in the failed list
  or the healthy list.
- **Event filter and ranking.** `getRelevantEvents` keeps the Warning and
  Error events and orders them newest first with an in-place exchange sort.
- **Log collection.** `collectLogs` fetches the previous-run log and the
  current-run log of every failed-list container, each result at that
  container's position.
- **Report.** `displayTriage`, `printHighlightedLogs` and `formatDuration`
  decide what the report shows:
  - at most ten events, under the first container only;
  - log sections, with blank lines dropped and keyword highlighting;
  - the line summarising the healthy containers;
  - durations such as "30s", "5m", "3h" and "2d".
- **The run.** `RunPlugin` goes through namespace resolution, fetching the
  pod, the gate (bypassed by `--force`), classification, the event listing
  and the logs, and ends in one of three ways: healthy exit, fatal error or
  report.

The Kubernetes API calls are parameters of `Plugin.RunPlugin`. Getting the
pod, listing the events and fetching one log are each a function that
returns a value or an error message. The report is a value: the view of
each failed-list container plus the healthy summary. It is not printed
text.

Modules:
- `Wrappers`: Option and Result.
- `Text`: substring search, decimal formatting, `strings.Join`,
  `strings.Split` on line feeds.
- `Sequences`: interleavings and order-preserving subsequences.
- `Types`: the Kubernetes and plugin records.
- `HealthGate`, `Classifier`, `EventRanking`, `Display` and `Plugin`: the
  components of the core.

Seven methods with loops model nine of the source's loops. Each method is
proved equal to a function, or to the membership test it implements, and the
properties are then proved about that function:
- `GetReadyCount`, the counting loop (plugin.go:143-147);
- `IsListedReason`, both reason scans with early exit (plugin.go:177-182 for
  waiting containers and plugin.go:190-195 for terminated ones);
- `IdentifyFailedContainers`, the loop over container statuses (plugin.go:156-206);
- `CollectRelevant`, the event filter (plugin.go:221-231);
- `HasKeyword`, the keyword scan (plugin.go:409-414);
- `HighlightLogs`, the line loop (plugin.go:402-421);
- `RankEvents`, both loops of the exchange sort, in place on an array
  (plugin.go:235-241).

The two loops of `isPodTrulyHealthy` with early return (plugin.go:121-134) are
the recursive predicates `HealthGate.ReadyConditionsHold` and
`HealthGate.NoRestarts`. `HealthGate.IsPodTrulyHealthy` states their meaning as
quantifiers.

Four loops that only build a list element by element are modelled as
sequence comprehensions:
- displayTriage's loop over the failed containers (plugin.go:304), as
  `Display.DisplayTriage`;
- its event loop with a counter and a break at ten (plugin.go:326-344), as
  `Display.CriticalEvents`;
- the loop that builds the healthy entries (plugin.go:384-386), as
  `Display.HealthyEntries`;
- collectLogs' loop that starts one fetch per container (plugin.go:251), as
  `Plugin.CollectLogs`.

**The event ranking is not stable.** The exchange sort (plugin.go:235-241)
can reorder events with equal timestamps. `EventRanking.ExchangeSortReordersTies`
shows A (timestamp 1), B (timestamp 1) and C (timestamp 2) leaving as C, B, A.

## Model

| member | source | states |
|---|---|---|
| HealthGate.ReadyConditionsHold | pkg/plugin/plugin.go:121-127 | true exactly when every condition of type Ready has status True; conditions of other types are ignored |
| HealthGate.NoRestarts | pkg/plugin/plugin.go:130-134 | true exactly when every container's restart count is 0 |
| HealthGate.IsPodTrulyHealthy | pkg/plugin/plugin.go:114-137 | healthy exactly when phase is Running and all Ready conditions are True and no container restarted, in both directions |
| HealthGate.RestartFailsGate | pkg/plugin/plugin.go:129-134 | one container with a restart count above 0 fails the gate whatever the phase and conditions |
| HealthGate.HealthGateVectors | pkg/plugin/plugin_test.go:17-125 | the five health cases (healthy, Pending, not Ready, restarted, one of two restarted), plus a Running pod with no conditions or containers passing |
| HealthGate.CountReady | pkg/plugin/plugin.go:141-147 | the count is at most the number of containers; it equals it exactly when all are ready and is 0 exactly when none is |
| HealthGate.ReadyText | pkg/plugin/plugin.go:148 | read back, the digits before the "/" are the ready count and the digits after it the container total |
| HealthGate.GetReadyCount | pkg/plugin/plugin.go:140-149 | the counting loop's text is ReadyText of the statuses |
| HealthGate.ReadyCountVectors | pkg/plugin/plugin_test.go:149-184 | "1/1", "0/2" and "1/3" for the three test pods |
| Classifier.IsListedReason | pkg/plugin/plugin.go:177-182 | the scan with early exit finds the reason exactly when it is in the list |
| Classifier.ClassifyContainer | pkg/plugin/plugin.go:156-199 | name and restart count are copied; Waiting takes precedence over Terminated, which takes precedence over Running; failed exactly when restarted, or a listed Waiting reason, or (no Waiting state) a listed Terminated reason |
| Classifier.RestartedIsFailed | pkg/plugin/plugin.go:163-166 | a restarted container is failed whatever its state |
| Classifier.Classified | pkg/plugin/plugin.go:156-199 | one verdict per container status, in input order |
| Classifier.Partition | pkg/plugin/plugin.go:152-208 | the two lists together are as long as the input; the healthy list holds only non-failed containers; without allContainers the failed list holds only failed ones; with it the healthy list is empty |
| Classifier.IdentifyFailedContainers | pkg/plugin/plugin.go:152-208 | the loop with in-place record updates and early-exit reason scans yields exactly Partition's two lists |
| Classifier.PartitionInterleaves | pkg/plugin/plugin.go:201-205 | the failed and healthy lists interleave to the classified input, so each keeps the input order and no container is lost or doubled |
| Sequences.InterleavingKeepsElements | pkg/plugin/plugin.go:201-205 | an interleaving's two sides hold every element exactly as often as the whole does (multisets) |
| Sequences.InterleavingSubsequences | pkg/plugin/plugin.go:201-205 | both sides of an interleaving are order-preserving subsequences of it |
| Classifier.PartitionAllContainers | pkg/plugin/plugin.go:201-202 | with allContainers the failed list is every verdict in input order and the healthy list is empty |
| Classifier.ClassifierVectors | pkg/plugin/plugin_test.go:207-345 | CrashLoopBackOff, OOMKilled, restarted-but-running, one-of-two, all-healthy and all-containers cases land in the expected lists |
| EventRanking.Relevant | pkg/plugin/plugin.go:220-231 | no longer than the listing, and every kept event is of type Warning or Error |
| EventRanking.RelevantCounts | pkg/plugin/plugin.go:223 | every Warning or Error event is kept exactly as often as it occurs, and every other event is dropped |
| EventRanking.NoRelevantEvents | pkg/plugin/plugin.go:220-231 | a listing with no Warning or Error event leaves nothing |
| EventRanking.CollectRelevant | pkg/plugin/plugin.go:220-231 | the appending loop yields exactly Relevant of the listing |
| EventRanking.Swap | pkg/plugin/plugin.go:238 | keeps the length and exchanges the events at the two positions |
| EventRanking.SwapKeepsOthers | pkg/plugin/plugin.go:238 | every position other than the two exchanged keeps its event |
| EventRanking.SwapIsPermutation | pkg/plugin/plugin.go:238 | an exchange keeps the multiset of events and leaves the events before the first position alone |
| EventRanking.InnerPass | pkg/plugin/plugin.go:236-240 | the inner loop from position j on, exchanging whenever position i holds the older event; keeps the length |
| EventRanking.OuterPass | pkg/plugin/plugin.go:235-241 | the outer loop from position i on; keeps the length |
| EventRanking.ExchangeSort | pkg/plugin/plugin.go:235-241 | the whole nested loop on a sequence; keeps the length (order and permutation in ExchangeSortSorts) |
| EventRanking.InnerPassPermutes | pkg/plugin/plugin.go:236-240 | an inner pass keeps the multiset of events |
| EventRanking.InnerPassKeepsPrefix | pkg/plugin/plugin.go:236-240 | an inner pass leaves the part before position i unchanged |
| EventRanking.InnerPassSelectsLatest | pkg/plugin/plugin.go:236-240 | after an inner pass, position i holds an event at least as late as every later position |
| EventRanking.SamePrefixSameSuffix | pkg/plugin/plugin.go:235-241 | a permutation that keeps the prefix before i draws every later event from the original suffix |
| EventRanking.OuterStepSettles | pkg/plugin/plugin.go:235-241 | each outer step extends the newest-first settled prefix by one position, as a permutation |
| EventRanking.OuterPassSorts | pkg/plugin/plugin.go:235-241 | the remaining outer passes produce a newest-first permutation |
| EventRanking.ExchangeSortSorts | pkg/plugin/plugin.go:233-241 | the exchange sort's result is ordered newest first and is a permutation of its input |
| EventRanking.RankedEventsAreRelevant | pkg/plugin/plugin.go:220-241 | every event of the ranked filtered listing is of type Warning or Error |
| EventRanking.ExchangeSortReordersTies | pkg/plugin/plugin.go:237 | the sort is not stable: A, B with equal timestamps and a later C come out as C, B, A |
| EventRanking.RankEvents | pkg/plugin/plugin.go:235-241 | the nested in-place exchange loops leave the array equal to ExchangeSort of its old contents, newest first and a permutation |
| EventRanking.GetRelevantEvents | pkg/plugin/plugin.go:212-244 | a failed listing is passed on as the error; otherwise the result is the ranked Warning and Error events, newest first, the same multiset as the filtered listing |
| Display.CriticalEvents | pkg/plugin/plugin.go:324-344 | no event lines except under the first container; there, min(events, 10) lines, each the event at the same position, emphasised exactly when the type is Error or the reason contains "Failed" |
| Display.HasKeyword | pkg/plugin/plugin.go:407-415 | the scan with early exit reports a keyword exactly when the line contains one of the keywords |
| Display.SelectLines | pkg/plugin/plugin.go:402-422 | no more lines than the input, none of them blank, each highlighted exactly when colour is on and it mentions a keyword |
| Display.SelectLinesInOrder | pkg/plugin/plugin.go:402-422 | the shown lines are the log's lines in log order with some left out (with SelectLinesCounts: exactly the non-blank ones) |
| Display.SelectLinesCounts | pkg/plugin/plugin.go:402-405 | every non-blank line is shown exactly as often as it occurs, and blank lines never |
| Display.TextsStep | pkg/plugin/plugin.go:402-405 | one more line adds its text to the shown texts unless it is blank |
| Display.HighlightLogs | pkg/plugin/plugin.go:395-423 | the line loop with skip and per-line keyword scan yields SelectLines of the log split on line feeds |
| Display.PreviousSection | pkg/plugin/plugin.go:353-363 | a section appears exactly when the previous log was read and is not empty, or reading failed with a message not naming "previous terminated container"; lines come from the log, the note carries the error |
| Display.CurrentSection | pkg/plugin/plugin.go:366-376 | the only case with no section is a current log that was read and is empty; any error gives a note |
| Display.HealthyEntry | pkg/plugin/plugin.go:385 | the entry starts with the container's name followed by " (" and ends with " restarts)" |
| Display.HealthyEntryReadsBack | pkg/plugin/plugin.go:385 | an entry reads back: the name, " (", the state, ", ", digits whose decimal value is the restart count, then " restarts)" |
| Display.HealthyEntries | pkg/plugin/plugin.go:384-386 | one "name (state, N restarts)" entry per healthy container, in order |
| Display.SummarizeHealthy | pkg/plugin/plugin.go:380-391 | no summary exactly when there are no healthy containers; the count is the number of healthy containers and the listing is their entries, in order, joined by ", " |
| Display.SummaryListsEveryContainer | pkg/plugin/plugin.go:383-389 | every healthy container's entry occurs in the summary listing |
| Display.SidecarEntry | pkg/plugin/plugin.go:385 | a running sidecar without restarts is listed as "sidecar (Running, 0 restarts)" |
| Display.SidecarSummary | pkg/plugin/plugin.go:380-391 | one running sidecar gives the count 1 and "sidecar (Running, 0 restarts)" |
| Display.FormatDuration | pkg/plugin/plugin.go:426-436 | at least two characters ending in s, m, h or d; seconds exactly under a minute, days exactly from a day on |
| Display.FormatDurationMeaning | pkg/plugin/plugin.go:426-436 | the text is decimal digits then a unit s, m, h or d; count units fit in the duration and one more would not; seconds stay under 60, minutes 1 to 59, hours 1 to 23, days at least 1 |
| Display.SecondsBand | pkg/plugin/plugin.go:427-428 | under a minute the text reads as the whole seconds followed by "s" |
| Display.MinutesBand | pkg/plugin/plugin.go:429-430 | under an hour the text reads as the whole minutes (1 to 59) followed by "m" |
| Display.HoursBand | pkg/plugin/plugin.go:431-432 | under a day the text reads as the whole hours (1 to 23) followed by "h" |
| Display.DaysBand | pkg/plugin/plugin.go:433-435 | from a day on the text reads as the whole days followed by "d" |
| Display.ReadBack | pkg/plugin/plugin.go:428 | a decimal count followed by a unit letter reads back as that count and that unit |
| Display.FormatDurationVectors | pkg/plugin/plugin_test.go:374-403 | 30s, 59s, 60s as "1m", 5m, 3h, and 48h as "2d" |
| Display.ViewContainer | pkg/plugin/plugin.go:304-377 | the container's own record, the pod's phase and ready text; events equal to CriticalEvents at the container's position; the previous and current sections of the log result at the same position, none where no result exists |
| Display.DisplayTriage | pkg/plugin/plugin.go:300-392 | one view per failed-list container in order, each with the pod's phase and ready text; events only under the first, capped at ten, each the ranked event at its position with its emphasis; previous and current sections from the log result at the same position, none where no result exists; the healthy summary |
| Plugin.ResolveNamespace | pkg/plugin/plugin.go:66-74 | never empty; the option if set, else a non-empty namespace flag, else "default" |
| Plugin.ResolvedNamespaceIsKept | pkg/plugin/plugin.go:66-74 | resolving an already resolved namespace keeps it, whatever flag comes with it |
| Plugin.CollectLogs | pkg/plugin/plugin.go:247-279 | one result per container at its own position, named after it, holding that container's previous-run and current-run fetch with the same tail length |
| Plugin.ReportShowsFailuresAndWarnings | pkg/plugin/plugin.go:91-104 | a report shows only failed containers unless allContainers is set, and only Warning and Error events |
| Plugin.RunPlugin | pkg/plugin/plugin.go:55-107 | a pod that cannot be fetched is fatal; a healthy pod without force exits with its ready text before events are looked at; a failed event listing is fatal; otherwise the report of the classified lists, ranked events and collected logs; a healthy exit never happens with force |
| Text.NatToDecimal | pkg/plugin/plugin.go:148 | at least one digit, all decimal, a leading zero only for 0 |
| Text.DecimalRoundTrip | pkg/plugin/plugin.go:148 | reading back the decimal text of n gives n |
| Text.DecimalInjective | pkg/plugin/plugin.go:148 | two numbers with the same decimal text are equal |
| Text.Contains | pkg/plugin/plugin.go:338 | a prefix or a suffix of the text is contained in it; a contained string is no longer than the text (also used at plugin.go:359 and :410) |
| Text.Join | pkg/plugin/plugin.go:389 | no parts give ""; otherwise the joined text starts with the first part |
| Text.JoinContainsPart | pkg/plugin/plugin.go:389 | every part occurs in the joined string |
| Text.JoinLength | pkg/plugin/plugin.go:389 | the joined length is the parts' total length plus one separator between each pair of neighbours |
| Text.SplitLines | pkg/plugin/plugin.go:396 | at least one piece, no piece holds a line feed, and joining the pieces with line feeds gives the input back |
| Text.SplitJoinLines | pkg/plugin/plugin.go:396 | splitting lines joined by line feeds gives the lines back, when no line holds a line feed |

## Left out

- Kubernetes client I/O: kubeconfig loading, clientset creation and their two error returns (plugin.go:56-64) are not modelled. The API calls are function parameters that return a value or an error message.
- `fetchLog` (plugin.go:282-297): stream reading and closing are not modelled. A fetch is either the text read or the error's message.
- Concurrency: `collectLogs` runs one goroutine per container and waits for all of them. The model computes the same index-aligned results sequentially. Since each goroutine writes only its own slot, the order of completion does not change the result.
- Printing: the logger, emoji, colours, banners, separator lines and the "Last 50 lines" headings are not modelled. The report is a value, not text.
- Display.CriticalEvents: the "ago" column (`time.Since` on the wall clock, rounded to the second) and the `%-7s`/`%-15s` padding are not part of an event line. The clock is outside the model. The line carries the event itself and its emphasis.
- Display.FormatDuration: only non-negative durations are modelled, as integer nanoseconds with truncating division. Go's float conversion through `Seconds()`/`Minutes()`/`Hours()` is not modelled, and neither is a negative duration (a clock skew).
- Restart counts are non-negative 32-bit integers. The Kubernetes API never reports a negative one.
- The cobra command line (cmd/plugin/cli/root.go) is not part of this model. Namespace and flag values arrive as `TriageOptions` and an optional namespace flag.
- Stability of the event ranking is not proved, because it does not hold. `EventRanking.ExchangeSortReordersTies` gives an example.
