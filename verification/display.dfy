/**
 * What displayTriage and printHighlightedLogs decide to show, returned as
 * a value instead of printed: the event lines and their emphasis, which
 * log sections appear, which log lines are shown and highlighted, the
 * healthy-container summary, and the duration text of formatDuration.
 */
module Display {
  import opened Wrappers
  import opened Types
  import opened Text
  import opened Sequences
  import HealthGate

  /** At most this many events are listed. */
  const MaxEvents := 10

  /** An event line and whether it is shown as an error. */
  datatype EventLine = EventLine(event: Event, emphasised: bool)

  function Min(a: int, b: int): (m: int)
    ensures m <= a && m <= b && (m == a || m == b)
  {
    if a < b then a else b
  }

  /**
   * The event lines under the failed container at position `index`: the
   * first ten ranked events under the first container, nothing under the
   * others. A line is emphasised when its type is Error or its reason
   * mentions "Failed".
   */
  function CriticalEvents(index: nat, events: seq<Event>): (lines: seq<EventLine>)
    ensures index != 0 ==> lines == []
    ensures index == 0 ==> |lines| == Min(|events|, MaxEvents)
    ensures forall k | 0 <= k < |lines| ::
      && lines[k].event == events[k]
      && (lines[k].emphasised <==> events[k].kind == "Error" || Contains(events[k].reason, "Failed"))
  {
    if index != 0 then []
    else
      var shown := events[..Min(|events|, MaxEvents)];
      seq(|shown|, k requires 0 <= k < |shown| =>
        EventLine(shown[k], shown[k].kind == "Error" || Contains(shown[k].reason, "Failed")))
  }

  /** A shown log line and whether it is highlighted. */
  datatype LogLine = LogLine(text: string, highlighted: bool)

  /** Words that make a log line stand out. */
  const Keywords: seq<string> :=
    ["ERROR", "error", "Error", "panic", "PANIC", "Panic",
     "fatal", "FATAL", "Fatal", "exception", "Exception", "EXCEPTION",
     "failed", "Failed", "FAILED", "killed", "Killed", "KILLED", "OOMKilled"]

  predicate MentionsKeyword(line: string) {
    exists k | 0 <= k < |Keywords| :: Contains(line, Keywords[k])
  }

  /** Tries the keywords in order and stops at the first one the line contains. */
  method HasKeyword(line: string, keywords: seq<string>) returns (found: bool)
    ensures found <==> exists k | 0 <= k < |keywords| :: Contains(line, keywords[k])
  {
    found := false;
    for k := 0 to |keywords|
      invariant !found && forall m | 0 <= m < k :: !Contains(line, keywords[m])
    {
      if Contains(line, keywords[k]) {
        found := true;
        break;
      }
    }
  }

  /** The lines that are shown, in order: blank ones are skipped; highlighting needs colour and a keyword. */
  function SelectLines(lines: seq<string>, noColor: bool): (shown: seq<LogLine>)
    ensures |shown| <= |lines|
    ensures forall k | 0 <= k < |shown| ::
      shown[k].text != "" && (shown[k].highlighted <==> !noColor && MentionsKeyword(shown[k].text))
    decreases |lines|
  {
    if lines == [] then []
    else
      var line := lines[|lines| - 1];
      var shown := SelectLines(lines[..|lines| - 1], noColor);
      if line == "" then shown else shown + [LogLine(line, !noColor && MentionsKeyword(line))]
  }

  function Texts(shown: seq<LogLine>): (texts: seq<string>)
    ensures |texts| == |shown|
    decreases |shown|
  {
    if shown == [] then [] else Texts(shown[..|shown| - 1]) + [shown[|shown| - 1].text]
  }

  /** Every non-blank line is shown as often as it occurs, and no blank line is. */
  lemma {:induction false} SelectLinesCounts(lines: seq<string>, noColor: bool, line: string)
    ensures multiset(Texts(SelectLines(lines, noColor)))[line] == if line == "" then 0 else multiset(lines)[line]
    decreases |lines|
  {
    if lines != [] {
      var init := lines[..|lines| - 1];
      var last := lines[|lines| - 1];
      SelectLinesCounts(init, noColor, line);
      assert lines == init + [last];
      assert multiset(lines) == multiset(init) + multiset{last};
      TextsStep(lines, noColor);
    }
  }

  /** One more line adds its text to the shown texts unless it is blank. */
  lemma TextsStep(lines: seq<string>, noColor: bool)
    requires lines != []
    ensures var last := lines[|lines| - 1];
      Texts(SelectLines(lines, noColor))
      == Texts(SelectLines(lines[..|lines| - 1], noColor)) + (if last == "" then [] else [last])
  {
    var shown := SelectLines(lines[..|lines| - 1], noColor);
    var last := lines[|lines| - 1];
    if last != "" {
      var shown' := shown + [LogLine(last, !noColor && MentionsKeyword(last))];
      assert shown'[..|shown'| - 1] == shown;
    }
  }

  /** The shown lines keep the log's order: they are the log with lines left out. */
  lemma {:induction false} SelectLinesInOrder(lines: seq<string>, noColor: bool)
    ensures Subsequence(Texts(SelectLines(lines, noColor)), lines)
    decreases |lines|
  {
    if lines != [] {
      var init := lines[..|lines| - 1];
      var last := lines[|lines| - 1];
      SelectLinesInOrder(init, noColor);
      TextsStep(lines, noColor);
      var texts := Texts(SelectLines(lines, noColor));
      if last != "" {
        assert texts[..|texts| - 1] == Texts(SelectLines(init, noColor));
      }
    }
  }

  /** printHighlightedLogs: splits the log on line feeds and scans it line by line. */
  method HighlightLogs(logs: string, noColor: bool) returns (shown: seq<LogLine>)
    ensures shown == SelectLines(SplitLines(logs), noColor)
  {
    var lines := SplitLines(logs);
    shown := [];
    for i := 0 to |lines|
      invariant shown == SelectLines(lines[..i], noColor)
    {
      assert lines[..i + 1][..i] == lines[..i];
      var line := lines[i];
      if line == "" {
        continue;
      }
      var highlight := false;
      if !noColor {
        highlight := HasKeyword(line, Keywords);
      }
      shown := shown + [LogLine(line, highlight)];
    }
    assert lines[..|lines|] == lines;
  }

  /** A log section: its lines, a note that the log could not be read, or nothing at all. */
  datatype LogSection = Omitted | Shown(lines: seq<LogLine>) | Unavailable(message: string)

  /** The error a container that never restarted gives for its previous log; it is expected, not reported. */
  const ExpectedPreviousError := "previous terminated container"

  /**
   * The previous-run section: its lines when the log was read and is not
   * empty, a note when reading failed for any reason but the expected one,
   * nothing otherwise.
   */
  function PreviousSection(previous: LogFetch, noColor: bool): (section: LogSection)
    ensures !section.Omitted? <==>
      || (previous.Fetched? && previous.text != "")
      || (previous.FetchFailed? && !Contains(previous.message, ExpectedPreviousError))
    ensures section.Shown? ==> previous.Fetched? && section.lines == SelectLines(SplitLines(previous.text), noColor)
    ensures section.Unavailable? ==> previous.FetchFailed? && section.message == previous.message
  {
    match previous
    case Fetched(text) => if text != "" then Shown(SelectLines(SplitLines(text), noColor)) else Omitted
    case FetchFailed(message) => if !Contains(message, ExpectedPreviousError) then Unavailable(message) else Omitted
  }

  /** The current-run section: its lines when the log was read and is not empty, a note on any error. */
  function CurrentSection(current: LogFetch, noColor: bool): (section: LogSection)
    ensures section.Omitted? <==> current == Fetched("")
    ensures section.Shown? ==> current.Fetched? && section.lines == SelectLines(SplitLines(current.text), noColor)
    ensures section.Unavailable? ==> current.FetchFailed? && section.message == current.message
  {
    match current
    case Fetched(text) => if text != "" then Shown(SelectLines(SplitLines(text), noColor)) else Omitted
    case FetchFailed(message) => Unavailable(message)
  }

  /** "name (State, N restarts)". */
  function HealthyEntry(c: ContainerInfo): (entry: string)
    ensures |c.name| + 2 <= |entry| && entry[..|c.name| + 2] == c.name + " ("
    ensures 10 <= |entry| && entry[|entry| - 10..] == " restarts)"
  {
    c.name + " (" + c.state + ", " + NatToDecimal(c.restartCount) + " restarts)"
  }

  /**
   * An entry reads back: after the name and " (" comes the state, then ", ",
   * then digits whose value is the restart count, then " restarts)".
   */
  lemma HealthyEntryReadsBack(c: ContainerInfo)
    ensures var entry, n := HealthyEntry(c), |c.name| + 2;
      && n + |c.state| + 2 < |entry| - 10
      && entry[..|c.name|] == c.name && entry[|c.name|..n] == " ("
      && entry[n..n + |c.state|] == c.state && entry[n + |c.state|..n + |c.state| + 2] == ", "
    ensures var entry, m := HealthyEntry(c), |c.name| + |c.state| + 4;
      && m < |entry| - 10
      && IsDecimal(entry[m..|entry| - 10]) && DecimalValue(entry[m..|entry| - 10]) == c.restartCount
  {
    var count := NatToDecimal(c.restartCount);
    DecimalRoundTrip(c.restartCount);
    SixParts(c.name, " (", c.state, ", ", count, " restarts)");
  }

  /** A text made of six parts gives each part back, cut at the running lengths. */
  lemma SixParts(a: string, b: string, c: string, d: string, e: string, f: string)
    ensures var s, i := a + b + c + d + e + f, |a| + |b| + |c| + |d|;
      && s[..|a|] == a && s[|a|..|a| + |b|] == b && s[|a| + |b|..|a| + |b| + |c|] == c
      && s[|a| + |b| + |c|..i] == d && s[i..i + |e|] == e && s[i + |e|..] == f
  {
    var p1 := a + b;
    var p2 := p1 + c;
    var p3 := p2 + d;
    var p4 := p3 + e;
    CutLeft(p4, f, 0, |a|); CutLeft(p3, e, 0, |a|); CutLeft(p2, d, 0, |a|); CutLeft(p1, c, 0, |a|); CutLeft(a, b, 0, |a|);
    CutLeft(p4, f, |a|, |p1|); CutLeft(p3, e, |a|, |p1|); CutLeft(p2, d, |a|, |p1|); CutLeft(p1, c, |a|, |p1|); CutRight(a, b);
    CutLeft(p4, f, |p1|, |p2|); CutLeft(p3, e, |p1|, |p2|); CutLeft(p2, d, |p1|, |p2|); CutRight(p1, c);
    CutLeft(p4, f, |p2|, |p3|); CutLeft(p3, e, |p2|, |p3|); CutRight(p2, d);
    CutLeft(p4, f, |p3|, |p4|); CutRight(p3, e);
    CutRight(p4, f);
  }

  /** A cut that ends within the first part of a concatenation sees only that part. */
  lemma CutLeft(x: string, y: string, i: nat, j: nat)
    requires i <= j <= |x|
    ensures (x + y)[i..j] == x[i..j]
  {
  }

  /** Cutting a concatenation after its first part leaves the second. */
  lemma CutRight(x: string, y: string)
    ensures (x + y)[|x|..] == y
  {
  }

  function HealthyEntries(healthy: seq<ContainerInfo>): (entries: seq<string>)
    ensures |entries| == |healthy|
    ensures forall k | 0 <= k < |healthy| :: entries[k] == HealthyEntry(healthy[k])
  {
    seq(|healthy|, k requires 0 <= k < |healthy| => HealthyEntry(healthy[k]))
  }

  /** The healthy-container line: how many, and their entries joined by ", ". */
  datatype HealthySummary = HealthySummary(count: nat, listing: string)

  function SummarizeHealthy(healthy: seq<ContainerInfo>): (summary: Option<HealthySummary>)
    ensures summary.None? <==> healthy == []
    ensures summary.Some? ==> summary.value.count == |healthy|
    ensures summary.Some? ==> summary.value.listing == Join(HealthyEntries(healthy), ", ")
  {
    if healthy == [] then None else Some(HealthySummary(|healthy|, Join(HealthyEntries(healthy), ", ")))
  }

  /** Every healthy container's entry appears in the summary. */
  lemma SummaryListsEveryContainer(healthy: seq<ContainerInfo>, k: nat)
    requires k < |healthy|
    ensures SummarizeHealthy(healthy).Some?
    ensures Contains(SummarizeHealthy(healthy).value.listing, HealthyEntry(healthy[k]))
  {
    JoinContainsPart(HealthyEntries(healthy), ", ", k);
  }

  /** One running container named "sidecar" without restarts gives a summary of one entry, that container's. */
  lemma SidecarSummary()
    ensures SummarizeHealthy([ContainerInfo("sidecar", "Running", "", 0, false)])
      == Some(HealthySummary(1, "sidecar (Running, 0 restarts)"))
  {
    var c := ContainerInfo("sidecar", "Running", "", 0, false);
    var entry := "sidecar (Running, 0 restarts)";
    SidecarEntry();
    assert HealthyEntries([c]) == [entry];
    assert Join([entry], ", ") == entry;
  }

  /** The sidecar's own entry. */
  lemma SidecarEntry()
    ensures HealthyEntry(ContainerInfo("sidecar", "Running", "", 0, false)) == "sidecar (Running, 0 restarts)"
  {
    assert NatToDecimal(0) == "0";
  }

  /** Durations, in nanoseconds. */
  const Second := 1_000_000_000
  const Minute := 60_000_000_000
  const Hour := 3_600_000_000_000
  const Day := 86_400_000_000_000

  /**
   * formatDuration on a non-negative duration: whole seconds under a
   * minute, whole minutes under an hour, whole hours under a day, whole
   * days otherwise, each count truncated.
   */
  function FormatDuration(d: int): (text: string)
    requires d >= 0
    ensures |text| >= 2 && text[|text| - 1] in {'s', 'm', 'h', 'd'}
    ensures text[|text| - 1] == 's' <==> d < Minute
    ensures text[|text| - 1] == 'd' <==> Day <= d
  {
    if d < Minute then NatToDecimal(d / Second) + "s"
    else if d < Hour then NatToDecimal(d / Minute) + "m"
    else if d < Day then NatToDecimal(d / Hour) + "h"
    else NatToDecimal(d / Day) + "d"
  }

  /**
   * Reading the text back: the last character is a unit, the digits before
   * it a count; count units never exceed the duration and one more unit
   * would, and the count stays below the next unit (under 60 seconds, 1 to
   * 59 minutes, 1 to 23 hours, at least one day).
   */
  lemma FormatDurationMeaning(d: int)
    requires d >= 0
    ensures var text := FormatDuration(d);
      && |text| >= 2
      && var unit := text[|text| - 1];
      && var digits := text[..|text| - 1];
      && IsDecimal(digits)
      && var count := DecimalValue(digits);
      && (unit == 's' || unit == 'm' || unit == 'h' || unit == 'd')
      && (unit == 's' ==> Second * count <= d < Second * (count + 1) && count < 60)
      && (unit == 'm' ==> Minute * count <= d < Minute * (count + 1) && 1 <= count < 60)
      && (unit == 'h' ==> Hour * count <= d < Hour * (count + 1) && 1 <= count < 24)
      && (unit == 'd' ==> Day * count <= d < Day * (count + 1) && 1 <= count)
  {
    if d < Minute {
      SecondsBand(d);
    } else if d < Hour {
      MinutesBand(d);
    } else if d < Day {
      HoursBand(d);
    } else {
      DaysBand(d);
    }
  }

  /** The text of a duration reads back as count units of the given letter. */
  predicate ReadsAs(text: string, unit: char, count: nat) {
    |text| >= 2 && text[|text| - 1] == unit
    && IsDecimal(text[..|text| - 1]) && DecimalValue(text[..|text| - 1]) == count
  }

  lemma SecondsBand(d: int)
    requires 0 <= d < Minute
    ensures ReadsAs(FormatDuration(d), 's', d / Second)
    ensures Second * (d / Second) <= d < Second * (d / Second + 1) && d / Second < 60
  {
    assert FormatDuration(d) == NatToDecimal(d / Second) + ['s'];
    ReadBack(d / Second, 's');
  }

  lemma MinutesBand(d: int)
    requires Minute <= d < Hour
    ensures ReadsAs(FormatDuration(d), 'm', d / Minute)
    ensures Minute * (d / Minute) <= d < Minute * (d / Minute + 1) && 1 <= d / Minute < 60
  {
    assert FormatDuration(d) == NatToDecimal(d / Minute) + ['m'];
    ReadBack(d / Minute, 'm');
  }

  lemma HoursBand(d: int)
    requires Hour <= d < Day
    ensures ReadsAs(FormatDuration(d), 'h', d / Hour)
    ensures Hour * (d / Hour) <= d < Hour * (d / Hour + 1) && 1 <= d / Hour < 24
  {
    assert FormatDuration(d) == NatToDecimal(d / Hour) + ['h'];
    ReadBack(d / Hour, 'h');
  }

  lemma DaysBand(d: int)
    requires Day <= d
    ensures ReadsAs(FormatDuration(d), 'd', d / Day)
    ensures Day * (d / Day) <= d < Day * (d / Day + 1) && 1 <= d / Day
  {
    assert FormatDuration(d) == NatToDecimal(d / Day) + ['d'];
    ReadBack(d / Day, 'd');
  }

  /** A count followed by a unit letter reads back as that count and that unit. */
  lemma ReadBack(n: nat, unit: char)
    ensures ReadsAs(NatToDecimal(n) + [unit], unit, n)
  {
    var text := NatToDecimal(n) + [unit];
    assert text[..|text| - 1] == NatToDecimal(n);
    DecimalRoundTrip(n);
  }

  /** The duration table: 30s, 59s, 60s, 5m, 3h and 48h. */
  lemma FormatDurationVectors()
    ensures FormatDuration(30 * Second) == "30s"
    ensures FormatDuration(59 * Second) == "59s"
    ensures FormatDuration(60 * Second) == "1m"
    ensures FormatDuration(5 * Minute) == "5m"
    ensures FormatDuration(3 * Hour) == "3h"
    ensures FormatDuration(48 * Hour) == "2d"
  {
    assert (30 * Second) / Second == 30 && NatToDecimal(30) == "30";
    assert (59 * Second) / Second == 59 && NatToDecimal(59) == "59";
    assert (60 * Second) / Minute == 1;
    assert (5 * Minute) / Minute == 5;
    assert (3 * Hour) / Hour == 3;
    assert (48 * Hour) / Day == 2;
  }

  /** What is shown for one container in the failed list. */
  datatype ContainerView = ContainerView(
    info: ContainerInfo,
    phase: PodPhase,
    readyCount: string,
    events: seq<EventLine>,
    previous: LogSection,
    current: LogSection)

  /** The whole triage output: one view per failed-list container, then the healthy summary. */
  datatype TriageView = TriageView(containers: seq<ContainerView>, healthy: Option<HealthySummary>)

  /**
   * The view of the failed-list container at position `i`: its own record,
   * the pod's phase and ready text, the event lines of that position, and
   * log sections only when a log result exists at the same position.
   */
  function ViewContainer(pod: Pod, i: nat, info: ContainerInfo, events: seq<Event>, logResults: seq<LogResult>, noColor: bool): (view: ContainerView)
    ensures view.info == info && view.phase == pod.phase
    ensures view.readyCount == HealthGate.ReadyText(pod.containerStatuses)
    ensures view.events == CriticalEvents(i, events)
    ensures i < |logResults| ==> view.previous == PreviousSection(logResults[i].previous, noColor)
    ensures i < |logResults| ==> view.current == CurrentSection(logResults[i].current, noColor)
    ensures |logResults| <= i ==> view.previous == Omitted && view.current == Omitted
  {
    ContainerView(
      info, pod.phase, HealthGate.ReadyText(pod.containerStatuses),
      CriticalEvents(i, events),
      if i < |logResults| then PreviousSection(logResults[i].previous, noColor) else Omitted,
      if i < |logResults| then CurrentSection(logResults[i].current, noColor) else Omitted)
  }

  /**
   * displayTriage: every container of the failed list in order; the events
   * only under the first, at most ten of them; log sections only where a
   * log result exists at the same position; then the healthy summary.
   */
  function DisplayTriage(pod: Pod, failed: seq<ContainerInfo>, healthy: seq<ContainerInfo>,
                         events: seq<Event>, logResults: seq<LogResult>, noColor: bool): (view: TriageView)
    ensures |view.containers| == |failed|
    ensures forall i | 0 <= i < |failed| :: view.containers[i].info == failed[i]
    ensures forall i | 0 < i < |failed| :: view.containers[i].events == []
    ensures failed != [] ==> |view.containers[0].events| == Min(|events|, MaxEvents)
    ensures forall i, k | 0 <= i < |failed| && 0 <= k < |view.containers[i].events| ::
      view.containers[i].events[k].event == events[k]
    ensures forall i | |logResults| <= i < |failed| :: view.containers[i].previous == Omitted && view.containers[i].current == Omitted
    ensures forall i | 0 <= i < |failed| ::
      && view.containers[i].events == CriticalEvents(i, events)
      && view.containers[i].phase == pod.phase
      && view.containers[i].readyCount == HealthGate.ReadyText(pod.containerStatuses)
    ensures forall i | 0 <= i < |failed| && i < |logResults| ::
      && view.containers[i].previous == PreviousSection(logResults[i].previous, noColor)
      && view.containers[i].current == CurrentSection(logResults[i].current, noColor)
    ensures view.healthy == SummarizeHealthy(healthy)
  {
    TriageView(
      seq(|failed|, i requires 0 <= i < |failed| => ViewContainer(pod, i, failed[i], events, logResults, noColor)),
      SummarizeHealthy(healthy))
  }
}
