/**
 * The triage run (RunPlugin) with the cluster client replaced by three
 * functions: fetching a pod, listing its events and fetching one log.
 */
module Plugin {
  import opened Wrappers
  import opened Types
  import opened HealthGate
  import opened Classifier
  import opened EventRanking
  import opened Display

  /** The namespace to use: the option, else a non-empty namespace flag, else "default". */
  function ResolveNamespace(option: string, flag: Option<string>): (namespace: string)
    ensures namespace != ""
    ensures option != "" ==> namespace == option
    ensures option == "" && flag.Some? && flag.value != "" ==> namespace == flag.value
    ensures option == "" && (flag.None? || flag.value == "") ==> namespace == "default"
  {
    if option != "" then option
    else if flag.Some? && flag.value != "" then flag.value
    else "default"
  }

  /** Once resolved, a namespace is kept whatever flag comes with it. */
  lemma ResolvedNamespaceIsKept(option: string, flag: Option<string>, other: Option<string>)
    ensures ResolveNamespace(ResolveNamespace(option, flag), other) == ResolveNamespace(option, flag)
  {
  }

  /** One log request: pod, container, previous or current run, and how many trailing lines. */
  datatype LogRequest = LogRequest(namespace: string, podName: string, container: string, previous: bool, tailLines: int)

  /**
   * The log results of collectLogs: one per container, at the container's
   * own position, each made of its own previous-run and current-run fetch,
   * so that one container's failed fetch leaves every other result as it is.
   */
  function CollectLogs(namespace: string, podName: string, containers: seq<ContainerInfo>, tailLines: int,
                       fetchLog: LogRequest -> LogFetch): (results: seq<LogResult>)
    ensures |results| == |containers|
    ensures forall k | 0 <= k < |containers| ::
      && results[k].containerName == containers[k].name
      && results[k].previous == fetchLog(LogRequest(namespace, podName, containers[k].name, true, tailLines))
      && results[k].current == fetchLog(LogRequest(namespace, podName, containers[k].name, false, tailLines))
  {
    seq(|containers|, k requires 0 <= k < |containers| =>
      LogResult(containers[k].name,
                fetchLog(LogRequest(namespace, podName, containers[k].name, true, tailLines)),
                fetchLog(LogRequest(namespace, podName, containers[k].name, false, tailLines))))
  }

  /** Why a run stopped without a report. */
  datatype TriageError =
    | PodUnavailable(podName: string, namespace: string, cause: string)
    | EventsUnavailable(cause: string)

  /** How a run ends: the pod is healthy, a fatal error, or the triage report. */
  datatype Outcome =
    | HealthyExit(podName: string, readyCount: string)
    | Fatal(error: TriageError)
    | Report(view: TriageView)

  /**
   * What a report holds: only failed containers unless --all-containers is
   * given, and only Warning and Error events.
   */
  lemma ReportShowsFailuresAndWarnings(pod: Pod, allContainers: bool, listing: seq<Event>,
                                        logResults: seq<LogResult>, noColor: bool)
    ensures var lists := Partition(pod.containerStatuses, allContainers);
      var view := DisplayTriage(pod, lists.0, lists.1, ExchangeSort(Relevant(listing)), logResults, noColor);
      && (forall i | 0 <= i < |view.containers| :: view.containers[i].info.failed || allContainers)
      && (forall i, k | 0 <= i < |view.containers| && 0 <= k < |view.containers[i].events| ::
            IsRelevantKind(view.containers[i].events[k].event.kind))
  {
    RankedEventsAreRelevant(listing);
  }

  /**
   * A whole run. A pod that cannot be fetched is fatal. A truly healthy pod
   * without --force ends the run before any event or log is looked at.
   * Otherwise the containers are classified, a failed event listing is
   * fatal, and the report shows the ranked Warning and Error events and the
   * logs of the failed-list containers.
   */
  method RunPlugin(opts: TriageOptions, namespaceFlag: Option<string>,
                   getPod: (string, string) -> Result<Pod, string>,
                   listEvents: (string, string) -> Result<seq<Event>, string>,
                   fetchLog: LogRequest -> LogFetch)
    returns (outcome: Outcome)
    ensures outcome.HealthyExit? ==> !opts.force
    ensures var namespace := ResolveNamespace(opts.namespace, namespaceFlag);
      match getPod(namespace, opts.podName)
      case Failure(cause) => outcome == Fatal(PodUnavailable(opts.podName, namespace, cause))
      case Success(pod) =>
        if !opts.force && IsPodTrulyHealthy(pod) then
          outcome == HealthyExit(pod.name, ReadyText(pod.containerStatuses))
        else
          match listEvents(namespace, pod.name)
          case Failure(cause) => outcome == Fatal(EventsUnavailable(cause))
          case Success(listing) =>
            var lists := Partition(pod.containerStatuses, opts.allContainers);
            outcome == Report(DisplayTriage(pod, lists.0, lists.1, ExchangeSort(Relevant(listing)),
                                            CollectLogs(namespace, pod.name, lists.0, opts.lines, fetchLog),
                                            opts.noColor))
  {
    var namespace := ResolveNamespace(opts.namespace, namespaceFlag);
    var fetched := getPod(namespace, opts.podName);
    if fetched.Failure? {
      return Fatal(PodUnavailable(opts.podName, namespace, fetched.error));
    }
    var pod := fetched.value;
    if !opts.force && IsPodTrulyHealthy(pod) {
      var readyCount := GetReadyCount(pod.containerStatuses);
      return HealthyExit(pod.name, readyCount);
    }
    var failed, healthy := IdentifyFailedContainers(pod.containerStatuses, opts.allContainers);
    var events := GetRelevantEvents(listEvents(namespace, pod.name));
    if events.Failure? {
      return Fatal(EventsUnavailable(events.error));
    }
    var logResults := CollectLogs(namespace, pod.name, failed, opts.lines, fetchLog);
    outcome := Report(DisplayTriage(pod, failed, healthy, events.value, logResults, opts.noColor));
  }
}
