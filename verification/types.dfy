/**
 * The values the triage plugin reads from the cluster and the records it
 * builds from them (pkg/plugin/plugin.go): pods, their conditions and
 * container statuses, events, and the plugin's own ContainerInfo,
 * EventInfo, LogResult and TriageOptions.
 */
module Types {
  import opened Wrappers

  /** A restart count: a 32-bit counter the cluster never lets go negative. */
  type Count32 = x: int | 0 <= x < 0x8000_0000

  /** A pod's lifecycle phase. */
  datatype PodPhase = Pending | Running | Succeeded | Failed | Unknown

  /** A pod condition: its type ("Ready", "PodScheduled", ...) and its status ("True", "False", "Unknown"). */
  datatype PodCondition = PodCondition(kind: string, status: string)

  const PodReady := "Ready"
  const ConditionTrue := "True"

  /**
   * A container's state. The cluster fills in at most one of the three in
   * practice, but the record has three independent slots and the plugin
   * reads them in the order Waiting, Terminated, Running.
   */
  datatype ContainerState = ContainerState(waiting: Option<string>, terminated: Option<string>, running: bool)

  datatype ContainerStatus = ContainerStatus(name: string, restartCount: Count32, state: ContainerState, ready: bool)

  datatype Pod = Pod(name: string, phase: PodPhase, conditions: seq<PodCondition>, containerStatuses: seq<ContainerStatus>)

  /**
   * An event as the plugin keeps it (EventInfo): its type ("Normal",
   * "Warning", ...), reason, message and last timestamp, as an integer
   * instant on which `Before` is `<`.
   */
  datatype Event = Event(kind: string, reason: string, message: string, timestamp: int)

  /** The classifier's verdict on one container (ContainerInfo). */
  datatype ContainerInfo = ContainerInfo(name: string, state: string, reason: string, restartCount: Count32, failed: bool)

  /** The outcome of one log fetch: the log text, or the error's message. */
  datatype LogFetch = Fetched(text: string) | FetchFailed(message: string)

  /** The previous-run and current-run logs of one container (LogResult). */
  datatype LogResult = LogResult(containerName: string, previous: LogFetch, current: LogFetch)

  /** The command's options (TriageOptions). */
  datatype TriageOptions = TriageOptions(podName: string, namespace: string, lines: int, allContainers: bool, force: bool, noColor: bool)
}
