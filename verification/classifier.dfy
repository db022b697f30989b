/**
 * The container classifier (identifyFailedContainers): one pass over the
 * container statuses that decides, per container, a state label, a reason
 * and a failed flag, and appends the result to the failed or the healthy
 * list.
 */
module Classifier {
  import opened Wrappers
  import opened Types
  import opened Sequences

  /** Waiting reasons that mark a container as failed. */
  const WaitingFailureReasons: seq<string> :=
    ["CrashLoopBackOff", "Error", "ImagePullBackOff", "ErrImagePull", "CreateContainerError", "InvalidImageName"]

  /** Terminated reasons that mark a container as failed; a separate set from the Waiting one. */
  const TerminatedFailureReasons: seq<string> :=
    ["Error", "OOMKilled", "ContainerCannotRun", "DeadlineExceeded"]

  /** Scans a reason list front to back and stops at the first match. */
  method IsListedReason(reason: string, reasons: seq<string>) returns (found: bool)
    ensures found <==> reason in reasons
  {
    found := false;
    for k := 0 to |reasons|
      invariant !found && reason !in reasons[..k]
    {
      if reason == reasons[k] {
        found := true;
        break;
      }
    }
  }

  /**
   * The verdict on one container. A restart marks it failed whatever its
   * state; otherwise only a listed Waiting reason, or (with no Waiting
   * state) a listed Terminated reason, does. Waiting is read before
   * Terminated, and Terminated before Running.
   */
  function ClassifyContainer(cs: ContainerStatus): (info: ContainerInfo)
    ensures info.name == cs.name && info.restartCount == cs.restartCount
    ensures info.failed <==>
      || cs.restartCount > 0
      || (cs.state.waiting.Some? && cs.state.waiting.value in WaitingFailureReasons)
      || (cs.state.waiting.None? && cs.state.terminated.Some? && cs.state.terminated.value in TerminatedFailureReasons)
    ensures cs.state.waiting.Some? ==> info.state == "Waiting" && info.reason == cs.state.waiting.value
    ensures cs.state.waiting.None? && cs.state.terminated.Some? ==>
      info.state == "Terminated" && info.reason == cs.state.terminated.value
    ensures cs.state.waiting.None? && cs.state.terminated.None? ==>
      info.reason == "" && info.state == (if cs.state.running then "Running" else "")
  {
    var restarted := cs.restartCount > 0;
    match cs.state
    case ContainerState(Some(r), _, _) =>
      ContainerInfo(cs.name, "Waiting", r, cs.restartCount, restarted || r in WaitingFailureReasons)
    case ContainerState(None, Some(r), _) =>
      ContainerInfo(cs.name, "Terminated", r, cs.restartCount, restarted || r in TerminatedFailureReasons)
    case ContainerState(None, None, true) =>
      ContainerInfo(cs.name, "Running", "", cs.restartCount, restarted)
    case ContainerState(None, None, false) =>
      ContainerInfo(cs.name, "", "", cs.restartCount, restarted)
  }

  /** A restarted container is failed whatever its current state. */
  lemma RestartedIsFailed(cs: ContainerStatus)
    requires cs.restartCount > 0
    ensures ClassifyContainer(cs).failed
  {
  }

  /** Every container's verdict, in input order. */
  function Classified(statuses: seq<ContainerStatus>): (infos: seq<ContainerInfo>)
    ensures |infos| == |statuses|
    ensures forall k | 0 <= k < |statuses| :: infos[k] == ClassifyContainer(statuses[k])
    decreases |statuses|
  {
    if statuses == [] then []
    else Classified(statuses[..|statuses| - 1]) + [ClassifyContainer(statuses[|statuses| - 1])]
  }

  /**
   * The failed and healthy lists after the pass. Every container lands in
   * exactly one list; with allContainers nothing is healthy, and without
   * it a container's list agrees with its flag.
   */
  function Partition(statuses: seq<ContainerStatus>, allContainers: bool): (lists: (seq<ContainerInfo>, seq<ContainerInfo>))
    ensures |lists.0| + |lists.1| == |statuses|
    ensures forall k | 0 <= k < |lists.1| :: !lists.1[k].failed
    ensures !allContainers ==> forall k | 0 <= k < |lists.0| :: lists.0[k].failed
    ensures allContainers ==> lists.1 == []
    decreases |statuses|
  {
    if statuses == [] then ([], [])
    else
      var (failed, healthy) := Partition(statuses[..|statuses| - 1], allContainers);
      var info := ClassifyContainer(statuses[|statuses| - 1]);
      if info.failed || allContainers then (failed + [info], healthy) else (failed, healthy + [info])
  }

  /** Builds the two lists the way the plugin does: one container at a time, appending. */
  method IdentifyFailedContainers(statuses: seq<ContainerStatus>, allContainers: bool)
    returns (failed: seq<ContainerInfo>, healthy: seq<ContainerInfo>)
    ensures (failed, healthy) == Partition(statuses, allContainers)
  {
    failed, healthy := [], [];
    for i := 0 to |statuses|
      invariant (failed, healthy) == Partition(statuses[..i], allContainers)
    {
      var cs := statuses[i];
      var info := ContainerInfo(cs.name, "", "", cs.restartCount, false);
      if cs.restartCount > 0 {
        info := info.(failed := true);
      }
      if cs.state.waiting.Some? {
        info := info.(state := "Waiting", reason := cs.state.waiting.value);
        var listed := IsListedReason(cs.state.waiting.value, WaitingFailureReasons);
        if listed {
          info := info.(failed := true);
        }
      } else if cs.state.terminated.Some? {
        info := info.(state := "Terminated", reason := cs.state.terminated.value);
        var listed := IsListedReason(cs.state.terminated.value, TerminatedFailureReasons);
        if listed {
          info := info.(failed := true);
        }
      } else if cs.state.running {
        info := info.(state := "Running", reason := "");
      }
      assert info == ClassifyContainer(cs);
      assert statuses[..i + 1][..i] == statuses[..i];
      if info.failed || allContainers {
        failed := failed + [info];
      } else {
        healthy := healthy + [info];
      }
    }
    assert statuses[..|statuses|] == statuses;
  }

  /** The failed and healthy lists interleave to the classified input: nothing lost, nothing doubled, order kept. */
  lemma {:induction false} PartitionInterleaves(statuses: seq<ContainerStatus>, allContainers: bool)
    ensures Interleaving(Classified(statuses), Partition(statuses, allContainers).0, Partition(statuses, allContainers).1)
    decreases |statuses|
  {
    if statuses != [] {
      var init := statuses[..|statuses| - 1];
      PartitionInterleaves(init, allContainers);
      var xs := Classified(statuses);
      assert xs[..|xs| - 1] == Classified(init);
      var (f, h) := Partition(init, allContainers);
      var (f', h') := Partition(statuses, allContainers);
      if f' == f + [xs[|xs| - 1]] && h' == h {
        assert f'[..|f'| - 1] == f;
      } else {
        assert h'[..|h'| - 1] == h;
      }
    }
  }

  /** With allContainers every container is in the failed list, in order, with its own computed flag. */
  lemma {:induction false} PartitionAllContainers(statuses: seq<ContainerStatus>)
    ensures Partition(statuses, true) == (Classified(statuses), [])
    decreases |statuses|
  {
    if statuses != [] {
      PartitionAllContainers(statuses[..|statuses| - 1]);
    }
  }

  /**
   * The classifier's table of cases, plus an app in CrashLoopBackOff with 5
   * restarts next to a running container with no restarts.
   */
  lemma ClassifierVectors()
    ensures var p := Partition([ContainerStatus("app", 5, ContainerState(Some("CrashLoopBackOff"), None, false), false)], false);
      |p.0| == 1 && |p.1| == 0 && p.0[0].name == "app"
    ensures var p := Partition([ContainerStatus("worker", 2, ContainerState(None, Some("OOMKilled"), false), false)], false);
      |p.0| == 1 && |p.1| == 0 && p.0[0].name == "worker"
    ensures var p := Partition([ContainerStatus("app", 3, ContainerState(None, None, true), false)], false);
      |p.0| == 1 && |p.1| == 0 && p.0[0].name == "app"
    ensures Partition([ContainerStatus("app", 5, ContainerState(Some("CrashLoopBackOff"), None, false), false),
                       ContainerStatus("sidecar", 0, ContainerState(None, None, true), false)], false)
      == ([ContainerInfo("app", "Waiting", "CrashLoopBackOff", 5, true)],
          [ContainerInfo("sidecar", "Running", "", 0, false)])
    ensures var p := Partition([ContainerStatus("app", 0, ContainerState(None, None, true), false),
                                ContainerStatus("sidecar", 0, ContainerState(None, None, true), false)], false);
      |p.0| == 0 && |p.1| == 2
    ensures Partition([ContainerStatus("app", 0, ContainerState(None, None, true), false)], true)
      == ([ContainerInfo("app", "Running", "", 0, false)], [])
  {
    var two := [ContainerStatus("app", 5, ContainerState(Some("CrashLoopBackOff"), None, false), false),
                ContainerStatus("sidecar", 0, ContainerState(None, None, true), false)];
    assert two[..1] == [two[0]] && two[0..1][..0] == [];
    assert "CrashLoopBackOff" == WaitingFailureReasons[0];
    assert ClassifyContainer(two[0]) == ContainerInfo("app", "Waiting", "CrashLoopBackOff", 5, true);
    assert ClassifyContainer(two[1]) == ContainerInfo("sidecar", "Running", "", 0, false);
    assert Partition(two[..1][..0], false) == ([], []);
    assert Partition(two[..1], false).0 == [ContainerInfo("app", "Waiting", "CrashLoopBackOff", 5, true)];
    assert Partition(two[..1], false).1 == [];
    assert Partition(two, false).1 == [ContainerInfo("sidecar", "Running", "", 0, false)];
    var one := [ContainerStatus("app", 0, ContainerState(None, None, true), false)];
    assert one[..0] == [];
    assert ClassifyContainer(one[0]) == ContainerInfo("app", "Running", "", 0, false);
    assert Partition(one[..0], true) == ([], []);
    assert Partition(one, true).0 == [ContainerInfo("app", "Running", "", 0, false)];
    var healthyTwo := [ContainerStatus("app", 0, ContainerState(None, None, true), false),
                       ContainerStatus("sidecar", 0, ContainerState(None, None, true), false)];
    assert healthyTwo[..1] == [healthyTwo[0]];
  }
}
