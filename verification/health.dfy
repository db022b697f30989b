/**
 * The health gate (isPodTrulyHealthy) and the ready counter (getReadyCount).
 */
module HealthGate {
  import opened Wrappers
  import opened Types
  import opened Text

  /** No condition of type Ready has a status other than True; other condition types are ignored. */
  function ReadyConditionsHold(conditions: seq<PodCondition>): (ok: bool)
    ensures ok <==> forall k | 0 <= k < |conditions| :: conditions[k].kind == PodReady ==> conditions[k].status == ConditionTrue
    decreases |conditions|
  {
    if conditions == [] then true
    else if conditions[0].kind == PodReady && conditions[0].status != ConditionTrue then false
    else ReadyConditionsHold(conditions[1..])
  }

  /** No container has restarted. */
  function NoRestarts(statuses: seq<ContainerStatus>): (ok: bool)
    ensures ok <==> forall k | 0 <= k < |statuses| :: statuses[k].restartCount == 0
    decreases |statuses|
  {
    if statuses == [] then true
    else if statuses[0].restartCount > 0 then false
    else NoRestarts(statuses[1..])
  }

  /**
   * A pod is truly healthy when it is Running, every Ready condition is
   * True and no container has ever restarted. A Running pod without
   * containers or without a Ready condition passes.
   */
  function IsPodTrulyHealthy(pod: Pod): (healthy: bool)
    ensures healthy <==>
      && pod.phase == Running
      && (forall k | 0 <= k < |pod.conditions| :: pod.conditions[k].kind == PodReady ==> pod.conditions[k].status == ConditionTrue)
      && (forall k | 0 <= k < |pod.containerStatuses| :: pod.containerStatuses[k].restartCount == 0)
  {
    if pod.phase != Running then false
    else if !ReadyConditionsHold(pod.conditions) then false
    else NoRestarts(pod.containerStatuses)
  }

  /** One restarted container is enough to fail the gate, whatever the phase and conditions say. */
  lemma RestartFailsGate(pod: Pod, k: nat)
    requires k < |pod.containerStatuses| && pod.containerStatuses[k].restartCount > 0
    ensures !IsPodTrulyHealthy(pod)
  {
  }

  /** The health check's table of cases. */
  lemma HealthGateVectors()
    ensures IsPodTrulyHealthy(Pod("p", Running, [PodCondition("Ready", "True")],
      [ContainerStatus("app", 0, ContainerState(None, None, false), true)]))
    ensures !IsPodTrulyHealthy(Pod("p", Pending, [PodCondition("Ready", "True")],
      [ContainerStatus("app", 0, ContainerState(None, None, false), false)]))
    ensures !IsPodTrulyHealthy(Pod("p", Running, [PodCondition("Ready", "False")],
      [ContainerStatus("app", 0, ContainerState(None, None, false), false)]))
    ensures !IsPodTrulyHealthy(Pod("p", Running, [PodCondition("Ready", "True")],
      [ContainerStatus("app", 5, ContainerState(None, None, false), true)]))
    ensures !IsPodTrulyHealthy(Pod("p", Running, [PodCondition("Ready", "True")],
      [ContainerStatus("app", 0, ContainerState(None, None, false), true),
       ContainerStatus("sidecar", 2, ContainerState(None, None, false), true)]))
    ensures IsPodTrulyHealthy(Pod("p", Running, [], []))
  {
    var ready := [PodCondition("Ready", "True")];
    assert ReadyConditionsHold(ready);
    var notReady := [PodCondition("Ready", "False")];
    assert !ReadyConditionsHold(notReady) by { assert notReady[0].kind == PodReady; }
  }

  /** The number of containers whose Ready flag is set. */
  function CountReady(statuses: seq<ContainerStatus>): (ready: nat)
    ensures ready <= |statuses|
    ensures ready == |statuses| <==> forall k | 0 <= k < |statuses| :: statuses[k].ready
    ensures ready == 0 <==> forall k | 0 <= k < |statuses| :: !statuses[k].ready
    decreases |statuses|
  {
    if statuses == [] then 0
    else CountReady(statuses[..|statuses| - 1]) + (if statuses[|statuses| - 1].ready then 1 else 0)
  }

  /**
   * The "ready/total" text, as in "1/3": read back, the digits before the
   * slash are the ready count and the digits after it the container total.
   */
  function ReadyText(statuses: seq<ContainerStatus>): (text: string)
    ensures var k := |NatToDecimal(CountReady(statuses))|;
      && 1 <= k < |text| && text[k] == '/'
      && IsDecimal(text[..k]) && DecimalValue(text[..k]) == CountReady(statuses)
      && IsDecimal(text[k + 1..]) && DecimalValue(text[k + 1..]) == |statuses|
  {
    var ready := NatToDecimal(CountReady(statuses));
    var total := NatToDecimal(|statuses|);
    DecimalRoundTrip(CountReady(statuses));
    DecimalRoundTrip(|statuses|);
    var text := ready + "/" + total;
    assert text[..|ready|] == ready && text[|ready| + 1..] == total;
    text
  }

  /** Counts the ready containers one by one and formats "ready/total". */
  method GetReadyCount(statuses: seq<ContainerStatus>) returns (text: string)
    ensures text == ReadyText(statuses)
  {
    var total := |statuses|;
    var ready := 0;
    for i := 0 to |statuses|
      invariant ready == CountReady(statuses[..i])
    {
      assert statuses[..i + 1][..i] == statuses[..i];
      if statuses[i].ready {
        ready := ready + 1;
      }
    }
    assert statuses[..|statuses|] == statuses;
    text := NatToDecimal(ready) + "/" + NatToDecimal(total);
  }

  /** The ready count's table of cases: 1/1, 0/2 and 1/3. */
  lemma ReadyCountVectors()
    ensures ReadyText([ContainerStatus("app", 0, ContainerState(None, None, false), true)]) == "1/1"
    ensures ReadyText([ContainerStatus("app", 0, ContainerState(None, None, false), false),
                       ContainerStatus("sidecar", 0, ContainerState(None, None, false), false)]) == "0/2"
    ensures ReadyText([ContainerStatus("app", 0, ContainerState(None, None, false), true),
                       ContainerStatus("sidecar1", 0, ContainerState(None, None, false), false),
                       ContainerStatus("sidecar2", 0, ContainerState(None, None, false), false)]) == "1/3"
  {
  }
}
