/**
 * The pure decisions of the state machine: when genpd_poweroff may proceed,
 * when pm_genpd_sync_poweroff acts, and resume_needed.
 */
module Gates {
  import opened Types

  /** A device that keeps its domain powered: not runtime-suspended, or irq-safe. */
  predicate Outstanding(p: DevicePm) {
    !p.runtimeSuspended || p.irqSafe
  }

  /** The number of devices on the list that keep the domain powered. */
  function NotSuspendedCount(devList: seq<DeviceId>, devices: DeviceId -> DevicePm): nat {
    if devList == [] then 0
    else (if Outstanding(devices(devList[0])) then 1 else 0) + NotSuspendedCount(devList[1..], devices)
  }

  predicate AnyQosForbids(devList: seq<DeviceId>, devices: DeviceId -> DevicePm) {
    exists k :: 0 <= k < |devList| && devices(devList[k]).qosForbidsOff
  }

  lemma {:induction false} NotSuspendedCountBound(devList: seq<DeviceId>, devices: DeviceId -> DevicePm)
    ensures NotSuspendedCount(devList, devices) <= |devList|
    ensures NotSuspendedCount(devList, devices) == 0 <==> forall k :: 0 <= k < |devList| ==> !Outstanding(devices(devList[k]))
  {
    if devList != [] {
      NotSuspendedCountBound(devList[1..], devices);
      assert forall k :: 0 < k < |devList| ==> devList[k] == devList[1..][k - 1];
    }
  }

  /**
   * The device walk of genpd_poweroff: stops at the first device whose QoS
   * flags forbid power-off, and otherwise counts the outstanding devices.
   */
  method ScanDevices(devList: seq<DeviceId>, devices: DeviceId -> DevicePm) returns (qosBusy: bool, notSuspended: nat)
    ensures qosBusy <==> AnyQosForbids(devList, devices)
    ensures !qosBusy ==> notSuspended == NotSuspendedCount(devList, devices)
  {
    notSuspended := 0;
    var k := 0;
    while k < |devList|
      invariant 0 <= k <= |devList|
      invariant forall j :: 0 <= j < k ==> !devices(devList[j]).qosForbidsOff
      invariant notSuspended + NotSuspendedCount(devList[k..], devices) == NotSuspendedCount(devList, devices)
    {
      var p := devices(devList[k]);
      if p.qosForbidsOff {
        return true, notSuspended;
      }
      assert devList[k..][1..] == devList[k + 1..];
      if Outstanding(p) {
        notSuspended := notSuspended + 1;
      }
      k := k + 1;
    }
    qosBusy := false;
  }

  /** Outcome of the checks genpd_poweroff makes before touching the hardware. */
  datatype Gate = Skip | Refuse(code: int) | Proceed

  /**
   * The checks of genpd_poweroff, in the source's order, on the domain's
   * power state, sd_count and prepared_count. `notSuspended` is the count of
   * outstanding devices; one is tolerated only when the call comes
   * synchronously from that device's own runtime suspend.
   */
  function PowerOffGate(status: Status, sdCount: nat, g: Domain, qosBusy: bool, notSuspended: nat,
                        isAsync: bool, governorOk: bool): (v: Gate)
    ensures v == Skip <==> status.PowerOff? || g.preparedCount > 0
    ensures v == Refuse(EBUSY) <==>
              status.Active? && g.preparedCount <= 0
              && (sdCount > 0 || qosBusy || notSuspended > 1 || (notSuspended == 1 && isAsync))
    ensures v == Refuse(EAGAIN) <==>
              status.Active? && g.preparedCount <= 0 && sdCount == 0 && !qosBusy
              && (notSuspended == 0 || (notSuspended == 1 && !isAsync)) && g.hasGovernor && !governorOk
    ensures v == Proceed <==>
              status.Active? && g.preparedCount <= 0 && sdCount == 0 && !qosBusy
              && (notSuspended == 0 || (notSuspended == 1 && !isAsync)) && (g.hasGovernor ==> governorOk)
  {
    if status.PowerOff? || g.preparedCount > 0 then Skip
    else if sdCount > 0 then Refuse(EBUSY)
    else if qosBusy then Refuse(EBUSY)
    else if notSuspended > 1 || (notSuspended == 1 && isAsync) then Refuse(EBUSY)
    else if g.hasGovernor && !governorOk then Refuse(EAGAIN)
    else Proceed
  }

  /** What genpd_poweroff returns when the gate stops it. */
  function GateCode(v: Gate): int {
    match v
    case Skip => 0
    case Refuse(code) => code
    case Proceed => 0
  }

  /** pm_genpd_sync_poweroff acts only on a powered domain whose devices are all suspended and that has no powered subdomain. */
  predicate SyncOffReady(status: Status, sdCount: nat, g: Domain) {
    status.Active? && g.suspendedCount == g.deviceCount && sdCount == 0
  }

  /**
   * resume_needed: a wakeup-capable device is resumed before system suspend
   * when its wakeup enablement matches whether it must stay active to signal
   * wakeup.
   */
  function ResumeNeeded(canWakeup: bool, mayWakeup: bool, activeWakeup: bool): (r: bool)
    ensures r <==> canWakeup && (mayWakeup <==> activeWakeup)
  {
    if !canWakeup then false
    else if mayWakeup then activeWakeup
    else !activeWakeup
  }
}
