/**
 * Basic vocabulary of the generic power-domain core: identifiers, error
 * codes, the per-domain record, the inputs that come from outside the core
 * (hardware callbacks, device runtime state) and the two small counter and
 * latency helpers that every operation shares.
 */
module Types {

  type DomainId = nat
  type DeviceId = nat

  // Negative errno values, as the kernel returns them.
  const ENOENT: int := -2
  const EAGAIN: int := -11
  const ENOMEM: int := -12
  const EBUSY: int := -16
  const EINVAL: int := -22

  datatype Option<T> = None | Some(value: T)

  datatype Status = Active | PowerOff

  /** One edge of the domain graph: `slave` depends on power from `master`. */
  datatype Link = Link(master: DomainId, slave: DomainId)

  /**
   * The fields of one generic PM domain that the system-sleep and device
   * bookkeeping use. Its power state, its sd_count and its latency marks are
   * kept in maps of their own by the graph (see Genpd.DomainGraph), and its
   * links by the graph's link list; `devList` is the domain's dev_list in
   * insertion order. The `has*` flags say whether the optional
   * power_on/power_off callbacks and a governor with power_down_ok exist.
   */
  datatype Domain = Domain(
    preparedCount: int,
    suspendedCount: int,
    suspendPowerOff: bool,
    deviceCount: int,
    devList: seq<DeviceId>,
    maxOffTimeNs: int,
    hasPowerOn: bool,
    hasPowerOff: bool,
    hasGovernor: bool)

  /** The latency high-water marks of a domain and max_off_time_changed. */
  datatype Timing = Timing(powerOnLatencyNs: int, powerOffLatencyNs: int, maxOffTimeChanged: bool)

  /**
   * What the runtime-PM and QoS layers report about one device:
   * pm_runtime_suspended(), power.irq_safe, and whether dev_pm_qos_flags()
   * reports NO_POWER_OFF or REMOTE_WAKEUP.
   */
  datatype DevicePm = DevicePm(runtimeSuspended: bool, irqSafe: bool, qosForbidsOff: bool)

  /**
   * The hardware oracle: what each domain's power_on/power_off callback
   * returns, and how long (in ns) it is measured to take.
   */
  datatype Hardware = Hardware(
    powerOnResult: DomainId -> int,
    powerOffResult: DomainId -> int,
    powerOnNs: DomainId -> int,
    powerOffNs: DomainId -> int)

  /** A domain whose power-on is deferred because it was off when system sleep began. */
  predicate Deferred(g: Domain) {
    g.preparedCount > 0 && g.suspendPowerOff
  }

  /** genpd_sd_counter_dec: the new count and whether it reached zero. */
  function SdCounterDec(count: nat): (r: (nat, bool))
    ensures r.0 + (if count > 0 then 1 else 0) == count
    ensures r.1 <==> count == 1
  {
    if count == 0 then (0, false) else (count - 1, count - 1 == 0)
  }

  /** genpd_sd_counter_inc. */
  function SdCounterInc(count: nat): (r: nat)
    ensures SdCounterDec(r) == (count, count == 0)
  {
    count + 1
  }

  /**
   * The latency high-water mark kept by genpd_power_on/genpd_power_off:
   * the new recorded latency and whether it changed.
   */
  function RaiseLatency(recorded: int, elapsed: int): (r: (int, bool))
    ensures r.0 >= recorded && r.0 >= elapsed
    ensures r.0 == recorded || r.0 == elapsed
    ensures r.1 <==> elapsed > recorded
  {
    if elapsed <= recorded then (recorded, false) else (elapsed, true)
  }
}
