/**
 * The generic PM domain state machine: the registered domains, the links
 * between them, the devices attached to them and the queue of pending
 * power-off work, with the operations that update them in place.
 *
 * Locks are not modelled: every method is one atomic step. The per-domain
 * counter `sdCount` is the atomic sd_count; its discipline is stated through
 * Excess (sd_count minus the number of powered slaves): the propagation
 * operations leave every domain's Excess as they found it, and every
 * operation keeps CountersCover (no Excess below zero).
 */
module Genpd {
  import opened Types
  import opened Topology
  import opened Gates
  import opened Propagation
  import opened Shutdown
  import opened Sync
  import opened Sleep
  import opened Devices
  import opened Subdomains

  /** The graph conditions read only which domains are registered. */
  lemma SameKeysKeep(links: seq<Link>, a: map<DomainId, Domain>, b: map<DomainId, Domain>, st: PState)
    requires a.Keys == b.Keys
    ensures Wf(a, st) == Wf(b, st) && LinksWithin(links, a) == LinksWithin(links, b)
    ensures Covered(links, a, st) == Covered(links, b, st)
    ensures forall x :: x in st.queue ==> (x in a <==> x in b)
  {
  }

  class DomainGraph {
    /** The power state of every registered domain (gpd_list), by identity. */
    var status: map<DomainId, Status>
    /** sd_count of every registered domain. */
    var sdCount: map<DomainId, nat>
    /** The latency marks of every registered domain. */
    var timing: map<DomainId, Timing>
    /** The rest of every registered domain. */
    var domains: map<DomainId, Domain>
    /** Every gpd_link, in creation order; each domain's two lists are the sub-sequences it appears in. */
    var links: seq<Link>
    /** dev->pm_domain of every attached device. */
    var pmDomain: map<DeviceId, DomainId>
    /** The devices whose domain_data is set. */
    var domainData: set<DeviceId>
    /** The domains whose power_off_work item is pending. */
    var queue: set<DomainId>

    /** The state power propagation works on. */
    function Snapshot(): PState
      reads this`status, this`sdCount, this`timing, this`queue
    {
      PState(status, sdCount, timing, queue)
    }

    /** Links join distinct registered domains; only registered domains are queued. */
    ghost predicate GraphOk()
      reads this`status, this`sdCount, this`timing, this`domains, this`links, this`queue
    {
      && Wf(domains, Snapshot())
      && LinksWithin(links, domains)
      && (forall x :: x in queue ==> x in domains)
    }

    /**
     * A device has domain data exactly when it is attached, it is on the
     * dev_list of the domain it is attached to and of no other, and
     * device_count is the length of dev_list.
     */
    ghost predicate DevicesOk()
      reads this`domains, this`pmDomain, this`domainData
    {
      Attached(domains, pmDomain, domainData)
    }

    /** What every operation keeps: a sound graph, consistent devices, and counters covering powered slaves. */
    ghost predicate Valid()
      reads this
    {
      GraphOk() && NoDuplicateLinks(links) && DevicesOk() && Covered(links, domains, Snapshot())
    }

    constructor ()
      ensures Valid()
      ensures status == map[] && sdCount == map[] && timing == map[] && domains == map[]
      ensures links == [] && pmDomain == map[] && domainData == {} && queue == {}
    {
      status, sdCount, timing, domains := map[], map[], map[], map[];
      links, pmDomain, domainData, queue := [], map[], {}, {};
    }

    /** genpd_sd_counter_inc. */
    method IncSdCount(m: DomainId)
      requires GraphOk() && m in domains
      modifies this`sdCount
      ensures GraphOk()
      ensures sdCount == old(sdCount)[m := SdCounterInc(old(sdCount[m]))]
    {
      sdCount := sdCount[m := SdCounterInc(sdCount[m])];
    }

    /** genpd_sd_counter_dec: a zero counter is left alone (the kernel warns). */
    method DecSdCount(m: DomainId) returns (zero: bool)
      requires GraphOk() && m in domains
      modifies this`sdCount
      ensures GraphOk()
      ensures sdCount == DecAt(old(sdCount), m)
      ensures zero == SdCounterDec(old(sdCount[m])).1
    {
      var r := SdCounterDec(sdCount[m]);
      sdCount := sdCount[m := r.0];
      zero := r.1;
    }

    method SetStatus(d: DomainId, s: Status)
      requires GraphOk() && d in domains
      modifies this`status
      ensures GraphOk()
      ensures status == old(status)[d := s]
    {
      status := status[d := s];
    }

    /** genpd_queue_power_off_work: queue_work does nothing if the item is already pending. */
    method QueuePowerOffWork(m: DomainId)
      requires GraphOk() && m in domains
      modifies this`queue
      ensures GraphOk()
      ensures queue == Enqueue(old(queue), m)
    {
      if m !in queue {
        queue := queue + {m};
      }
    }

    /**
     * Releases one count on master `m` and queues it for power-off, the step
     * both the error path of __genpd_poweron and genpd_poweroff take for each
     * master.
     */
    method ReleaseMaster(m: DomainId)
      requires GraphOk() && m in domains
      modifies this`sdCount, this`queue
      ensures GraphOk()
      ensures sdCount == DecAt(old(sdCount), m) && queue == Enqueue(old(queue), m)
    {
      var _ := DecSdCount(m);
      QueuePowerOffWork(m);
    }

    /**
     * genpd_power_on: runs the optional power_on callback; when timed and
     * successful, a longer elapsed time raises the recorded latency and marks
     * max_off_time_changed.
     */
    method HwPowerOn(d: DomainId, timed: bool, hw: Hardware) returns (ret: int)
      requires GraphOk() && d in domains
      modifies this`timing
      ensures GraphOk()
      ensures ret == OnResult(domains[d], d, hw)
      ensures timing == old(timing)[d := OnTiming(old(timing[d]), domains[d], d, timed, hw)]
      ensures ret != 0 ==> timing == old(timing)
    {
      if !domains[d].hasPowerOn {
        return 0;
      }
      ret := hw.powerOnResult(d);
      if !timed || ret != 0 {
        return;
      }
      var t := timing[d];
      var r := RaiseLatency(t.powerOnLatencyNs, hw.powerOnNs(d));
      if r.1 {
        timing := timing[d := t.(powerOnLatencyNs := r.0, maxOffTimeChanged := true)];
      }
    }

    /**
     * genpd_power_off: runs the optional power_off callback; when timed, any
     * outcome except -EBUSY goes on to the latency high-water mark.
     */
    method HwPowerOff(d: DomainId, timed: bool, hw: Hardware) returns (ret: int)
      requires GraphOk() && d in domains
      modifies this`timing
      ensures GraphOk()
      ensures ret == OffResult(domains[d], d, hw)
      ensures timing == old(timing)[d := OffTiming(old(timing[d]), domains[d], d, timed, hw)]
    {
      if !domains[d].hasPowerOff {
        return 0;
      }
      ret := hw.powerOffResult(d);
      if !timed || ret == EBUSY {
        return;
      }
      var t := timing[d];
      var r := RaiseLatency(t.powerOffLatencyNs, hw.powerOffNs(d));
      if r.1 {
        timing := timing[d := t.(powerOffLatencyNs := r.0, maxOffTimeChanged := true)];
      }
    }

    /**
     * __genpd_poweron: powers on every master in slave_links order, then d
     * itself; a failure unwinds the masters already counted, newest first.
     * The new state and the result are PowerOnF's, whose properties are
     * proved in Propagation (PowerOnCounts, PowerOnOutcome, PowerOnAbove,
     * PowerOnMonotone).
     */
    method PowerOn(d: DomainId, hw: Hardware, ghost rank: map<DomainId, nat>) returns (ret: int)
      requires GraphOk() && d in domains && Ranked(links, rank) && domains.Keys <= rank.Keys
      modifies this`status, this`sdCount, this`timing, this`queue
      decreases rank[d], 2
      ensures GraphOk()
      ensures (Snapshot(), ret) == PowerOnF(links, domains, hw, rank, old(Snapshot()), d)
    {
      if Powered(status[d], domains[d]) {
        return 0;
      }
      ghost var s0 := Snapshot();
      var ms := Masters(links, d);
      MastersWithin(links, domains, rank, d);
      var n;
      ret, n := PowerOnMasters(d, hw, rank);
      ghost var s1 := Snapshot();
      ghost var fin := Finish(links, domains, hw, s1, d, ret, n);
      assert PowerOnF(links, domains, hw, rank, s0, d) == fin;
      if ret == 0 {
        ret := HwPowerOn(d, true, hw);
        if ret == 0 {
          SetStatus(d, Active);
          assert (Snapshot(), ret) == fin;
          return;
        }
        n := |ms|;
      }
      UnwindMasters(d, n);
      assert (Snapshot(), ret) == fin;
    }

    /**
     * The forward loop of __genpd_poweron: for each master in turn, count d
     * in its sd_count and power it on; a failing master's count is released
     * at once and the loop stops. `n` is the number of masters powered.
     */
    method PowerOnMasters(d: DomainId, hw: Hardware, ghost rank: map<DomainId, nat>) returns (ret: int, n: nat)
      requires GraphOk() && d in domains && Ranked(links, rank) && domains.Keys <= rank.Keys
      modifies this`status, this`sdCount, this`timing, this`queue
      decreases rank[d], 1
      ensures GraphOk()
      ensures (Snapshot(), ret, n) == MastersOnF(links, domains, hw, rank, old(Snapshot()), d, 0)
    {
      var ms := Masters(links, d);
      ghost var target := MastersOnF(links, domains, hw, rank, Snapshot(), d, 0);
      n := 0;
      while n < |ms|
        invariant n <= |ms| && GraphOk()
        invariant target == MastersOnF(links, domains, hw, rank, Snapshot(), d, n)
      {
        ret := PowerOnStep(d, n, hw, rank);
        if ret != 0 {
          return;
        }
        n := n + 1;
      }
      ret := 0;
    }

    /** Step n of PowerOnMasters on d's n-th master. */
    method PowerOnStep(d: DomainId, n: nat, hw: Hardware, ghost rank: map<DomainId, nat>) returns (ret: int)
      requires GraphOk() && d in domains && Ranked(links, rank) && domains.Keys <= rank.Keys && n < |Masters(links, d)|
      modifies this`status, this`sdCount, this`timing, this`queue
      decreases rank[d], 0
      ensures GraphOk()
      ensures ret != 0 ==> MastersOnF(links, domains, hw, rank, old(Snapshot()), d, n) == (Snapshot(), ret, n)
      ensures ret == 0 ==> MastersOnF(links, domains, hw, rank, old(Snapshot()), d, n)
                           == MastersOnF(links, domains, hw, rank, Snapshot(), d, n + 1)
    {
      var m := Masters(links, d)[n];
      MastersWithin(links, domains, rank, d);
      ret := PowerOnMaster(m, hw, rank);
    }

    /**
     * One step of that loop on master `m`: genpd_sd_counter_inc, then
     * genpd_poweron; on failure the count just taken is released.
     */
    method PowerOnMaster(m: DomainId, hw: Hardware, ghost rank: map<DomainId, nat>) returns (ret: int)
      requires GraphOk() && m in domains && Ranked(links, rank) && domains.Keys <= rank.Keys
      modifies this`status, this`sdCount, this`timing, this`queue
      decreases rank[m], 3
      ensures GraphOk()
      ensures var t := PowerOnF(links, domains, hw, rank, Inc(old(Snapshot()), m), m);
              (Snapshot(), ret) == (if t.1 != 0 then (t.0.(sdCount := DecAt(t.0.sdCount, m)), t.1) else t)
    {
      IncSdCount(m);
      ret := PowerOn(m, hw, rank);
      if ret != 0 {
        var _ := DecSdCount(m);
      }
    }

    /**
     * The error path of __genpd_poweron: walking back over the first `n`
     * masters, newest first, release d's count in each and queue it for
     * power-off.
     */
    method UnwindMasters(d: DomainId, n: nat)
      requires GraphOk() && d in domains && n <= |Masters(links, d)|
      modifies this`sdCount, this`queue
      ensures GraphOk()
      ensures Snapshot() == Unwind(old(Snapshot()), Masters(links, d), n)
    {
      var ms := Masters(links, d);
      MastersIn(links, domains, d);
      ghost var target := Unwind(Snapshot(), ms, n);
      var j := n;
      while j > 0
        invariant 0 <= j <= n && GraphOk()
        invariant target == Unwind(Snapshot(), ms, j)
      {
        UnwindStep(ms, j);
        j := j - 1;
      }
      assert ms[..0] == [];
    }

    /** Step j of UnwindMasters: release the count in the j-th master of `ms`, counting from one. */
    method UnwindStep(ms: seq<DomainId>, j: nat)
      requires GraphOk() && 0 < j <= |ms| && ms[j - 1] in domains
      modifies this`sdCount, this`queue
      ensures GraphOk()
      ensures Unwind(old(Snapshot()), ms, j) == Unwind(Snapshot(), ms, j - 1)
    {
      UnwindLast(sdCount, queue, ms, j);
      ReleaseMaster(ms[j - 1]);
    }
    /**
     * genpd_poweroff: the checks in the source's order, then power_off (with
     * its latency mark), then d is off and each master, in slave_links
     * order, loses d's count and is queued for power-off. `raced` is the
     * number of concurrent subdomain power-ons seen by the recheck of
     * sd_count. The properties are PowerOffF's (Shutdown.PowerOffChecks,
     * PowerOffOutcome, PowerOffCounts).
     */
    method PowerOffDomain(d: DomainId, isAsync: bool, devices: DeviceId -> DevicePm, governorOk: bool, raced: nat, hw: Hardware)
      returns (ret: int)
      requires GraphOk() && d in domains
      modifies this`status, this`sdCount, this`timing, this`queue
      ensures GraphOk()
      ensures (Snapshot(), ret) == PowerOffF(links, domains, hw, old(Snapshot()), d, devices, isAsync, governorOk, raced)
    {
      if status[d].PowerOff? || domains[d].preparedCount > 0 {
        return 0;
      }
      if sdCount[d] > 0 {
        return EBUSY;
      }
      var qosBusy, notSuspended := ScanDevices(domains[d].devList, devices);
      if qosBusy {
        return EBUSY;
      }
      if notSuspended > 1 || (notSuspended == 1 && isAsync) {
        return EBUSY;
      }
      if domains[d].hasGovernor && !governorOk {
        return EAGAIN;
      }
      ghost var s0 := Snapshot();
      if domains[d].hasPowerOff {
        if sdCount[d] + raced > 0 {
          return EBUSY;
        }
        ret := HwPowerOff(d, true, hw);
        if ret != 0 {
          return;
        }
      } else {
        ret := 0;
      }
      assert timing == s0.timing[d := OffTiming(s0.timing[d], domains[d], d, true, hw)];
      SetStatus(d, PowerOff);
      ReleaseMasters(d);
    }

    /** The loop at the end of genpd_poweroff: each master of d, in slave_links order, loses d's count and is queued. */
    method ReleaseMasters(d: DomainId)
      requires GraphOk() && d in domains
      modifies this`sdCount, this`queue
      ensures GraphOk()
      ensures Snapshot() == Release(old(Snapshot()), Masters(links, d))
    {
      var ms := Masters(links, d);
      MastersIn(links, domains, d);
      ghost var target := Release(Snapshot(), ms);
      var n := 0;
      while n < |ms|
        invariant n <= |ms| && GraphOk()
        invariant target == Release(Snapshot(), ms[n..])
      {
        assert ms[n..][1..] == ms[n + 1..];
        ReleaseMaster(ms[n]);
        n := n + 1;
      }
    }

    /**
     * genpd_power_off_work_fn for the pending item of domain `d`: the item
     * leaves the queue and d gets an asynchronous genpd_poweroff, whose
     * result is dropped. The counters keep covering the powered slaves.
     */
    method PowerOffWork(d: DomainId, devices: DeviceId -> DevicePm, governorOk: bool, raced: nat, hw: Hardware)
      requires Valid() && d in queue
      modifies this`status, this`sdCount, this`timing, this`queue
      ensures Valid()
      ensures Snapshot() == PowerOffF(links, domains, hw, old(Snapshot()).(queue := old(queue) - {d}), d,
                                      devices, true, governorOk, raced).0
    {
      queue := queue - {d};
      ghost var s0 := Snapshot();
      var _ := PowerOffDomain(d, true, devices, governorOk, raced, hw);
      PowerOffCounts(links, domains, hw, s0, d, devices, true, governorOk, raced);
    }

    /**
     * genpd_poweron: __genpd_poweron under the domain's lock. The counters
     * keep covering the powered slaves (Propagation.PowerOnCounts).
     */
    method PowerOnDomain(d: DomainId, hw: Hardware, ghost rank: map<DomainId, nat>) returns (ret: int)
      requires Valid() && d in domains && Ranked(links, rank) && domains.Keys <= rank.Keys
      modifies this`status, this`sdCount, this`timing, this`queue
      ensures Valid()
      ensures (Snapshot(), ret) == PowerOnF(links, domains, hw, rank, old(Snapshot()), d)
    {
      ghost var s0 := Snapshot();
      ret := PowerOn(d, hw, rank);
      PowerOnCounts(links, domains, hw, rank, s0, d);
      CoveredBySame(links, domains, s0, Snapshot());
    }
    /**
     * pm_genpd_sync_poweroff: a ready domain (powered, every device
     * suspended, no subdomain counted) runs power_off, whose result is
     * ignored, goes off, and each master in turn loses its count and is
     * tried in the same way. No lock and no work queue.
     */
    method SyncPowerOff(d: DomainId, timed: bool, hw: Hardware, ghost rank: map<DomainId, nat>)
      requires GraphOk() && d in domains && Ranked(links, rank) && domains.Keys <= rank.Keys
      modifies this`status, this`sdCount, this`timing
      decreases rank[d], 2
      ensures GraphOk()
      ensures Snapshot() == SyncOffF(links, domains, hw, rank, old(Snapshot()), d, timed)
    {
      if status[d].PowerOff? {
        return;
      }
      if domains[d].suspendedCount != domains[d].deviceCount || sdCount[d] > 0 {
        return;
      }
      var _ := HwPowerOff(d, timed, hw);
      SetStatus(d, PowerOff);
      SyncPowerOffMasters(d, timed, hw, rank);
    }

    /** The loop of pm_genpd_sync_poweroff over d's masters, in slave_links order. */
    method SyncPowerOffMasters(d: DomainId, timed: bool, hw: Hardware, ghost rank: map<DomainId, nat>)
      requires GraphOk() && d in domains && Ranked(links, rank) && domains.Keys <= rank.Keys
      modifies this`status, this`sdCount, this`timing
      decreases rank[d], 1
      ensures GraphOk()
      ensures Snapshot() == SyncMastersOffF(links, domains, hw, rank, old(Snapshot()), d, timed, 0)
    {
      var ms := Masters(links, d);
      ghost var target := SyncMastersOffF(links, domains, hw, rank, Snapshot(), d, timed, 0);
      var n := 0;
      while n < |ms|
        invariant n <= |ms| && GraphOk()
        invariant target == SyncMastersOffF(links, domains, hw, rank, Snapshot(), d, timed, n)
      {
        SyncPowerOffStep(d, n, timed, hw, rank);
        n := n + 1;
      }
    }

    /**
     * pm_genpd_sync_poweron: an off domain first has each master, in
     * slave_links order, powered the same way and counted; then power_on
     * runs, its result ignored, and the domain is marked powered.
     */
    method SyncPowerOn(d: DomainId, timed: bool, hw: Hardware, ghost rank: map<DomainId, nat>)
      requires GraphOk() && d in domains && Ranked(links, rank) && domains.Keys <= rank.Keys
      modifies this`status, this`sdCount, this`timing
      decreases rank[d], 2
      ensures GraphOk()
      ensures Snapshot() == SyncOnF(links, domains, hw, rank, old(Snapshot()), d, timed)
    {
      if status[d].Active? {
        return;
      }
      SyncPowerOnMasters(d, timed, hw, rank);
      var _ := HwPowerOn(d, timed, hw);
      SetStatus(d, Active);
    }

    /** The loop of pm_genpd_sync_poweron over d's masters, in slave_links order. */
    method SyncPowerOnMasters(d: DomainId, timed: bool, hw: Hardware, ghost rank: map<DomainId, nat>)
      requires GraphOk() && d in domains && Ranked(links, rank) && domains.Keys <= rank.Keys
      modifies this`status, this`sdCount, this`timing
      decreases rank[d], 1
      ensures GraphOk()
      ensures Snapshot() == SyncMastersOnF(links, domains, hw, rank, old(Snapshot()), d, timed, 0)
    {
      var ms := Masters(links, d);
      ghost var target := SyncMastersOnF(links, domains, hw, rank, Snapshot(), d, timed, 0);
      var n := 0;
      while n < |ms|
        invariant n <= |ms| && GraphOk()
        invariant target == SyncMastersOnF(links, domains, hw, rank, Snapshot(), d, timed, n)
      {
        SyncPowerOnStep(d, n, timed, hw, rank);
        n := n + 1;
      }
    }

    /** Step n of SyncPowerOffMasters: drop d's count in its n-th master, then power that master off. */
    method SyncPowerOffStep(d: DomainId, n: nat, timed: bool, hw: Hardware, ghost rank: map<DomainId, nat>)
      requires GraphOk() && d in domains && Ranked(links, rank) && domains.Keys <= rank.Keys && n < |Masters(links, d)|
      modifies this`status, this`sdCount, this`timing
      decreases rank[d], 0
      ensures GraphOk()
      ensures SyncMastersOffF(links, domains, hw, rank, old(Snapshot()), d, timed, n)
              == SyncMastersOffF(links, domains, hw, rank, Snapshot(), d, timed, n + 1)
    {
      var m := Masters(links, d)[n];
      MastersWithin(links, domains, rank, d);
      var _ := DecSdCount(m);
      SyncPowerOff(m, timed, hw, rank);
    }

    /** Step n of SyncPowerOnMasters on d's n-th master. */
    method SyncPowerOnStep(d: DomainId, n: nat, timed: bool, hw: Hardware, ghost rank: map<DomainId, nat>)
      requires GraphOk() && d in domains && Ranked(links, rank) && domains.Keys <= rank.Keys && n < |Masters(links, d)|
      modifies this`status, this`sdCount, this`timing
      decreases rank[d], 0
      ensures GraphOk()
      ensures SyncMastersOnF(links, domains, hw, rank, old(Snapshot()), d, timed, n)
              == SyncMastersOnF(links, domains, hw, rank, Snapshot(), d, timed, n + 1)
    {
      var m := Masters(links, d)[n];
      MastersWithin(links, domains, rank, d);
      SyncPowerOnMaster(m, timed, hw, rank);
    }

    /** One step of that loop on master `m`: power it, then count the slave in it. */
    method SyncPowerOnMaster(m: DomainId, timed: bool, hw: Hardware, ghost rank: map<DomainId, nat>)
      requires GraphOk() && m in domains && Ranked(links, rank) && domains.Keys <= rank.Keys
      modifies this`status, this`sdCount, this`timing
      decreases rank[m], 3
      ensures GraphOk()
      ensures Snapshot() == Inc(SyncOnF(links, domains, hw, rank, old(Snapshot()), m, timed), m)
    {
      SyncPowerOn(m, timed, hw, rank);
      IncSdCount(m);
    }
    /** Replaces the sleep bookkeeping of domain `g`'s record; its devices stay as they are. */
    method UpdateRecord(g: DomainId, r: Domain)
      requires Valid() && g in domains && r.devList == domains[g].devList && r.deviceCount == domains[g].deviceCount
      modifies this`domains
      ensures Valid() && domains == old(domains)[g := r]
    {
      RecordKeepsAttached(domains, pmDomain, domainData, g, r);
      SameKeysKeep(links, domains, domains[g := r], Snapshot());
      domains := domains[g := r];
    }

    /**
     * pm_genpd_prepare: -EINVAL for a device outside any domain, -EBUSY on a
     * pending wakeup; otherwise the bracket opens (or deepens) and the
     * device's prepare callback, whose result is `genericPrepare`, runs
     * unless the domain was off when the bracket opened. The properties are
     * PrepareF's (Sleep.PrepareOutcome, PrepareThenComplete, BracketKept).
     */
    method Prepare(dev: DeviceId, wakeupPending: bool, genericPrepare: int) returns (ret: int)
      requires Valid()
      modifies this`domains
      ensures Valid()
      ensures dev !in pmDomain ==> ret == EINVAL && domains == old(domains)
      ensures dev in pmDomain ==>
                var g := pmDomain[dev];
                var (r, code) := PrepareF(old(domains[g]), status[g], wakeupPending, genericPrepare);
                ret == code && domains == old(domains)[g := r]
    {
      if dev !in pmDomain {
        return EINVAL;
      }
      var g := pmDomain[dev];
      if wakeupPending {
        return EBUSY;
      }
      var rec := domains[g];
      if rec.preparedCount == 0 {
        rec := rec.(suspendedCount := 0, suspendPowerOff := status[g].PowerOff?);
      }
      rec := rec.(preparedCount := rec.preparedCount + 1);
      ret := 0;
      if !rec.suspendPowerOff && genericPrepare != 0 {
        ret := genericPrepare;
        rec := rec.(preparedCount := rec.preparedCount - 1);
        if rec.preparedCount == 0 {
          rec := rec.(suspendPowerOff := false);
        }
      }
      assert (rec, ret) == PrepareF(domains[g], status[g], wakeupPending, genericPrepare);
      UpdateRecord(g, rec);
    }

    /** pm_genpd_complete: closes one level of the bracket; nothing for a device outside any domain. */
    method Complete(dev: DeviceId)
      requires Valid()
      modifies this`domains
      ensures Valid()
      ensures dev !in pmDomain ==> domains == old(domains)
      ensures dev in pmDomain ==> domains == old(domains)[pmDomain[dev] := CompleteF(old(domains[pmDomain[dev]]))]
    {
      if dev !in pmDomain {
        return;
      }
      var g := pmDomain[dev];
      var rec := domains[g].(preparedCount := domains[g].preparedCount - 1);
      if rec.preparedCount == 0 {
        rec := rec.(suspendPowerOff := false);
      }
      UpdateRecord(g, rec);
    }

    /**
     * pm_genpd_suspend_noirq: unless the domain is skipped, one more device
     * counts as suspended and the domain gets a timed sync power-off; the
     * device that completes the count of a powered domain with no counted
     * subdomain powers it off.
     */
    method SuspendNoirq(dev: DeviceId, wakeupPath: bool, activeWakeup: bool, hw: Hardware, ghost rank: map<DomainId, nat>)
      returns (ret: int)
      requires Valid() && Ranked(links, rank) && domains.Keys <= rank.Keys
      modifies this`domains, this`status, this`sdCount, this`timing
      ensures Valid()
      ensures dev !in pmDomain ==> ret == EINVAL && domains == old(domains) && Snapshot() == old(Snapshot())
      ensures dev in pmDomain && NoirqSkip(old(domains[pmDomain[dev]]), wakeupPath, activeWakeup) ==>
                ret == 0 && domains == old(domains) && Snapshot() == old(Snapshot())
      ensures dev in pmDomain && !NoirqSkip(old(domains[pmDomain[dev]]), wakeupPath, activeWakeup) ==>
                && ret == 0
                && domains == old(domains)[pmDomain[dev] := old(domains[pmDomain[dev]]).(suspendedCount := old(domains[pmDomain[dev]].suspendedCount) + 1)]
                && Snapshot() == SyncOffF(links, domains, hw, rank, old(Snapshot()), pmDomain[dev], true)
                && (old(status[pmDomain[dev]]).Active? && old(sdCount[pmDomain[dev]]) == 0
                    && domains[pmDomain[dev]].suspendedCount == domains[pmDomain[dev]].deviceCount
                    ==> status[pmDomain[dev]].PowerOff?)
    {
      if dev !in pmDomain {
        ret := EINVAL;
      } else if NoirqSkip(domains[pmDomain[dev]], wakeupPath, activeWakeup) {
        ret := 0;
      } else {
        var g := pmDomain[dev];
        SuspendDomain(g, true, hw, rank);
        ret := 0;
      }
    }

    /** What pm_genpd_suspend_noirq and the syscore suspend do past their checks: one more device suspended, then a sync power-off. */
    method SuspendDomain(g: DomainId, timed: bool, hw: Hardware, ghost rank: map<DomainId, nat>)
      requires Valid() && g in domains && Ranked(links, rank) && domains.Keys <= rank.Keys
      modifies this`domains, this`status, this`sdCount, this`timing
      ensures Valid()
      ensures domains == old(domains)[g := old(domains[g]).(suspendedCount := old(domains[g].suspendedCount) + 1)]
      ensures Snapshot() == SyncOffF(links, domains, hw, rank, old(Snapshot()), g, timed)
      ensures old(status[g]).Active? && old(sdCount[g]) == 0 && domains[g].suspendedCount == domains[g].deviceCount
              ==> status[g].PowerOff?
    {
      UpdateRecord(g, domains[g].(suspendedCount := domains[g].suspendedCount + 1));
      ghost var s0 := Snapshot();
      SyncPowerOff(g, timed, hw, rank);
      SyncOffCounts(links, domains, hw, rank, s0, g, timed);
      CoveredBySame(links, domains, s0, Snapshot());
      SyncOffOutcome(links, domains, hw, rank, s0, g, timed);
    }

    /**
     * pm_genpd_resume_noirq: unless the domain is skipped, the domain gets a
     * timed sync power-on, one device fewer counts as suspended, and the
     * device's start callback result `startResult` is returned. The domain
     * ends powered.
     */
    method ResumeNoirq(dev: DeviceId, wakeupPath: bool, activeWakeup: bool, startResult: int, hw: Hardware,
                       ghost rank: map<DomainId, nat>) returns (ret: int)
      requires Valid() && Ranked(links, rank) && domains.Keys <= rank.Keys
      modifies this`domains, this`status, this`sdCount, this`timing
      ensures Valid()
      ensures if dev !in pmDomain then ret == EINVAL && domains == old(domains) && Snapshot() == old(Snapshot())
              else if NoirqSkip(old(domains[pmDomain[dev]]), wakeupPath, activeWakeup) then
                ret == 0 && domains == old(domains) && Snapshot() == old(Snapshot())
              else
                var g := pmDomain[dev];
                && ret == startResult
                && domains == old(domains)[g := old(domains[g]).(suspendedCount := old(domains[g].suspendedCount) - 1)]
                && Snapshot() == SyncOnF(links, old(domains), hw, rank, old(Snapshot()), g, true)
                && status[g].Active?
    {
      if dev !in pmDomain {
        ret := EINVAL;
      } else if NoirqSkip(domains[pmDomain[dev]], wakeupPath, activeWakeup) {
        ret := 0;
      } else {
        ResumeDomain(pmDomain[dev], true, hw, rank);
        ret := startResult;
      }
    }

    /** What pm_genpd_resume_noirq and the syscore resume do past their checks: a sync power-on, then one device fewer suspended. */
    method ResumeDomain(g: DomainId, timed: bool, hw: Hardware, ghost rank: map<DomainId, nat>)
      requires Valid() && g in domains && Ranked(links, rank) && domains.Keys <= rank.Keys
      modifies this`domains, this`status, this`sdCount, this`timing
      ensures Valid()
      ensures domains == old(domains)[g := old(domains[g]).(suspendedCount := old(domains[g].suspendedCount) - 1)]
      ensures Snapshot() == SyncOnF(links, old(domains), hw, rank, old(Snapshot()), g, timed)
      ensures status[g].Active?
    {
      ghost var s0 := Snapshot();
      SyncPowerOn(g, timed, hw, rank);
      SyncOnCounts(links, domains, hw, rank, s0, g, timed);
      CoveredBySame(links, domains, s0, Snapshot());
      SyncOnOutcome(links, domains, hw, rank, s0, g, timed);
      UpdateRecord(g, domains[g].(suspendedCount := domains[g].suspendedCount - 1));
    }

    /**
     * pm_genpd_restore_noirq: -EINVAL for a device outside any domain;
     * otherwise one more device counts as suspended and the domain is
     * brought back to the state it had before hibernation (RestoreF,
     * Sync.RestoreOutcome). A domain that was off returns 0; any other
     * returns the device's start callback result `startResult`.
     */
    method RestoreNoirq(dev: DeviceId, startResult: int, hw: Hardware, ghost rank: map<DomainId, nat>) returns (ret: int)
      requires Valid() && Ranked(links, rank) && domains.Keys <= rank.Keys
      modifies this`domains, this`status, this`sdCount, this`timing
      ensures Valid()
      ensures if dev !in pmDomain then ret == EINVAL && domains == old(domains) && Snapshot() == old(Snapshot())
              else
                var g := pmDomain[dev];
                && domains == old(domains)[g := old(domains[g]).(suspendedCount := old(domains[g].suspendedCount) + 1)]
                && Snapshot() == RestoreF(links, domains, hw, rank, old(Snapshot()), g, old(domains[g].suspendedCount) == 0)
                && ret == if domains[g].suspendPowerOff then 0 else startResult
    {
      if dev !in pmDomain {
        ret := EINVAL;
      } else {
        RestoreDomain(pmDomain[dev], hw, rank);
        ret := if domains[pmDomain[dev]].suspendPowerOff then 0 else startResult;
      }
    }

    /** pm_genpd_restore_noirq past its device lookup. */
    method RestoreDomain(g: DomainId, hw: Hardware, ghost rank: map<DomainId, nat>)
      requires Valid() && g in domains && Ranked(links, rank) && domains.Keys <= rank.Keys
      modifies this`domains, this`status, this`sdCount, this`timing
      ensures Valid()
      ensures domains == old(domains)[g := old(domains[g]).(suspendedCount := old(domains[g].suspendedCount) + 1)]
      ensures Snapshot() == RestoreF(links, domains, hw, rank, old(Snapshot()), g, old(domains[g].suspendedCount) == 0)
    {
      var first := domains[g].suspendedCount == 0;
      UpdateRecord(g, domains[g].(suspendedCount := domains[g].suspendedCount + 1));
      ghost var s0 := Snapshot();
      RestoreCounts(links, domains, hw, rank, s0, g, first);
      if first {
        SetStatus(g, PowerOff);
        if domains[g].suspendPowerOff {
          var _ := HwPowerOff(g, true, hw);
          return;
        }
      }
      if domains[g].suspendPowerOff {
        return;
      }
      SyncPowerOn(g, true, hw, rank);
    }

    /**
     * pm_genpd_syscore_poweroff (genpd_syscore_switch with suspend set):
     * nothing for a device outside any domain; otherwise one more device
     * counts as suspended and the domain gets an untimed sync power-off.
     */
    method SyscorePowerOff(dev: DeviceId, hw: Hardware, ghost rank: map<DomainId, nat>)
      requires Valid() && Ranked(links, rank) && domains.Keys <= rank.Keys
      modifies this`domains, this`status, this`sdCount, this`timing
      ensures Valid()
      ensures dev !in pmDomain ==> domains == old(domains) && Snapshot() == old(Snapshot())
      ensures dev in pmDomain ==>
                var g := pmDomain[dev];
                && domains == old(domains)[g := old(domains[g]).(suspendedCount := old(domains[g].suspendedCount) + 1)]
                && Snapshot() == SyncOffF(links, domains, hw, rank, old(Snapshot()), g, false)
    {
      if dev in pmDomain {
        SuspendDomain(pmDomain[dev], false, hw, rank);
      }
    }

    /**
     * pm_genpd_syscore_poweron (genpd_syscore_switch with suspend clear):
     * nothing for a device outside any domain; otherwise an untimed sync
     * power-on, after which one device fewer counts as suspended and the
     * domain is powered.
     */
    method SyscorePowerOn(dev: DeviceId, hw: Hardware, ghost rank: map<DomainId, nat>)
      requires Valid() && Ranked(links, rank) && domains.Keys <= rank.Keys
      modifies this`domains, this`status, this`sdCount, this`timing
      ensures Valid()
      ensures dev !in pmDomain ==> domains == old(domains) && Snapshot() == old(Snapshot())
      ensures dev in pmDomain ==>
                var g := pmDomain[dev];
                && domains == old(domains)[g := old(domains[g]).(suspendedCount := old(domains[g].suspendedCount) - 1)]
                && Snapshot() == SyncOnF(links, old(domains), hw, rank, old(Snapshot()), g, false)
                && status[g].Active?
    {
      if dev in pmDomain {
        ResumeDomain(pmDomain[dev], false, hw, rank);
      }
    }

    /**
     * __pm_genpd_add_device (with genpd_alloc_dev_data) on registered
     * domain `g`: -ENOMEM when the domain data cannot be allocated, -EINVAL
     * when the device already has domain data, -EAGAIN while a system
     * sleep transition is prepared, the attach_dev callback's nonzero result
     * `attachResult`; each leaves everything as it was. On success the
     * device is attached to g, appended to its dev_list, counted, and g's
     * max_off_time_changed is set.
     */
    method AddDevice(g: DomainId, dev: DeviceId, allocOk: bool, attachResult: int) returns (ret: int)
      requires Valid() && g in domains
      modifies this`domains, this`pmDomain, this`domainData, this`timing
      ensures Valid()
      ensures ret == if !allocOk then ENOMEM
                     else if dev in old(domainData) then EINVAL
                     else if old(domains[g].preparedCount) > 0 then EAGAIN
                     else attachResult
      ensures ret != 0 ==> domains == old(domains) && pmDomain == old(pmDomain) && domainData == old(domainData)
                           && timing == old(timing)
      ensures ret == 0 ==>
                && domains == old(domains)[g := AttachRecord(old(domains[g]), dev)]
                && pmDomain == old(pmDomain)[dev := g] && domainData == old(domainData) + {dev}
                && timing == old(timing)[g := old(timing[g]).(maxOffTimeChanged := true)]
    {
      if !allocOk {
        return ENOMEM;
      }
      if dev in domainData {
        return EINVAL;
      }
      if domains[g].preparedCount > 0 {
        return EAGAIN;
      }
      ret := attachResult;
      if ret != 0 {
        return;
      }
      Attach(g, dev);
      MarkMaxOffTimeChanged(g);
    }

    /** The bookkeeping of a successful genpd_add_device: `dev` joins g's dev_list and count and gets g. */
    method Attach(g: DomainId, dev: DeviceId)
      requires Valid() && g in domains && dev !in domainData
      modifies this`domains, this`pmDomain, this`domainData
      ensures Valid()
      ensures domains == old(domains)[g := AttachRecord(old(domains[g]), dev)]
      ensures pmDomain == old(pmDomain)[dev := g] && domainData == old(domainData) + {dev}
    {
      AttachKeepsAttached(domains, pmDomain, domainData, g, dev);
      SameKeysKeep(links, domains, domains[g := AttachRecord(domains[g], dev)], Snapshot());
      pmDomain := pmDomain[dev := g];
      domainData := domainData + {dev};
      domains := domains[g := AttachRecord(domains[g], dev)];
    }

    /** genpd->max_off_time_changed = true, as adding or removing a device does. */
    method MarkMaxOffTimeChanged(g: DomainId)
      requires Valid() && g in domains
      modifies this`timing
      ensures Valid()
      ensures timing == old(timing)[g := old(timing[g]).(maxOffTimeChanged := true)]
    {
      timing := timing[g := timing[g].(maxOffTimeChanged := true)];
    }

    /**
     * pm_genpd_remove_device from domain `g`: -EINVAL unless the device is
     * attached to g, -EAGAIN while a system sleep transition is prepared,
     * each changing nothing. Otherwise the device is taken off g's dev_list
     * and count, loses its domain and its domain data, and g's
     * max_off_time_changed is set.
     */
    method RemoveDevice(g: DomainId, dev: DeviceId) returns (ret: int)
      requires Valid()
      modifies this`domains, this`pmDomain, this`domainData, this`timing
      ensures Valid()
      ensures ret == if dev !in old(pmDomain) || old(pmDomain[dev]) != g then EINVAL
                     else if old(domains[g].preparedCount) > 0 then EAGAIN
                     else 0
      ensures ret != 0 ==> domains == old(domains) && pmDomain == old(pmDomain) && domainData == old(domainData)
                           && timing == old(timing)
      ensures ret == 0 ==>
                && domains == old(domains)[g := DetachRecord(old(domains[g]), dev)]
                && pmDomain == old(pmDomain) - {dev} && domainData == old(domainData) - {dev}
                && timing == old(timing)[g := old(timing[g]).(maxOffTimeChanged := true)]
    {
      if dev !in pmDomain || pmDomain[dev] != g {
        return EINVAL;
      }
      if domains[g].preparedCount > 0 {
        return EAGAIN;
      }
      Detach(g, dev);
      MarkMaxOffTimeChanged(g);
      ret := 0;
    }

    /** The bookkeeping of a successful pm_genpd_remove_device: `dev` leaves g's dev_list and count and loses its domain. */
    method Detach(g: DomainId, dev: DeviceId)
      requires Valid() && dev in pmDomain && pmDomain[dev] == g
      modifies this`domains, this`pmDomain, this`domainData
      ensures Valid() && g in domains
      ensures domains == old(domains)[g := DetachRecord(old(domains[g]), dev)]
      ensures pmDomain == old(pmDomain) - {dev} && domainData == old(domainData) - {dev}
    {
      DetachKeepsAttached(domains, pmDomain, domainData, dev);
      SameKeysKeep(links, domains, domains[g := DetachRecord(domains[g], dev)], Snapshot());
      domains := domains[g := DetachRecord(domains[g], dev)];
      pmDomain := pmDomain - {dev};
      domainData := domainData - {dev};
    }

    /** The walk over a domain's master_links looking for subdomain `s`: the position of link (m, s), or -1. */
    method FindLink(m: DomainId, s: DomainId) returns (i: int)
      ensures -1 <= i < |links|
      ensures i < 0 <==> Link(m, s) !in links
      ensures i >= 0 ==> i == IndexOf(links, Link(m, s))
    {
      i := 0;
      while i < |links|
        invariant 0 <= i <= |links|
        invariant Link(m, s) !in links[..i]
      {
        if links[i] == Link(m, s) {
          ghost var k := IndexOf(links, Link(m, s));
          assert links[i] in links[..k + 1];
          return;
        }
        assert links[..i + 1] == links[..i] + [links[i]];
        i := i + 1;
      }
      assert links[..i] == links;
      return -1;
    }

    /**
     * pm_genpd_add_subdomain, master `m` and subdomain `s` both registered:
     * the links, counters and result of AddSubdomainF (Subdomains.
     * AddSubdomainOutcome, AddSubdomainCounts, RemoveUndoesAdd).
     */
    method AddSubdomain(m: DomainId, s: DomainId, allocOk: bool) returns (ret: int)
      requires Valid() && m in domains && s in domains
      modifies this`links, this`sdCount
      ensures Valid()
      ensures (links, sdCount, ret) == AddSubdomainF(old(links), status, old(sdCount), m, s, allocOk)
    {
      AddSubdomainCounts(links, domains, Snapshot(), m, s, allocOk);
      if m == s {
        return EINVAL;
      }
      if !allocOk {
        return ENOMEM;
      }
      if status[m].PowerOff? && !status[s].PowerOff? {
        return EINVAL;
      }
      var i := FindLink(m, s);
      if i >= 0 {
        return EINVAL;
      }
      links := links + [Link(m, s)];
      if !status[s].PowerOff? {
        IncSdCount(m);
      }
      ret := 0;
    }

    /**
     * pm_genpd_remove_subdomain, master `m` and subdomain `s` both
     * registered: the links, counters and result of RemoveSubdomainF
     * (Subdomains.RemoveSubdomainOutcome, RemoveSubdomainCounts).
     */
    method RemoveSubdomain(m: DomainId, s: DomainId) returns (ret: int)
      requires Valid() && m in domains && s in domains
      modifies this`links, this`sdCount
      ensures Valid()
      ensures (links, sdCount, ret) == RemoveSubdomainF(old(links), status, old(sdCount), m, s, domains[s].deviceCount)
    {
      RemoveSubdomainCounts(links, domains, Snapshot(), m, s, domains[s].deviceCount);
      if HasSlaves(links, s) || domains[s].deviceCount != 0 {
        return EBUSY;
      }
      var i := FindLink(m, s);
      if i < 0 {
        return EINVAL;
      }
      links := RemoveAt(links, i);
      if !status[s].PowerOff? {
        var _ := DecSdCount(m);
      }
      ret := 0;
    }

    /**
     * pm_genpd_init on a domain object not yet registered: no links, a zero
     * counter, the power state `isOff` asks for, no devices, no maximum
     * off time (-1), max_off_time_changed set, and the domain is
     * registered. The callbacks, governor and latencies the caller filled
     * in are kept; the sleep counters start at zero as in a zero-filled
     * object.
     */
    method Register(g: DomainId, isOff: bool, hasPowerOn: bool, hasPowerOff: bool, hasGovernor: bool,
                    powerOnLatencyNs: int, powerOffLatencyNs: int)
      requires Valid() && g !in domains
      modifies this`domains, this`status, this`sdCount, this`timing
      ensures Valid()
      ensures domains == old(domains)[g := Domain(0, 0, false, 0, [], -1, hasPowerOn, hasPowerOff, hasGovernor)]
      ensures status == old(status)[g := if isOff then PowerOff else Active]
      ensures sdCount == old(sdCount)[g := 0]
      ensures timing == old(timing)[g := Timing(powerOnLatencyNs, powerOffLatencyNs, true)]
    {
      var r := Domain(0, 0, false, 0, [], -1, hasPowerOn, hasPowerOff, hasGovernor);
      var s := if isOff then PowerOff else Active;
      var t := Timing(powerOnLatencyNs, powerOffLatencyNs, true);
      RegisterKeepsAttached(domains, pmDomain, domainData, g, r);
      RegisterCounts(links, domains, Snapshot(), g, r, s, t);
      domains := domains[g := r];
      status := status[g := s];
      sdCount := sdCount[g := 0];
      timing := timing[g := t];
    }
  }
}
