/**
 * Runtime power-off as a function of the propagation state: the checks of
 * genpd_poweroff, the power_off callback, and the release of every master
 * (one count dropped, the master queued for its own power-off). Proved:
 * a refused call changes nothing, a failing callback changes only the
 * latency marks, a successful one powers the domain off and takes exactly
 * its links' counts from its masters, and in every case every domain's
 * Excess is kept.
 */
module Shutdown {
  import opened Types
  import opened Topology
  import opened Gates
  import opened Propagation

  /** The loop at the end of genpd_poweroff over masters `ms`, in list order. */
  function Release(st: PState, ms: seq<DomainId>): PState
    decreases |ms|
  {
    if ms == [] then st
    else Release(st.(sdCount := DecAt(st.sdCount, ms[0]), queue := Enqueue(st.queue, ms[0])), ms[1..])
  }

  /** Releasing touches only counters and queue: it keeps the pending work and queues every master. */
  lemma {:induction false} ReleaseFacts(st: PState, ms: seq<DomainId>)
    ensures Release(st, ms).status == st.status && Release(st, ms).timing == st.timing
    ensures Release(st, ms).sdCount.Keys == st.sdCount.Keys
    ensures forall x :: x in st.sdCount && x !in ms ==> Release(st, ms).sdCount[x] == st.sdCount[x]
    ensures forall x :: x in Release(st, ms).queue <==> x in st.queue || x in ms
    decreases |ms|
  {
    if ms != [] {
      var s1 := st.(sdCount := DecAt(st.sdCount, ms[0]), queue := Enqueue(st.queue, ms[0]));
      ReleaseFacts(s1, ms[1..]);
      assert ms == [ms[0]] + ms[1..];
    }
  }

  /** When every counter can pay for it, releasing takes exactly one count per occurrence. */
  lemma {:induction false} ReleaseExact(st: PState, ms: seq<DomainId>)
    requires forall m :: m in ms ==> m in st.sdCount
    requires forall x :: x in st.sdCount ==> st.sdCount[x] >= multiset(ms)[x]
    ensures forall x :: x in st.sdCount ==>
              x in Release(st, ms).sdCount && Release(st, ms).sdCount[x] == st.sdCount[x] - multiset(ms)[x]
    decreases |ms|
  {
    ReleaseFacts(st, ms);
    if ms != [] {
      assert ms == [ms[0]] + ms[1..];
      assert forall m :: m in ms[1..] ==> m in ms;
      ReleaseExact(st.(sdCount := DecAt(st.sdCount, ms[0]), queue := Enqueue(st.queue, ms[0])), ms[1..]);
    }
  }

  /** The verdict of genpd_poweroff's checks on `d`, its devices' runtime state and the governor. */
  function Verdict(domains: map<DomainId, Domain>, st: PState, d: DomainId, devices: DeviceId -> DevicePm,
                   isAsync: bool, governorOk: bool): Gate
    requires Wf(domains, st) && d in domains
  {
    var devList := domains[d].devList;
    PowerOffGate(st.status[d], st.sdCount[d], domains[d], AnyQosForbids(devList, devices),
                 NotSuspendedCount(devList, devices), isAsync, governorOk)
  }

  /**
   * genpd_poweroff on `d`: the new state and the result. `raced` is the
   * number of subdomain power-ons that counted themselves in d's sd_count
   * between its first check and the recheck just before power_off.
   */
  function PowerOffF(links: seq<Link>, domains: map<DomainId, Domain>, hw: Hardware, st: PState, d: DomainId,
                     devices: DeviceId -> DevicePm, isAsync: bool, governorOk: bool, raced: nat): (PState, int)
    requires Wf(domains, st) && d in domains
  {
    var v := Verdict(domains, st, d, devices, isAsync, governorOk);
    if !v.Proceed? then (st, GateCode(v))
    else if domains[d].hasPowerOff && raced > 0 then (st, EBUSY)
    else
      var timing := st.timing[d := OffTiming(st.timing[d], domains[d], d, true, hw)];
      var ret := OffResult(domains[d], d, hw);
      if ret != 0 then (st.(timing := timing), ret)
      else (Release(st.(status := st.status[d := PowerOff], timing := timing), Masters(links, d)), 0)
  }

  /**
   * The checks of genpd_poweroff, in the source's order: each refusal
   * returns its code and changes nothing.
   */
  lemma PowerOffChecks(links: seq<Link>, domains: map<DomainId, Domain>, hw: Hardware, st: PState, d: DomainId,
                       devices: DeviceId -> DevicePm, isAsync: bool, governorOk: bool, raced: nat)
    requires Wf(domains, st) && d in domains
    ensures var (r, ret) := PowerOffF(links, domains, hw, st, d, devices, isAsync, governorOk, raced);
            var g := domains[d];
            var n := NotSuspendedCount(g.devList, devices);
            && (st.status[d].PowerOff? || g.preparedCount > 0 ==> r == st && ret == 0)
            && (st.status[d].Active? && g.preparedCount <= 0
                && (st.sdCount[d] > 0 || AnyQosForbids(g.devList, devices) || n > 1 || (n == 1 && isAsync))
                ==> r == st && ret == EBUSY)
            && (st.status[d].Active? && g.preparedCount <= 0 && st.sdCount[d] == 0 && !AnyQosForbids(g.devList, devices)
                && (n == 0 || (n == 1 && !isAsync)) && g.hasGovernor && !governorOk
                ==> r == st && ret == EAGAIN)
            && (Verdict(domains, st, d, devices, isAsync, governorOk).Proceed? && g.hasPowerOff && raced > 0
                ==> r == st && ret == EBUSY)
  {
  }

  /**
   * What genpd_poweroff does once its checks pass: a failing power_off
   * leaves everything but the latency marks and returns the callback's
   * code; otherwise d is off, every master has lost exactly one count per
   * link to d and is queued for power-off, and nothing already queued is
   * lost.
   */
  lemma PowerOffOutcome(links: seq<Link>, domains: map<DomainId, Domain>, hw: Hardware, st: PState, d: DomainId,
                        devices: DeviceId -> DevicePm, isAsync: bool, governorOk: bool, raced: nat)
    requires Wf(domains, st) && d in domains && LinksWithin(links, domains) && Covered(links, domains, st)
    requires Verdict(domains, st, d, devices, isAsync, governorOk).Proceed? && !(domains[d].hasPowerOff && raced > 0)
    ensures var (r, ret) := PowerOffF(links, domains, hw, st, d, devices, isAsync, governorOk, raced);
            && ret == OffResult(domains[d], d, hw)
            && r.timing == st.timing[d := OffTiming(st.timing[d], domains[d], d, true, hw)]
            && (ret != 0 ==> r.status == st.status && r.sdCount == st.sdCount && r.queue == st.queue)
            && (ret == 0 ==>
                  && r.status == st.status[d := PowerOff]
                  && (forall x :: x in domains ==> x in r.sdCount && r.sdCount[x] == st.sdCount[x] - CountLinks(links, x, d))
                  && (forall x :: x in r.queue <==> x in st.queue || x in Masters(links, d)))
  {
    var ms := Masters(links, d);
    var s1 := st.(status := st.status[d := PowerOff], timing := st.timing[d := OffTiming(st.timing[d], domains[d], d, true, hw)]);
    ReleaseFacts(s1, ms);
    if OffResult(domains[d], d, hw) == 0 {
      ReleaseCountsLinks(links, domains, st, s1, d);
    }
  }

  /** The counts genpd_poweroff takes from d's masters: one per link, each paid for by d having been powered. */
  lemma ReleaseCountsLinks(links: seq<Link>, domains: map<DomainId, Domain>, st: PState, s1: PState, d: DomainId)
    requires Wf(domains, st) && d in domains && LinksWithin(links, domains) && Covered(links, domains, st)
    requires st.status[d].Active? && s1.sdCount == st.sdCount
    ensures forall x :: x in domains ==>
              x in Release(s1, Masters(links, d)).sdCount
              && Release(s1, Masters(links, d)).sdCount[x] == st.sdCount[x] - CountLinks(links, x, d)
  {
    var ms := Masters(links, d);
    MastersIn(links, domains, d);
    forall x | x in s1.sdCount
      ensures s1.sdCount[x] >= multiset(ms)[x]
    {
      MastersCountLinks(links, d, x);
      if x in domains {
        ActiveSlavesCoverLinks(links, st.status, x, d);
      } else {
        assert x !in ms;
      }
    }
    ReleaseExact(s1, ms);
    forall x | x in domains
      ensures multiset(ms)[x] == CountLinks(links, x, d)
    {
      MastersCountLinks(links, d, x);
    }
  }

  /**
   * genpd_poweroff keeps every domain's Excess, and so keeps the counters
   * covering the powered slaves: turning d off frees exactly the counts its
   * masters then give up.
   */
  lemma PowerOffCounts(links: seq<Link>, domains: map<DomainId, Domain>, hw: Hardware, st: PState, d: DomainId,
                       devices: DeviceId -> DevicePm, isAsync: bool, governorOk: bool, raced: nat)
    requires Wf(domains, st) && d in domains && LinksWithin(links, domains) && Covered(links, domains, st)
    ensures var r := PowerOffF(links, domains, hw, st, d, devices, isAsync, governorOk, raced).0;
            SameExcess(links, domains, st, r) && Covered(links, domains, r)
  {
    var (r, ret) := PowerOffF(links, domains, hw, st, d, devices, isAsync, governorOk, raced);
    if Verdict(domains, st, d, devices, isAsync, governorOk).Proceed? && !(domains[d].hasPowerOff && raced > 0) && ret == 0 {
      var s1 := st.(status := st.status[d := PowerOff], timing := st.timing[d := OffTiming(st.timing[d], domains[d], d, true, hw)]);
      ReleaseFacts(s1, Masters(links, d));
      ReleaseCountsLinks(links, domains, st, s1, d);
      ExcessAfterStatus(links, st.status, r.sdCount, d, PowerOff);
      forall x | x in domains
        ensures Excess(links, r.status, r.sdCount, x) == Excess(links, st.status, st.sdCount, x)
      {
        ExcessAfterStatus(links, st.status, st.sdCount, d, PowerOff);
      }
    }
  }
}
