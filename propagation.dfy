/**
 * Runtime power propagation as functions of the propagation state: what
 * __genpd_poweron computes (the masters first, in slave_links order, then
 * the domain itself, unwinding on failure), and the facts about it that the
 * class methods of Genpd inherit: counters keep covering the powered slaves,
 * no domain is powered off, domains ranked above the target are untouched,
 * and success or failure is reported as the source reports it.
 */
module Propagation {
  import opened Types
  import opened Topology

  /** The part of the graph that power propagation changes. */
  datatype PState = PState(
    status: map<DomainId, Status>,
    sdCount: map<DomainId, nat>,
    timing: map<DomainId, Timing>,
    queue: set<DomainId>)

  /** What a successful genpd_poweron leaves behind: power, or a deferred power-on. */
  predicate Powered(s: Status, g: Domain) {
    s.Active? || Deferred(g)
  }

  /** Links join two distinct registered domains. */
  predicate LinksWithin(links: seq<Link>, domains: map<DomainId, Domain>) {
    forall l :: l in links ==> l.master in domains && l.slave in domains && l.master != l.slave
  }

  /** The graph propagation walks: links inside `domains`, acyclic by `rank`. */
  ghost predicate Setting(links: seq<Link>, domains: map<DomainId, Domain>, rank: map<DomainId, nat>) {
    LinksWithin(links, domains) && Ranked(links, rank) && domains.Keys <= rank.Keys
  }

  /** Every registered domain has a power state, a counter and latency marks. */
  predicate Wf(domains: map<DomainId, Domain>, st: PState) {
    forall x :: x in domains ==> x in st.status && x in st.sdCount && x in st.timing
  }

  /** Every registered domain's counter accounts at least for its powered slaves. */
  ghost predicate Covered(links: seq<Link>, domains: map<DomainId, Domain>, st: PState) {
    forall x :: x in domains ==> x in st.sdCount && Excess(links, st.status, st.sdCount, x) >= 0
  }

  /** `b` has the Excess of `a` at every registered domain. */
  ghost predicate SameExcess(links: seq<Link>, domains: map<DomainId, Domain>, a: PState, b: PState) {
    forall x :: x in domains && x in a.sdCount && x in b.sdCount ==>
      Excess(links, b.status, b.sdCount, x) == Excess(links, a.status, a.sdCount, x)
  }

  /** How a change of one slave's power state moves its master's count of powered slaves, for `n` links. */
  function StatusShift(before: Status, after: Status, n: nat): int {
    if before == after then 0 else if after.Active? then n as int else 0 - n
  }

  /**
   * Changing one domain's power state moves each domain's Excess by the
   * number of links from it to the changed domain.
   */
  lemma ExcessAfterStatus(links: seq<Link>, status: map<DomainId, Status>, sdCount: map<DomainId, nat>, d: DomainId, s: Status)
    requires d in status
    ensures forall x :: x in sdCount ==>
              Excess(links, status[d := s], sdCount, x)
                == Excess(links, status, sdCount, x) - StatusShift(status[d], s, CountLinks(links, x, d))
  {
    forall x | x in sdCount
      ensures Excess(links, status[d := s], sdCount, x)
                == Excess(links, status, sdCount, x) - StatusShift(status[d], s, CountLinks(links, x, d))
    {
      ActiveSlavesStep(links, status, status[d := s], d, x);
    }
  }

  /** Every domain powered in `a` is powered in `b`. */
  ghost predicate NoneOff(a: map<DomainId, Status>, b: map<DomainId, Status>) {
    forall x :: x in a && a[x].Active? ==> x in b && b[x].Active?
  }

  /** Every domain ranked `r` or above keeps its entry of `a` in `b`. */
  ghost predicate FixedFrom<V>(a: map<DomainId, V>, b: map<DomainId, V>, rank: map<DomainId, nat>, r: int) {
    forall x :: x in a && x in rank && rank[x] >= r ==> x in b && b[x] == a[x]
  }

  /** `ret` is what some registered domain's power_on callback returned. */
  ghost predicate CallbackError(domains: map<DomainId, Domain>, hw: Hardware, ret: int) {
    exists x :: x in domains && OnResult(domains[x], x, hw) == ret
  }

  /** The power-on latency mark after a successful power_on measured at `elapsed` ns. */
  function TimedOn(t: Timing, elapsed: int): (r: Timing)
    ensures r.powerOffLatencyNs == t.powerOffLatencyNs
    ensures r.powerOnLatencyNs == RaiseLatency(t.powerOnLatencyNs, elapsed).0
    ensures r.maxOffTimeChanged == (t.maxOffTimeChanged || elapsed > t.powerOnLatencyNs)
  {
    var (mark, raised) := RaiseLatency(t.powerOnLatencyNs, elapsed);
    if raised then t.(powerOnLatencyNs := mark, maxOffTimeChanged := true) else t
  }

  /** The power-off latency mark after a power_off measured at `elapsed` ns. */
  function TimedOff(t: Timing, elapsed: int): (r: Timing)
    ensures r.powerOnLatencyNs == t.powerOnLatencyNs
    ensures r.powerOffLatencyNs == RaiseLatency(t.powerOffLatencyNs, elapsed).0
    ensures r.maxOffTimeChanged == (t.maxOffTimeChanged || elapsed > t.powerOffLatencyNs)
  {
    var (mark, raised) := RaiseLatency(t.powerOffLatencyNs, elapsed);
    if raised then t.(powerOffLatencyNs := mark, maxOffTimeChanged := true) else t
  }

  /** What genpd_power_on returns: the callback's result, or 0 without a callback. */
  function OnResult(g: Domain, d: DomainId, hw: Hardware): int {
    if g.hasPowerOn then hw.powerOnResult(d) else 0
  }

  /** The latency marks genpd_power_on leaves: raised only by a timed, successful callback. */
  function OnTiming(t: Timing, g: Domain, d: DomainId, timed: bool, hw: Hardware): Timing {
    if g.hasPowerOn && timed && hw.powerOnResult(d) == 0 then TimedOn(t, hw.powerOnNs(d)) else t
  }

  /** What genpd_power_off returns. */
  function OffResult(g: Domain, d: DomainId, hw: Hardware): int {
    if g.hasPowerOff then hw.powerOffResult(d) else 0
  }

  /** The latency marks genpd_power_off leaves: any timed outcome but -EBUSY is measured. */
  function OffTiming(t: Timing, g: Domain, d: DomainId, timed: bool, hw: Hardware): Timing {
    if g.hasPowerOff && timed && hw.powerOffResult(d) != EBUSY then TimedOff(t, hw.powerOffNs(d)) else t
  }

  /** queue_work on m's power_off_work: an item already pending stays pending once. */
  function Enqueue(queue: set<DomainId>, m: DomainId): set<DomainId> {
    queue + {m}
  }

  /** genpd_sd_counter_inc on master `m`. */
  function Inc(st: PState, m: DomainId): PState {
    if m in st.sdCount then st.(sdCount := st.sdCount[m := SdCounterInc(st.sdCount[m])]) else st
  }

  /** genpd_sd_counter_dec on master `m`'s entry of the counter map. */
  function DecAt(c: map<DomainId, nat>, m: DomainId): map<DomainId, nat> {
    if m in c then c[m := SdCounterDec(c[m]).0] else c
  }

  /** The counters after the error path of __genpd_poweron releases `ms`, newest first. */
  function UnwindCounts(c: map<DomainId, nat>, ms: seq<DomainId>): (r: map<DomainId, nat>)
    ensures r.Keys == c.Keys
  {
    if ms == [] then c
    else
      UnwindCounts(DecAt(c, ms[|ms| - 1]), ms[..|ms| - 1])
  }

  /** Unwinding touches only the released counters. */
  lemma {:induction false} UnwindCountsFacts(c: map<DomainId, nat>, ms: seq<DomainId>)
    ensures forall x :: x in c && x !in ms ==> UnwindCounts(c, ms)[x] == c[x]
  {
    if ms != [] {
      assert forall x :: x in ms[..|ms| - 1] ==> x in ms;
      UnwindCountsFacts(DecAt(c, ms[|ms| - 1]), ms[..|ms| - 1]);
    }
  }

  /** The work queue after the error path of __genpd_poweron queues `ms`, newest first. */
  function UnwindQueue(q: set<DomainId>, ms: seq<DomainId>): set<DomainId>
    decreases |ms|
  {
    if ms == [] then q
    else
      UnwindQueue(Enqueue(q, ms[|ms| - 1]), ms[..|ms| - 1])
  }

  /** Unwinding keeps the pending work and adds exactly the released masters. */
  lemma {:induction false} UnwindQueueFacts(q: set<DomainId>, ms: seq<DomainId>)
    ensures forall x :: x in UnwindQueue(q, ms) <==> x in q || x in ms
    decreases |ms|
  {
    if ms != [] {
      var last := ms[|ms| - 1];
      UnwindQueueFacts(Enqueue(q, last), ms[..|ms| - 1]);
      assert ms == ms[..|ms| - 1] + [last];
    }
  }

  /** Unwinding the first `j` masters releases the j-th first, then the rest. */
  lemma UnwindLast(c: map<DomainId, nat>, q: set<DomainId>, ms: seq<DomainId>, j: nat)
    requires 0 < j <= |ms|
    ensures UnwindCounts(c, ms[..j]) == UnwindCounts(DecAt(c, ms[j - 1]), ms[..j - 1])
    ensures UnwindQueue(q, ms[..j]) == UnwindQueue(Enqueue(q, ms[j - 1]), ms[..j - 1])
  {
    assert ms[..j][..j - 1] == ms[..j - 1];
  }

  /** The error path of __genpd_poweron over the first `n` masters `ms`. */
  function Unwind(st: PState, ms: seq<DomainId>, n: nat): (r: PState)
    requires n <= |ms|
  {
    st.(sdCount := UnwindCounts(st.sdCount, ms[..n]), queue := UnwindQueue(st.queue, ms[..n]))
  }

  /**
   * __genpd_poweron on domain `d`: the new state and the return value.
   * `rank` only bounds the recursion.
   */
  ghost function PowerOnF(links: seq<Link>, domains: map<DomainId, Domain>, hw: Hardware, rank: map<DomainId, nat>,
                          st: PState, d: DomainId): (r: (PState, int))
    requires Setting(links, domains, rank) && Wf(domains, st) && d in domains
    ensures Wf(domains, r.0)
    decreases rank[d], 1
  {
    if Powered(st.status[d], domains[d]) then (st, 0)
    else
      MastersWithin(links, domains, rank, d);
      var t := MastersOnF(links, domains, hw, rank, st, d, 0);
      var ms := Masters(links, d);
      Finish(links, domains, hw, t.0, d, t.1, t.2)
  }

  /**
   * The end of __genpd_poweron once the masters' loop stopped at `n` with
   * `ret`: on a master's failure, unwind the n counted masters; otherwise run
   * power_on (timed) and either mark d active or unwind all masters.
   */
  function Finish(links: seq<Link>, domains: map<DomainId, Domain>, hw: Hardware, s1: PState, d: DomainId, ret: int, n: nat): (r: (PState, int))
    requires d in domains && n <= |Masters(links, d)| && d in s1.status && d in s1.timing
  {
    var ms := Masters(links, d);
    if ret != 0 then (Unwind(s1, ms, n), ret)
    else if OnResult(domains[d], d, hw) != 0 then (Unwind(s1, ms, |ms|), OnResult(domains[d], d, hw))
    else (s1.(status := s1.status[d := Active], timing := s1.timing[d := OnTiming(s1.timing[d], domains[d], d, true, hw)]), 0)
  }

  /**
   * The forward loop of __genpd_poweron from the n-th master on: count d in
   * the master's sd_count and power it on; a failing master's count is
   * released and the walk stops. Returns the state, the result and how many
   * masters are powered.
   */
  ghost function MastersOnF(links: seq<Link>, domains: map<DomainId, Domain>, hw: Hardware, rank: map<DomainId, nat>,
                            st: PState, d: DomainId, n: nat): (r: (PState, int, nat))
    requires Setting(links, domains, rank) && Wf(domains, st) && d in domains && n <= |Masters(links, d)|
    ensures Wf(domains, r.0) && n <= r.2 <= |Masters(links, d)|
    ensures r.1 == 0 ==> r.2 == |Masters(links, d)|
    decreases rank[d], 0, |Masters(links, d)| - n
  {
    var ms := Masters(links, d);
    if n == |ms| then (st, 0, n)
    else
      MastersWithin(links, domains, rank, d);
      var t := PowerOnF(links, domains, hw, rank, Inc(st, ms[n]), ms[n]);
      if t.1 != 0 then (t.0.(sdCount := DecAt(t.0.sdCount, ms[n])), t.1, n)
      else MastersOnF(links, domains, hw, rank, t.0, d, n + 1)
  }

  /** The masters of a registered domain are registered and rank below it. */
  lemma MastersWithin(links: seq<Link>, domains: map<DomainId, Domain>, rank: map<DomainId, nat>, d: DomainId)
    requires Setting(links, domains, rank) && d in domains
    ensures forall j :: 0 <= j < |Masters(links, d)| ==>
              Masters(links, d)[j] in domains && Masters(links, d)[j] != d && rank[Masters(links, d)[j]] < rank[d]
  {
    forall j | 0 <= j < |Masters(links, d)|
      ensures Masters(links, d)[j] in domains && Masters(links, d)[j] != d && rank[Masters(links, d)[j]] < rank[d]
    {
      MastersAreLinked(links, d, Masters(links, d)[j]);
    }
  }

  /** The masters of a registered domain are registered. */
  lemma MastersIn(links: seq<Link>, domains: map<DomainId, Domain>, d: DomainId)
    requires LinksWithin(links, domains)
    ensures forall j :: 0 <= j < |Masters(links, d)| ==> Masters(links, d)[j] in domains
  {
    forall j | 0 <= j < |Masters(links, d)|
      ensures Masters(links, d)[j] in domains
    {
      MastersAreLinked(links, d, Masters(links, d)[j]);
    }
  }

  /** When every counter can pay for it, unwinding takes exactly one count per release. */
  lemma {:induction false} UnwindExact(c: map<DomainId, nat>, ms: seq<DomainId>)
    requires forall m :: m in ms ==> m in c
    requires forall x :: x in c ==> c[x] >= multiset(ms)[x]
    ensures forall x :: x in c ==> x in UnwindCounts(c, ms) && UnwindCounts(c, ms)[x] == c[x] - multiset(ms)[x]
  {
    UnwindCountsFacts(c, ms);
    if ms != [] {
      var last := ms[|ms| - 1];
      assert ms == ms[..|ms| - 1] + [last];
      assert forall m :: m in ms[..|ms| - 1] ==> m in ms;
      UnwindExact(DecAt(c, last), ms[..|ms| - 1]);
    }
  }

  lemma NoneOffTrans(a: map<DomainId, Status>, b: map<DomainId, Status>, c: map<DomainId, Status>)
    requires NoneOff(a, b) && NoneOff(b, c)
    ensures NoneOff(a, c)
  {
  }

  /** No power state, latency mark or counter of a domain ranked `r` or higher differs between `a` and `b`. */
  ghost predicate Untouched(a: PState, b: PState, rank: map<DomainId, nat>, r: int) {
    FixedFrom(a.status, b.status, rank, r) && FixedFrom(a.timing, b.timing, rank, r) && FixedFrom(a.sdCount, b.sdCount, rank, r)
  }

  lemma FixedFromTrans<V>(a: map<DomainId, V>, b: map<DomainId, V>, c: map<DomainId, V>, rank: map<DomainId, nat>, r: int, r2: int)
    requires FixedFrom(a, b, rank, r) && FixedFrom(b, c, rank, r2) && r2 <= r
    ensures FixedFrom(a, c, rank, r)
  {
  }

  lemma UntouchedTrans(a: PState, b: PState, c: PState, rank: map<DomainId, nat>, r1: int, r2: int, r: int)
    requires Untouched(a, b, rank, r1) && Untouched(b, c, rank, r2) && r1 <= r && r2 <= r
    ensures Untouched(a, c, rank, r)
  {
  }

  /** Changing only the counter of a master `m` ranked below `r` leaves everything from `r` on. */
  lemma CountBelow(st: PState, c: map<DomainId, nat>, rank: map<DomainId, nat>, m: DomainId, r: int)
    requires m in rank && rank[m] < r && st.sdCount.Keys <= c.Keys
    requires forall x :: x in st.sdCount && x != m ==> c[x] == st.sdCount[x]
    ensures Untouched(st, st.(sdCount := c), rank, r)
  {
  }

  /**
   * __genpd_poweron(d) changes no power state, counter or latency of a
   * domain ranked above d, and leaves d's own counter alone.
   */
  lemma {:induction false} PowerOnAbove(links: seq<Link>, domains: map<DomainId, Domain>, hw: Hardware, rank: map<DomainId, nat>,
                                        st: PState, d: DomainId)
    requires Setting(links, domains, rank) && Wf(domains, st) && d in domains
    ensures var r := PowerOnF(links, domains, hw, rank, st, d).0;
            Untouched(st, r, rank, rank[d] + 1) && r.sdCount[d] == st.sdCount[d]
    decreases rank[d], 1
  {
    if !Powered(st.status[d], domains[d]) {
      var ms := Masters(links, d);
      MastersWithin(links, domains, rank, d);
      MastersOnAbove(links, domains, hw, rank, st, d, 0);
      var (s1, ret, n) := MastersOnF(links, domains, hw, rank, st, d, 0);
      var r := PowerOnF(links, domains, hw, rank, st, d).0;
      if ret != 0 || OnResult(domains[d], d, hw) != 0 {
        var k := if ret != 0 then n else |ms|;
        assert r == Unwind(s1, ms, k);
        UnwindCountsFacts(s1.sdCount, ms[..k]);
        assert forall x :: x in ms[..k] ==> x in ms;
        assert Untouched(s1, r, rank, rank[d]);
      }
      UntouchedTrans(st, s1, r, rank, rank[d], rank[d] + 1, rank[d] + 1);
    }
  }

  lemma {:induction false} MastersOnAbove(links: seq<Link>, domains: map<DomainId, Domain>, hw: Hardware, rank: map<DomainId, nat>,
                                          st: PState, d: DomainId, n: nat)
    requires Setting(links, domains, rank) && Wf(domains, st) && d in domains && n <= |Masters(links, d)|
    ensures Untouched(st, MastersOnF(links, domains, hw, rank, st, d, n).0, rank, rank[d])
    decreases rank[d], 0, |Masters(links, d)| - n
  {
    var ms := Masters(links, d);
    if n < |ms| {
      MastersWithin(links, domains, rank, d);
      var m := ms[n];
      var s1 := Inc(st, m);
      CountBelow(st, s1.sdCount, rank, m, rank[d]);
      PowerOnAbove(links, domains, hw, rank, s1, m);
      var (s2, ret) := PowerOnF(links, domains, hw, rank, s1, m);
      UntouchedTrans(st, s1, s2, rank, rank[d], rank[m] + 1, rank[d]);
      if ret != 0 {
        CountBelow(s2, DecAt(s2.sdCount, m), rank, m, rank[d]);
        UntouchedTrans(st, s2, s2.(sdCount := DecAt(s2.sdCount, m)), rank, rank[d], rank[d], rank[d]);
      } else {
        MastersOnAbove(links, domains, hw, rank, s2, d, n + 1);
        UntouchedTrans(st, s2, MastersOnF(links, domains, hw, rank, s2, d, n + 1).0, rank, rank[d], rank[d], rank[d]);
      }
    }
  }

  /** __genpd_poweron powers no domain off and only adds registered domains to the pending work. */
  lemma {:induction false} PowerOnMonotone(links: seq<Link>, domains: map<DomainId, Domain>, hw: Hardware, rank: map<DomainId, nat>,
                                           st: PState, d: DomainId)
    requires Setting(links, domains, rank) && Wf(domains, st) && d in domains
    ensures var r := PowerOnF(links, domains, hw, rank, st, d).0;
            && NoneOff(st.status, r.status) && st.queue <= r.queue
            && forall x :: x in r.queue ==> x in st.queue || x in domains
    decreases rank[d], 1
  {
    if !Powered(st.status[d], domains[d]) {
      MastersWithin(links, domains, rank, d);
      MastersOnMonotone(links, domains, hw, rank, st, d, 0);
      var ms := Masters(links, d);
      var (s1, ret, n) := MastersOnF(links, domains, hw, rank, st, d, 0);
      var r := PowerOnF(links, domains, hw, rank, st, d).0;
      if ret != 0 || OnResult(domains[d], d, hw) != 0 {
        var k := if ret != 0 then n else |ms|;
        assert r == Unwind(s1, ms, k);
        UnwindQueueFacts(s1.queue, ms[..k]);
        assert forall x :: x in ms[..k] ==> x in ms;
      } else {
        assert r.queue == s1.queue;
      }
      assert NoneOff(s1.status, r.status);
      NoneOffTrans(st.status, s1.status, r.status);
    }
  }

  lemma {:induction false} MastersOnMonotone(links: seq<Link>, domains: map<DomainId, Domain>, hw: Hardware, rank: map<DomainId, nat>,
                                             st: PState, d: DomainId, n: nat)
    requires Setting(links, domains, rank) && Wf(domains, st) && d in domains && n <= |Masters(links, d)|
    ensures var r := MastersOnF(links, domains, hw, rank, st, d, n).0;
            && NoneOff(st.status, r.status) && st.queue <= r.queue
            && forall x :: x in r.queue ==> x in st.queue || x in domains
    decreases rank[d], 0, |Masters(links, d)| - n
  {
    var ms := Masters(links, d);
    if n < |ms| {
      MastersWithin(links, domains, rank, d);
      var m := ms[n];
      var s1 := Inc(st, m);
      PowerOnMonotone(links, domains, hw, rank, s1, m);
      var s2 := PowerOnF(links, domains, hw, rank, s1, m).0;
      if PowerOnF(links, domains, hw, rank, s1, m).1 == 0 {
        var r := MastersOnF(links, domains, hw, rank, s2, d, n + 1).0;
        MastersOnMonotone(links, domains, hw, rank, s2, d, n + 1);
        NoneOffTrans(st.status, s2.status, r.status);
      }
    }
  }

  /** Counting one more slave in m's counter raises m's Excess by one and no other. */
  lemma IncExcess(links: seq<Link>, domains: map<DomainId, Domain>, st: PState, m: DomainId)
    requires Wf(domains, st) && m in domains && Covered(links, domains, st)
    ensures forall x :: x in domains ==>
              Excess(links, Inc(st, m).status, Inc(st, m).sdCount, x)
                == Excess(links, st.status, st.sdCount, x) + (if x == m then 1 else 0)
    ensures Covered(links, domains, Inc(st, m))
  {
  }

  /** Releasing a count that is there lowers m's Excess by one and no other. */
  lemma DecExcess(links: seq<Link>, domains: map<DomainId, Domain>, st: PState, m: DomainId)
    requires Wf(domains, st) && m in domains && st.sdCount[m] >= 1
    ensures forall x :: x in domains ==>
              Excess(links, st.status, DecAt(st.sdCount, m), x)
                == Excess(links, st.status, st.sdCount, x) - (if x == m then 1 else 0)
  {
  }

  lemma CoveredBySame(links: seq<Link>, domains: map<DomainId, Domain>, a: PState, b: PState)
    requires Wf(domains, a) && Wf(domains, b) && Covered(links, domains, a) && SameExcess(links, domains, a, b)
    ensures Covered(links, domains, b)
  {
  }

  lemma SliceHead(ms: seq<DomainId>, n: nat, k: nat)
    requires n < k <= |ms|
    ensures multiset(ms[n..k]) == multiset{ms[n]} + multiset(ms[n + 1..k])
  {
    assert ms[n..k] == [ms[n]] + ms[n + 1..k];
  }

  /**
   * __genpd_poweron keeps every counter's Excess, and with it the covering
   * of powered slaves: each count it takes on a master is matched by a slave
   * it powers, and every count of an abandoned attempt is given back.
   */
  lemma {:induction false} PowerOnCounts(links: seq<Link>, domains: map<DomainId, Domain>, hw: Hardware, rank: map<DomainId, nat>,
                                         st: PState, d: DomainId)
    requires Setting(links, domains, rank) && Wf(domains, st) && d in domains && Covered(links, domains, st)
    ensures SameExcess(links, domains, st, PowerOnF(links, domains, hw, rank, st, d).0)
    decreases rank[d], 1
  {
    if !Powered(st.status[d], domains[d]) {
      var ms := Masters(links, d);
      MastersWithin(links, domains, rank, d);
      MastersOnCounts(links, domains, hw, rank, st, d, 0);
      MastersOnAbove(links, domains, hw, rank, st, d, 0);
      var (s1, ret, n) := MastersOnF(links, domains, hw, rank, st, d, 0);
      var r := PowerOnF(links, domains, hw, rank, st, d).0;
      var k := if ret != 0 then n else |ms|;
      assert ms[0..k] == ms[..k];
      if ret != 0 || OnResult(domains[d], d, hw) != 0 {
        assert r == Unwind(s1, ms, k);
        UnwoundExcess(links, domains, st, s1, ms, k);
      } else {
        assert ms[..k] == ms;
        PoweredExcess(links, domains, st, s1, d);
      }
    }
  }

  /** Giving back the counts of an abandoned attempt restores every Excess. */
  lemma UnwoundExcess(links: seq<Link>, domains: map<DomainId, Domain>, st: PState, s1: PState, ms: seq<DomainId>, k: nat)
    requires Wf(domains, st) && Wf(domains, s1) && Covered(links, domains, st)
    requires k <= |ms| && forall m :: m in ms ==> m in domains
    requires forall x :: x in domains ==>
               Excess(links, s1.status, s1.sdCount, x) == Excess(links, st.status, st.sdCount, x) + multiset(ms[..k])[x]
    ensures SameExcess(links, domains, st, Unwind(s1, ms, k))
  {
    assert forall x :: x in ms[..k] ==> x in ms;
    forall x | x in s1.sdCount
      ensures s1.sdCount[x] >= multiset(ms[..k])[x]
    {
      if x !in domains {
        assert x !in ms[..k];
      }
    }
    UnwindExact(s1.sdCount, ms[..k]);
  }

  /** Powering `d` after counting it once in each of its masters restores every Excess. */
  lemma PoweredExcess(links: seq<Link>, domains: map<DomainId, Domain>, st: PState, s1: PState, d: DomainId)
    requires Wf(domains, st) && Wf(domains, s1) && d in domains && s1.status[d].PowerOff?
    requires forall x :: x in domains ==>
               Excess(links, s1.status, s1.sdCount, x) == Excess(links, st.status, st.sdCount, x) + multiset(Masters(links, d))[x]
    ensures forall x :: x in domains ==>
              Excess(links, s1.status[d := Active], s1.sdCount, x) == Excess(links, st.status, st.sdCount, x)
  {
    ExcessAfterStatus(links, s1.status, s1.sdCount, d, Active);
    forall x | x in domains
      ensures multiset(Masters(links, d))[x] == CountLinks(links, x, d)
    {
      MastersCountLinks(links, d, x);
    }
  }

  lemma {:induction false} MastersOnCounts(links: seq<Link>, domains: map<DomainId, Domain>, hw: Hardware, rank: map<DomainId, nat>,
                                           st: PState, d: DomainId, n: nat)
    requires Setting(links, domains, rank) && Wf(domains, st) && d in domains && n <= |Masters(links, d)|
    requires Covered(links, domains, st)
    ensures var (r, _, k) := MastersOnF(links, domains, hw, rank, st, d, n);
            forall x :: x in domains ==>
              Excess(links, r.status, r.sdCount, x) == Excess(links, st.status, st.sdCount, x) + multiset(Masters(links, d)[n..k])[x]
    decreases rank[d], 0, |Masters(links, d)| - n
  {
    var ms := Masters(links, d);
    if n < |ms| {
      MastersWithin(links, domains, rank, d);
      var m := ms[n];
      var s1 := Inc(st, m);
      IncExcess(links, domains, st, m);
      PowerOnCounts(links, domains, hw, rank, s1, m);
      PowerOnAbove(links, domains, hw, rank, s1, m);
      var (s2, ret) := PowerOnF(links, domains, hw, rank, s1, m);
      if ret != 0 {
        DecExcess(links, domains, s2, m);
      } else {
        CoveredBySame(links, domains, s1, s2);
        var k := MastersOnF(links, domains, hw, rank, s2, d, n + 1).2;
        MastersOnCounts(links, domains, hw, rank, s2, d, n + 1);
        SliceHead(ms, n, k);
      }
    }
  }

  /**
   * What __genpd_poweron reports: 0 exactly when the domain ends up powered
   * (or deferred); a domain already powered is left as it is; on success the
   * domain is active with its power-on latency measured and all its masters
   * powered; on failure the domain's state is untouched, the error is one a
   * power_on callback returned, and the masters counted so far are queued
   * for power-off.
   */
  lemma {:induction false} PowerOnOutcome(links: seq<Link>, domains: map<DomainId, Domain>, hw: Hardware, rank: map<DomainId, nat>,
                                          st: PState, d: DomainId)
    requires Setting(links, domains, rank) && Wf(domains, st) && d in domains
    ensures var (r, ret) := PowerOnF(links, domains, hw, rank, st, d);
            && (Powered(st.status[d], domains[d]) ==> r == st && ret == 0)
            && (ret == 0 <==> Powered(r.status[d], domains[d]))
            && (ret == 0 && !Powered(st.status[d], domains[d]) ==>
                  && r.status[d].Active? && r.timing[d] == OnTiming(st.timing[d], domains[d], d, true, hw)
                  && forall m :: m in Masters(links, d) ==> m in domains && Powered(r.status[m], domains[m]))
            && (ret != 0 ==>
                  && r.status[d] == st.status[d] && r.timing[d] == st.timing[d] && CallbackError(domains, hw, ret)
                  && forall j :: 0 <= j < MastersOnF(links, domains, hw, rank, st, d, 0).2 ==> Masters(links, d)[j] in r.queue)
    decreases rank[d], 1
  {
    if !Powered(st.status[d], domains[d]) {
      var ms := Masters(links, d);
      MastersWithin(links, domains, rank, d);
      MastersOnOutcome(links, domains, hw, rank, st, d, 0);
      MastersOnAbove(links, domains, hw, rank, st, d, 0);
      var (s1, ret, n) := MastersOnF(links, domains, hw, rank, st, d, 0);
      var r := PowerOnF(links, domains, hw, rank, st, d).0;
      if ret != 0 || OnResult(domains[d], d, hw) != 0 {
        var k := if ret != 0 then n else |ms|;
        assert r == Unwind(s1, ms, k);
        UnwindQueues(s1, ms, k);
      } else {
        forall m | m in ms
          ensures Powered(r.status[m], domains[m])
        {
          var j :| 0 <= j < |ms| && ms[j] == m;
        }
      }
    }
  }

  /** The error path queues each of the first `k` masters and leaves power states and latencies alone. */
  lemma UnwindQueues(s1: PState, ms: seq<DomainId>, k: nat)
    requires k <= |ms|
    ensures var r := Unwind(s1, ms, k);
            r.status == s1.status && r.timing == s1.timing && forall j :: 0 <= j < k ==> ms[j] in r.queue
  {
    UnwindQueueFacts(s1.queue, ms[..k]);
    forall j | 0 <= j < k
      ensures ms[j] in Unwind(s1, ms, k).queue
    {
      assert ms[..k][j] == ms[j];
    }
  }

  lemma {:induction false} MastersOnOutcome(links: seq<Link>, domains: map<DomainId, Domain>, hw: Hardware, rank: map<DomainId, nat>,
                                            st: PState, d: DomainId, n: nat)
    requires Setting(links, domains, rank) && Wf(domains, st) && d in domains && n <= |Masters(links, d)|
    ensures var (r, ret, _) := MastersOnF(links, domains, hw, rank, st, d, n);
            && (ret == 0 ==> forall j :: n <= j < |Masters(links, d)| ==>
                  Masters(links, d)[j] in domains && Powered(r.status[Masters(links, d)[j]], domains[Masters(links, d)[j]]))
            && (ret != 0 ==> CallbackError(domains, hw, ret))
    decreases rank[d], 0, |Masters(links, d)| - n
  {
    var ms := Masters(links, d);
    if n < |ms| {
      MastersWithin(links, domains, rank, d);
      var m := ms[n];
      var s1 := Inc(st, m);
      PowerOnOutcome(links, domains, hw, rank, s1, m);
      var (s2, ret) := PowerOnF(links, domains, hw, rank, s1, m);
      if ret == 0 {
        var (r, ret2, _) := MastersOnF(links, domains, hw, rank, s2, d, n + 1);
        MastersOnOutcome(links, domains, hw, rank, s2, d, n + 1);
        MastersOnMonotone(links, domains, hw, rank, s2, d, n + 1);
        if ret2 == 0 {
          forall j | n <= j < |ms|
            ensures Powered(r.status[ms[j]], domains[ms[j]])
          {
            if j == n {
              assert Powered(s2.status[m], domains[m]);
            }
          }
        }
      }
    }
  }
}
