/**
 * The synchronous variants used in the noirq and syscore phases of system
 * sleep, as functions of the propagation state: pm_genpd_sync_poweroff
 * powers a domain off when it is ready and recurses into each master after
 * dropping the domain's count there; pm_genpd_sync_poweron powers every
 * master first, counts the domain in it, then powers the domain. Neither
 * looks at a callback's result. Proved: both keep every domain's Excess;
 * sync power-on never powers anything off and leaves a domain it found off
 * powered together with all its masters; sync power-off never powers anything on, does nothing to
 * a domain that is not ready and powers off one that is.
 */
module Sync {
  import opened Types
  import opened Topology
  import opened Gates
  import opened Propagation

  /** No domain off in `a` is on in `b`. */
  ghost predicate NoneOn(a: map<DomainId, Status>, b: map<DomainId, Status>) {
    forall x :: x in a && a[x].PowerOff? ==> x in b && b[x].PowerOff?
  }

  lemma NoneOnTrans(a: map<DomainId, Status>, b: map<DomainId, Status>, c: map<DomainId, Status>)
    requires NoneOn(a, b) && NoneOn(b, c)
    ensures NoneOn(a, c)
  {
  }

  /** pm_genpd_sync_poweroff on `d`. */
  ghost function SyncOffF(links: seq<Link>, domains: map<DomainId, Domain>, hw: Hardware, rank: map<DomainId, nat>,
                          st: PState, d: DomainId, timed: bool): (r: PState)
    requires Setting(links, domains, rank) && Wf(domains, st) && d in domains
    ensures Wf(domains, r)
    decreases rank[d], 1
  {
    if !SyncOffReady(st.status[d], st.sdCount[d], domains[d]) then st
    else
      var s1 := st.(status := st.status[d := PowerOff],
                    timing := st.timing[d := OffTiming(st.timing[d], domains[d], d, timed, hw)]);
      SyncMastersOffF(links, domains, hw, rank, s1, d, timed, 0)
  }

  /** The loop of pm_genpd_sync_poweroff from the n-th master of `d` on: drop d's count, then recurse. */
  ghost function SyncMastersOffF(links: seq<Link>, domains: map<DomainId, Domain>, hw: Hardware, rank: map<DomainId, nat>,
                                 st: PState, d: DomainId, timed: bool, n: nat): (r: PState)
    requires Setting(links, domains, rank) && Wf(domains, st) && d in domains && n <= |Masters(links, d)|
    ensures Wf(domains, r)
    decreases rank[d], 0, |Masters(links, d)| - n
  {
    var ms := Masters(links, d);
    if n == |ms| then st
    else
      MastersWithin(links, domains, rank, d);
      var s1 := SyncOffF(links, domains, hw, rank, st.(sdCount := DecAt(st.sdCount, ms[n])), ms[n], timed);
      SyncMastersOffF(links, domains, hw, rank, s1, d, timed, n + 1)
  }

  /** pm_genpd_sync_poweron on `d`. */
  ghost function SyncOnF(links: seq<Link>, domains: map<DomainId, Domain>, hw: Hardware, rank: map<DomainId, nat>,
                         st: PState, d: DomainId, timed: bool): (r: PState)
    requires Setting(links, domains, rank) && Wf(domains, st) && d in domains
    ensures Wf(domains, r)
    decreases rank[d], 1
  {
    if st.status[d].Active? then st
    else
      var s1 := SyncMastersOnF(links, domains, hw, rank, st, d, timed, 0);
      s1.(status := s1.status[d := Active], timing := s1.timing[d := OnTiming(s1.timing[d], domains[d], d, timed, hw)])
  }

  /** The loop of pm_genpd_sync_poweron from the n-th master of `d` on: power the master, then count d in it. */
  ghost function SyncMastersOnF(links: seq<Link>, domains: map<DomainId, Domain>, hw: Hardware, rank: map<DomainId, nat>,
                                st: PState, d: DomainId, timed: bool, n: nat): (r: PState)
    requires Setting(links, domains, rank) && Wf(domains, st) && d in domains && n <= |Masters(links, d)|
    ensures Wf(domains, r)
    decreases rank[d], 0, |Masters(links, d)| - n
  {
    var ms := Masters(links, d);
    if n == |ms| then st
    else
      MastersWithin(links, domains, rank, d);
      var s1 := SyncOnF(links, domains, hw, rank, st, ms[n], timed);
      SyncMastersOnF(links, domains, hw, rank, Inc(s1, ms[n]), d, timed, n + 1)
  }

  /** Sync power-off powers nothing on and queues nothing. */
  lemma {:induction false} SyncOffMonotone(links: seq<Link>, domains: map<DomainId, Domain>, hw: Hardware, rank: map<DomainId, nat>,
                                           st: PState, d: DomainId, timed: bool)
    requires Setting(links, domains, rank) && Wf(domains, st) && d in domains
    ensures var r := SyncOffF(links, domains, hw, rank, st, d, timed);
            NoneOn(st.status, r.status) && r.queue == st.queue
    decreases rank[d], 1
  {
    if SyncOffReady(st.status[d], st.sdCount[d], domains[d]) {
      var s1 := st.(status := st.status[d := PowerOff],
                    timing := st.timing[d := OffTiming(st.timing[d], domains[d], d, timed, hw)]);
      SyncMastersOffMonotone(links, domains, hw, rank, s1, d, timed, 0);
      NoneOnTrans(st.status, s1.status, SyncOffF(links, domains, hw, rank, st, d, timed).status);
    }
  }

  lemma {:induction false} SyncMastersOffMonotone(links: seq<Link>, domains: map<DomainId, Domain>, hw: Hardware,
                                                  rank: map<DomainId, nat>, st: PState, d: DomainId, timed: bool, n: nat)
    requires Setting(links, domains, rank) && Wf(domains, st) && d in domains && n <= |Masters(links, d)|
    ensures var r := SyncMastersOffF(links, domains, hw, rank, st, d, timed, n);
            NoneOn(st.status, r.status) && r.queue == st.queue
    decreases rank[d], 0, |Masters(links, d)| - n
  {
    var ms := Masters(links, d);
    if n < |ms| {
      MastersWithin(links, domains, rank, d);
      var s0 := st.(sdCount := DecAt(st.sdCount, ms[n]));
      var s1 := SyncOffF(links, domains, hw, rank, s0, ms[n], timed);
      SyncOffMonotone(links, domains, hw, rank, s0, ms[n], timed);
      SyncMastersOffMonotone(links, domains, hw, rank, s1, d, timed, n + 1);
      NoneOnTrans(st.status, s1.status, SyncMastersOffF(links, domains, hw, rank, st, d, timed, n).status);
    }
  }

  /**
   * What pm_genpd_sync_poweroff does to `d` itself: nothing at all unless d
   * is powered, all its devices are suspended and no subdomain is counted;
   * then d ends powered off.
   */
  lemma SyncOffOutcome(links: seq<Link>, domains: map<DomainId, Domain>, hw: Hardware, rank: map<DomainId, nat>,
                       st: PState, d: DomainId, timed: bool)
    requires Setting(links, domains, rank) && Wf(domains, st) && d in domains
    ensures var r := SyncOffF(links, domains, hw, rank, st, d, timed);
            && (!SyncOffReady(st.status[d], st.sdCount[d], domains[d]) ==> r == st)
            && (SyncOffReady(st.status[d], st.sdCount[d], domains[d]) ==> r.status[d].PowerOff?)
  {
    if SyncOffReady(st.status[d], st.sdCount[d], domains[d]) {
      var s1 := st.(status := st.status[d := PowerOff],
                    timing := st.timing[d := OffTiming(st.timing[d], domains[d], d, timed, hw)]);
      SyncMastersOffMonotone(links, domains, hw, rank, s1, d, timed, 0);
    }
  }

  /** A suffix of the masters, split at its head. */
  lemma SuffixHead(ms: seq<DomainId>, n: nat)
    requires n < |ms|
    ensures multiset(ms[n..]) == multiset{ms[n]} + multiset(ms[n + 1..])
  {
    assert ms[n..] == [ms[n]] + ms[n + 1..];
  }

  /**
   * Sync power-off keeps every domain's Excess while the counters cover the
   * powered slaves: the domain going off frees in each master exactly the
   * counts the loop then drops.
   */
  lemma {:induction false} SyncOffCounts(links: seq<Link>, domains: map<DomainId, Domain>, hw: Hardware, rank: map<DomainId, nat>,
                                         st: PState, d: DomainId, timed: bool)
    requires Setting(links, domains, rank) && Wf(domains, st) && d in domains && Covered(links, domains, st)
    ensures SameExcess(links, domains, st, SyncOffF(links, domains, hw, rank, st, d, timed))
    decreases rank[d], 1
  {
    if SyncOffReady(st.status[d], st.sdCount[d], domains[d]) {
      var ms := Masters(links, d);
      var s1 := st.(status := st.status[d := PowerOff],
                    timing := st.timing[d := OffTiming(st.timing[d], domains[d], d, timed, hw)]);
      ExcessAfterStatus(links, st.status, st.sdCount, d, PowerOff);
      forall x | x in domains
        ensures Excess(links, s1.status, s1.sdCount, x) == Excess(links, st.status, st.sdCount, x) + multiset(ms[0..])[x]
      {
        MastersCountLinks(links, d, x);
        assert ms[0..] == ms;
      }
      SyncMastersOffCounts(links, domains, hw, rank, st, s1, d, timed, 0);
    }
  }

  /**
   * The loop of sync power-off from the n-th master on takes exactly one
   * count per remaining master, provided each Excess can pay for them.
   */
  lemma {:induction false} SyncMastersOffCounts(links: seq<Link>, domains: map<DomainId, Domain>, hw: Hardware,
                                                rank: map<DomainId, nat>, base: PState, st: PState, d: DomainId, timed: bool, n: nat)
    requires Setting(links, domains, rank) && Wf(domains, st) && Wf(domains, base) && d in domains && n <= |Masters(links, d)|
    requires Covered(links, domains, base)
    requires forall x :: x in domains ==>
               Excess(links, st.status, st.sdCount, x) == Excess(links, base.status, base.sdCount, x) + multiset(Masters(links, d)[n..])[x]
    ensures SameExcess(links, domains, base, SyncMastersOffF(links, domains, hw, rank, st, d, timed, n))
    decreases rank[d], 0, |Masters(links, d)| - n
  {
    var ms := Masters(links, d);
    if n < |ms| {
      MastersWithin(links, domains, rank, d);
      var m := ms[n];
      SuffixHead(ms, n);
      var s0 := st.(sdCount := DecAt(st.sdCount, m));
      DecExcess(links, domains, st, m);
      assert Covered(links, domains, s0);
      SyncOffCounts(links, domains, hw, rank, s0, m, timed);
      var s1 := SyncOffF(links, domains, hw, rank, s0, m, timed);
      SyncMastersOffCounts(links, domains, hw, rank, base, s1, d, timed, n + 1);
    }
  }

  /** Sync power-on changes no power state or latency mark of a domain ranked above `d`. */
  lemma {:induction false} SyncOnAbove(links: seq<Link>, domains: map<DomainId, Domain>, hw: Hardware, rank: map<DomainId, nat>,
                                       st: PState, d: DomainId, timed: bool)
    requires Setting(links, domains, rank) && Wf(domains, st) && d in domains
    ensures var r := SyncOnF(links, domains, hw, rank, st, d, timed);
            FixedFrom(st.status, r.status, rank, rank[d] + 1) && FixedFrom(st.timing, r.timing, rank, rank[d] + 1)
    decreases rank[d], 1
  {
    if st.status[d].PowerOff? {
      var s1 := SyncMastersOnF(links, domains, hw, rank, st, d, timed, 0);
      SyncMastersOnAbove(links, domains, hw, rank, st, d, timed, 0);
      var r := SyncOnF(links, domains, hw, rank, st, d, timed);
      FixedFromTrans(st.status, s1.status, r.status, rank, rank[d] + 1, rank[d] + 1);
      FixedFromTrans(st.timing, s1.timing, r.timing, rank, rank[d] + 1, rank[d] + 1);
    }
  }

  lemma {:induction false} SyncMastersOnAbove(links: seq<Link>, domains: map<DomainId, Domain>, hw: Hardware,
                                              rank: map<DomainId, nat>, st: PState, d: DomainId, timed: bool, n: nat)
    requires Setting(links, domains, rank) && Wf(domains, st) && d in domains && n <= |Masters(links, d)|
    ensures var r := SyncMastersOnF(links, domains, hw, rank, st, d, timed, n);
            FixedFrom(st.status, r.status, rank, rank[d]) && FixedFrom(st.timing, r.timing, rank, rank[d])
    decreases rank[d], 0, |Masters(links, d)| - n
  {
    var ms := Masters(links, d);
    if n < |ms| {
      MastersWithin(links, domains, rank, d);
      var m := ms[n];
      var s1 := SyncOnF(links, domains, hw, rank, st, m, timed);
      SyncOnAbove(links, domains, hw, rank, st, m, timed);
      var r := SyncMastersOnF(links, domains, hw, rank, Inc(s1, m), d, timed, n + 1);
      SyncMastersOnAbove(links, domains, hw, rank, Inc(s1, m), d, timed, n + 1);
      FixedFromTrans(st.status, s1.status, r.status, rank, rank[d], rank[d]);
      FixedFromTrans(st.timing, s1.timing, r.timing, rank, rank[d], rank[d]);
    }
  }

  /**
   * Sync power-on keeps every domain's Excess: each count it takes on a
   * master is matched by the domain it powers.
   */
  lemma {:induction false} SyncOnCounts(links: seq<Link>, domains: map<DomainId, Domain>, hw: Hardware, rank: map<DomainId, nat>,
                                        st: PState, d: DomainId, timed: bool)
    requires Setting(links, domains, rank) && Wf(domains, st) && d in domains
    ensures SameExcess(links, domains, st, SyncOnF(links, domains, hw, rank, st, d, timed))
    decreases rank[d], 1
  {
    if st.status[d].PowerOff? {
      var ms := Masters(links, d);
      var s1 := SyncMastersOnF(links, domains, hw, rank, st, d, timed, 0);
      SyncMastersOnCounts(links, domains, hw, rank, st, d, timed, 0);
      SyncMastersOnAbove(links, domains, hw, rank, st, d, timed, 0);
      assert s1.status[d].PowerOff?;
      ExcessAfterStatus(links, s1.status, s1.sdCount, d, Active);
      forall x | x in domains
        ensures multiset(ms[0..])[x] == CountLinks(links, x, d)
      {
        MastersCountLinks(links, d, x);
        assert ms[0..] == ms;
      }
    }
  }

  lemma {:induction false} SyncMastersOnCounts(links: seq<Link>, domains: map<DomainId, Domain>, hw: Hardware,
                                               rank: map<DomainId, nat>, st: PState, d: DomainId, timed: bool, n: nat)
    requires Setting(links, domains, rank) && Wf(domains, st) && d in domains && n <= |Masters(links, d)|
    ensures var r := SyncMastersOnF(links, domains, hw, rank, st, d, timed, n);
            forall x :: x in domains ==>
              Excess(links, r.status, r.sdCount, x) == Excess(links, st.status, st.sdCount, x) + multiset(Masters(links, d)[n..])[x]
    decreases rank[d], 0, |Masters(links, d)| - n
  {
    var ms := Masters(links, d);
    if n < |ms| {
      MastersWithin(links, domains, rank, d);
      var m := ms[n];
      SuffixHead(ms, n);
      var s1 := SyncOnF(links, domains, hw, rank, st, m, timed);
      SyncOnCounts(links, domains, hw, rank, st, m, timed);
      SyncMastersOnCounts(links, domains, hw, rank, Inc(s1, m), d, timed, n + 1);
    } else {
      assert ms[n..] == [];
    }
  }

  /**
   * Sync power-on powers nothing off and queues nothing, and `d` ends
   * powered; when d was off, every one of its masters ends powered too and
   * d's latency mark is the one its power_on left.
   */
  lemma {:induction false} SyncOnOutcome(links: seq<Link>, domains: map<DomainId, Domain>, hw: Hardware, rank: map<DomainId, nat>,
                                         st: PState, d: DomainId, timed: bool)
    requires Setting(links, domains, rank) && Wf(domains, st) && d in domains
    ensures var r := SyncOnF(links, domains, hw, rank, st, d, timed);
            && NoneOff(st.status, r.status) && r.queue == st.queue && r.status[d].Active?
            && (st.status[d].PowerOff? ==> r.timing[d] == OnTiming(st.timing[d], domains[d], d, timed, hw))
            && (st.status[d].PowerOff? ==> forall m :: m in Masters(links, d) ==> m in domains && r.status[m].Active?)
    decreases rank[d], 1
  {
    MastersWithin(links, domains, rank, d);
    if st.status[d].PowerOff? {
      var ms := Masters(links, d);
      var s1 := SyncMastersOnF(links, domains, hw, rank, st, d, timed, 0);
      SyncMastersOnOutcome(links, domains, hw, rank, st, d, timed, 0);
      SyncMastersOnAbove(links, domains, hw, rank, st, d, timed, 0);
      var r := SyncOnF(links, domains, hw, rank, st, d, timed);
      assert NoneOff(s1.status, r.status);
      NoneOffTrans(st.status, s1.status, r.status);
      forall m | m in ms
        ensures r.status[m].Active?
      {
        var j :| 0 <= j < |ms| && ms[j] == m;
      }
    }
  }

  lemma {:induction false} SyncMastersOnOutcome(links: seq<Link>, domains: map<DomainId, Domain>, hw: Hardware,
                                                rank: map<DomainId, nat>, st: PState, d: DomainId, timed: bool, n: nat)
    requires Setting(links, domains, rank) && Wf(domains, st) && d in domains && n <= |Masters(links, d)|
    ensures var r := SyncMastersOnF(links, domains, hw, rank, st, d, timed, n);
            && NoneOff(st.status, r.status) && r.queue == st.queue
            && forall j :: n <= j < |Masters(links, d)| ==> Masters(links, d)[j] in r.status && r.status[Masters(links, d)[j]].Active?
    decreases rank[d], 0, |Masters(links, d)| - n
  {
    var ms := Masters(links, d);
    if n < |ms| {
      MastersWithin(links, domains, rank, d);
      var m := ms[n];
      var s1 := SyncOnF(links, domains, hw, rank, st, m, timed);
      SyncOnOutcome(links, domains, hw, rank, st, m, timed);
      var r := SyncMastersOnF(links, domains, hw, rank, Inc(s1, m), d, timed, n + 1);
      SyncMastersOnOutcome(links, domains, hw, rank, Inc(s1, m), d, timed, n + 1);
      NoneOffTrans(st.status, s1.status, r.status);
      assert Inc(s1, m).status == s1.status;
      forall j | n <= j < |ms|
        ensures ms[j] in r.status && r.status[ms[j]].Active?
      {
        if j == n {
          assert ms[j] == m;
        }
      }
    }
  }

  /** Marking a domain off without touching any counter only raises Excess, so the counters still cover. */
  lemma OffKeepsCovered(links: seq<Link>, domains: map<DomainId, Domain>, st: PState, d: DomainId)
    requires Wf(domains, st) && d in domains && Covered(links, domains, st)
    ensures Covered(links, domains, st.(status := st.status[d := PowerOff]))
  {
    ExcessAfterStatus(links, st.status, st.sdCount, d, PowerOff);
  }

  /**
   * pm_genpd_restore_noirq past its device lookup, on domain `d` whose
   * record already counts this device as suspended; `first` says the
   * count was zero before. The first call of a cycle marks d off, whatever
   * the boot kernel left; a domain that was off before hibernation gets a
   * timed power_off on the first call and is left alone on later ones;
   * any other domain gets a timed sync power-on.
   */
  ghost function RestoreF(links: seq<Link>, domains: map<DomainId, Domain>, hw: Hardware, rank: map<DomainId, nat>,
                          st: PState, d: DomainId, first: bool): PState
    requires Setting(links, domains, rank) && Wf(domains, st) && d in domains
  {
    var s1 := if first then st.(status := st.status[d := PowerOff]) else st;
    if domains[d].suspendPowerOff then
      if first then s1.(timing := s1.timing[d := OffTiming(s1.timing[d], domains[d], d, true, hw)]) else s1
    else SyncOnF(links, domains, hw, rank, s1, d, true)
  }

  /**
   * After restore the domain is in the state it had before hibernation: a
   * domain that was off is marked off on the first call (and nothing else
   * but its latency marks moves) and untouched after; any other domain is
   * powered, with all its masters when it had to be switched on.
   */
  lemma RestoreOutcome(links: seq<Link>, domains: map<DomainId, Domain>, hw: Hardware, rank: map<DomainId, nat>,
                       st: PState, d: DomainId, first: bool)
    requires Setting(links, domains, rank) && Wf(domains, st) && d in domains
    ensures var r := RestoreF(links, domains, hw, rank, st, d, first);
            && r.queue == st.queue
            && (domains[d].suspendPowerOff && !first ==> r == st)
            && (domains[d].suspendPowerOff && first ==>
                  r.status == st.status[d := PowerOff] && r.sdCount == st.sdCount
                  && r.timing == st.timing[d := OffTiming(st.timing[d], domains[d], d, true, hw)])
            && (!domains[d].suspendPowerOff ==> r.status[d].Active?)
            && (!domains[d].suspendPowerOff && (first || st.status[d].PowerOff?) ==>
                  forall m :: m in Masters(links, d) ==> m in domains && r.status[m].Active?)
  {
    var s1 := if first then st.(status := st.status[d := PowerOff]) else st;
    SyncOnOutcome(links, domains, hw, rank, s1, d, true);
  }

  /** Restore keeps the counters covering the powered slaves; marking d off can only raise its masters' Excess. */
  lemma RestoreCounts(links: seq<Link>, domains: map<DomainId, Domain>, hw: Hardware, rank: map<DomainId, nat>,
                      st: PState, d: DomainId, first: bool)
    requires Setting(links, domains, rank) && Wf(domains, st) && d in domains && Covered(links, domains, st)
    ensures Covered(links, domains, RestoreF(links, domains, hw, rank, st, d, first))
  {
    var s1 := if first then st.(status := st.status[d := PowerOff]) else st;
    if first {
      OffKeepsCovered(links, domains, st, d);
    }
    if !domains[d].suspendPowerOff {
      SyncOnCounts(links, domains, hw, rank, s1, d, true);
      CoveredBySame(links, domains, s1, SyncOnF(links, domains, hw, rank, s1, d, true));
    }
  }
}
