/**
 * Adding and removing a master/subdomain link (pm_genpd_add_subdomain,
 * pm_genpd_remove_subdomain) as functions of the link list and the
 * counters, with what they keep: no duplicate links, and every domain's
 * Excess, so the counters keep covering the powered slaves. Removing a
 * link just added gives the graph back.
 */
module Subdomains {
  import opened Types
  import opened Topology
  import opened Propagation

  /** The position of the first occurrence of `l`. */
  function IndexOf(links: seq<Link>, l: Link): (r: nat)
    requires l in links
    ensures r < |links| && links[r] == l && l !in links[..r]
  {
    if links[0] == l then 0
    else
      var r := 1 + IndexOf(links[1..], l);
      assert links[..r] == [links[0]] + links[1..][..r - 1];
      r
  }

  /** The link list without the link at position `i`. */
  function RemoveAt(links: seq<Link>, i: nat): seq<Link>
    requires i < |links|
  {
    links[..i] + links[i + 1..]
  }

  /**
   * pm_genpd_add_subdomain, master `m` and subdomain `s`: the new links,
   * the new counters and the result. `allocOk` says whether the link could
   * be allocated.
   */
  function AddSubdomainF(links: seq<Link>, status: map<DomainId, Status>, sdCount: map<DomainId, nat>,
                         m: DomainId, s: DomainId, allocOk: bool): (seq<Link>, map<DomainId, nat>, int)
    requires m in status && s in status && m in sdCount
  {
    if m == s then (links, sdCount, EINVAL)
    else if !allocOk then (links, sdCount, ENOMEM)
    else if status[m].PowerOff? && status[s].Active? then (links, sdCount, EINVAL)
    else if Link(m, s) in links then (links, sdCount, EINVAL)
    else (links + [Link(m, s)], if status[s].Active? then sdCount[m := SdCounterInc(sdCount[m])] else sdCount, 0)
  }

  /**
   * pm_genpd_remove_subdomain, master `m` and subdomain `s` with
   * `sDevices` devices: the new links, the new counters and the result.
   */
  function RemoveSubdomainF(links: seq<Link>, status: map<DomainId, Status>, sdCount: map<DomainId, nat>,
                            m: DomainId, s: DomainId, sDevices: int): (seq<Link>, map<DomainId, nat>, int)
    requires s in status
  {
    if HasSlaves(links, s) || sDevices != 0 then (links, sdCount, EBUSY)
    else if Link(m, s) !in links then (links, sdCount, EINVAL)
    else (RemoveAt(links, IndexOf(links, Link(m, s))), if status[s].Active? then DecAt(sdCount, m) else sdCount, 0)
  }

  /**
   * pm_genpd_add_subdomain succeeds exactly when the two domains differ,
   * the link can be allocated, an off master is not given a powered
   * subdomain, and the link is new; then the link is appended and the
   * master's counter rises by one exactly when the subdomain is powered.
   * Otherwise nothing changes.
   */
  lemma AddSubdomainOutcome(links: seq<Link>, status: map<DomainId, Status>, sdCount: map<DomainId, nat>,
                            m: DomainId, s: DomainId, allocOk: bool)
    requires m in status && s in status && m in sdCount
    ensures var (l2, c2, ret) := AddSubdomainF(links, status, sdCount, m, s, allocOk);
            && (ret == 0 <==> m != s && allocOk && !(status[m].PowerOff? && status[s].Active?) && Link(m, s) !in links)
            && (m == s ==> ret == EINVAL)
            && (ret == ENOMEM <==> m != s && !allocOk)
            && (ret != 0 && ret != ENOMEM ==> ret == EINVAL)
            && (ret != 0 ==> l2 == links && c2 == sdCount)
            && (ret == 0 ==> Link(m, s) in l2 && CountLinks(l2, m, s) == 1 && |l2| == |links| + 1 && l2[..|links|] == links)
            && (ret == 0 ==> c2.Keys == sdCount.Keys && c2[m] == sdCount[m] + (if status[s].Active? then 1 else 0)
                             && forall x :: x in sdCount && x != m ==> c2[x] == sdCount[x])
  {
    if AddSubdomainF(links, status, sdCount, m, s, allocOk).2 == 0 {
      CountLinksAppend(links, [Link(m, s)], m, s);
      CountLinksNoDuplicatesAbsent(links, m, s);
    }
  }

  lemma {:induction false} CountLinksNoDuplicatesAbsent(links: seq<Link>, m: DomainId, s: DomainId)
    requires Link(m, s) !in links
    ensures CountLinks(links, m, s) == 0
  {
    if links != [] {
      assert links[0] != Link(m, s);
      assert forall l :: l in links[1..] ==> l in links;
      CountLinksNoDuplicatesAbsent(links[1..], m, s);
    }
  }

  /**
   * pm_genpd_remove_subdomain refuses with -EBUSY while the subdomain has
   * subdomains of its own or devices, then with -EINVAL when there is no
   * such link, changing nothing; otherwise it removes that one link and
   * the master's counter drops by one exactly when the subdomain is
   * powered.
   */
  lemma RemoveSubdomainOutcome(links: seq<Link>, status: map<DomainId, Status>, sdCount: map<DomainId, nat>,
                               m: DomainId, s: DomainId, sDevices: int)
    requires s in status && m in sdCount && NoDuplicateLinks(links)
    requires Link(m, s) in links && status[s].Active? ==> sdCount[m] > 0
    ensures var (l2, c2, ret) := RemoveSubdomainF(links, status, sdCount, m, s, sDevices);
            && (ret == EBUSY <==> HasSlaves(links, s) || sDevices != 0)
            && (ret == EINVAL <==> !HasSlaves(links, s) && sDevices == 0 && Link(m, s) !in links)
            && (ret != 0 ==> l2 == links && c2 == sdCount)
            && (ret == 0 ==> Link(m, s) !in l2 && |l2| == |links| - 1
                             && forall l :: l in l2 <==> l in links && l != Link(m, s))
            && (ret == 0 ==> c2.Keys == sdCount.Keys && c2[m] == sdCount[m] - (if status[s].Active? then 1 else 0)
                             && forall x :: x in sdCount && x != m ==> c2[x] == sdCount[x])
  {
    if RemoveSubdomainF(links, status, sdCount, m, s, sDevices).2 == 0 {
      var i := IndexOf(links, Link(m, s));
      RemoveAtFacts(links, i);
    }
  }

  /** On a list without repeats, removing position i removes exactly the link found there. */
  lemma RemoveAtFacts(links: seq<Link>, i: nat)
    requires i < |links| && NoDuplicateLinks(links)
    ensures NoDuplicateLinks(RemoveAt(links, i))
    ensures forall l :: l in RemoveAt(links, i) <==> l in links && l != links[i]
  {
    var r := RemoveAt(links, i);
    forall k | 0 <= k < |r| ensures r[k] == if k < i then links[k] else links[k + 1] {
    }
    forall l | l in links && l != links[i] ensures l in r {
      var k :| 0 <= k < |links| && links[k] == l;
      if k < i {
        assert r[k] == l;
      } else {
        assert r[k - 1] == l;
      }
    }
  }

  /** How removing position i moves each domain's count of powered slaves. */
  lemma RemoveAtSlaves(links: seq<Link>, i: nat, status: map<DomainId, Status>, x: DomainId)
    requires i < |links|
    ensures ActiveSlaves(RemoveAt(links, i), status, x)
            + (if links[i].master == x && Up(status, links[i].slave) then 1 else 0)
            == ActiveSlaves(links, status, x)
  {
    assert links == links[..i] + ([links[i]] + links[i + 1..]);
    ActiveSlavesAppend(links[..i], [links[i]] + links[i + 1..], status, x);
    ActiveSlavesAppend([links[i]], links[i + 1..], status, x);
    ActiveSlavesAppend(links[..i], links[i + 1..], status, x);
    assert [links[i]][1..] == [];
  }

  /**
   * Adding a subdomain keeps every domain's Excess: the new link counts in
   * the master's powered slaves exactly when the master's counter was
   * raised for it. So covering counters stay covering, and the link list
   * stays free of repeats.
   */
  lemma AddSubdomainCounts(links: seq<Link>, domains: map<DomainId, Domain>, st: PState, m: DomainId, s: DomainId,
                           allocOk: bool)
    requires Wf(domains, st) && m in domains && s in domains
    ensures var (l2, c2, ret) := AddSubdomainF(links, st.status, st.sdCount, m, s, allocOk);
            && (forall x :: x in domains ==> x in c2 && Excess(l2, st.status, c2, x) == Excess(links, st.status, st.sdCount, x))
            && (Covered(links, domains, st) ==> Covered(l2, domains, st.(sdCount := c2)))
            && (NoDuplicateLinks(links) ==> NoDuplicateLinks(l2))
  {
    var (l2, c2, ret) := AddSubdomainF(links, st.status, st.sdCount, m, s, allocOk);
    if ret == 0 {
      forall x | x in domains
        ensures x in c2 && Excess(l2, st.status, c2, x) == Excess(links, st.status, st.sdCount, x)
      {
        ActiveSlavesAppend(links, [Link(m, s)], st.status, x);
        assert [Link(m, s)][1..] == [];
      }
      if NoDuplicateLinks(links) {
        forall i, j | 0 <= i < j < |l2| ensures l2[i] != l2[j] {
          if j == |links| {
            assert l2[i] == links[i];
          } else {
            assert l2[i] == links[i] && l2[j] == links[j];
          }
        }
      }
    }
  }

  /**
   * Removing a subdomain keeps every domain's Excess when the counters
   * cover: a powered subdomain's link was counted in its master, so the
   * master's guarded decrement takes exactly that count.
   */
  lemma RemoveSubdomainCounts(links: seq<Link>, domains: map<DomainId, Domain>, st: PState, m: DomainId, s: DomainId,
                              sDevices: int)
    requires Wf(domains, st) && m in domains && s in domains && NoDuplicateLinks(links) && Covered(links, domains, st)
    ensures var (l2, c2, ret) := RemoveSubdomainF(links, st.status, st.sdCount, m, s, sDevices);
            && (forall x :: x in domains ==> x in c2 && Excess(l2, st.status, c2, x) == Excess(links, st.status, st.sdCount, x))
            && Covered(l2, domains, st.(sdCount := c2))
            && NoDuplicateLinks(l2)
  {
    var (l2, c2, ret) := RemoveSubdomainF(links, st.status, st.sdCount, m, s, sDevices);
    if ret == 0 {
      var i := IndexOf(links, Link(m, s));
      RemoveAtFacts(links, i);
      if st.status[s].Active? {
        ActiveSlaveCounted(links, st.status, m, s);
      }
      forall x | x in domains
        ensures x in c2 && Excess(l2, st.status, c2, x) == Excess(links, st.status, st.sdCount, x)
      {
        RemoveAtSlaves(links, i, st.status, x);
      }
    }
  }

  /**
   * Removing a link just added gives the graph back: links and counters
   * are as before the add, provided the subdomain has no subdomains and no
   * devices (otherwise removal refuses).
   */
  lemma RemoveUndoesAdd(links: seq<Link>, status: map<DomainId, Status>, sdCount: map<DomainId, nat>,
                        m: DomainId, s: DomainId, sDevices: int)
    requires m in status && s in status && m in sdCount
    requires !HasSlaves(links, s) && sDevices == 0
    ensures var (l2, c2, ret) := AddSubdomainF(links, status, sdCount, m, s, true);
            ret == 0 ==> RemoveSubdomainF(l2, status, c2, m, s, sDevices) == (links, sdCount, 0)
  {
    var (l2, c2, ret) := AddSubdomainF(links, status, sdCount, m, s, true);
    if ret == 0 {
      assert !HasSlaves(l2, s) by {
        forall l | l in l2 ensures l.master != s {
          if l !in links {
            assert l == Link(m, s);
          }
        }
      }
      assert Link(m, s) in l2 by {
        assert l2[|links|] == Link(m, s);
      }
      var i := IndexOf(l2, Link(m, s));
      assert i == |links|;
      assert RemoveAt(l2, i) == links;
      if status[s].Active? {
        assert DecAt(c2, m) == sdCount;
      }
    }
  }

  /** A domain that is the master of no link has no powered slaves. */
  lemma {:induction false} NoLinksNoSlaves(links: seq<Link>, status: map<DomainId, Status>, g: DomainId)
    requires forall l :: l in links ==> l.master != g
    ensures ActiveSlaves(links, status, g) == 0
  {
    if links != [] {
      assert forall l :: l in links[1..] ==> l in links;
      NoLinksNoSlaves(links[1..], status, g);
    }
  }

  /**
   * pm_genpd_init registers a domain no link touches, with a zero counter:
   * it has no powered slaves, its power state counts for no master, so the
   * counters keep covering.
   */
  lemma RegisterCounts(links: seq<Link>, domains: map<DomainId, Domain>, st: PState, g: DomainId, r: Domain,
                       s: Status, t: Timing)
    requires Wf(domains, st) && LinksWithin(links, domains) && g !in domains && Covered(links, domains, st)
    ensures Covered(links, domains[g := r],
                    st.(status := st.status[g := s], sdCount := st.sdCount[g := 0], timing := st.timing[g := t]))
  {
    var s2 := st.status[g := s];
    assert forall l :: l in links ==> l.master != g && l.slave != g;
    NoLinksNoSlaves(links, s2, g);
    forall x | x in domains
      ensures ActiveSlaves(links, s2, x) == ActiveSlaves(links, st.status, x)
    {
      ActiveSlavesSameUp(links, st.status, s2, x);
    }
  }
}
