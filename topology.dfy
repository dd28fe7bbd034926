/**
 * The domain graph as a sequence of links, and the counting facts about it
 * that the state machine relies on. A domain's slave_links list holds the
 * links in which it is the slave, so walking it visits the domain's masters;
 * `Masters` gives them in list order.
 */
module Topology {
  import opened Types

  predicate NoDuplicateLinks(links: seq<Link>) {
    forall i, j :: 0 <= i < j < |links| ==> links[i] != links[j]
  }

  /** `rank` witnesses that the graph is acyclic: every master ranks below its slaves. */
  ghost predicate Ranked(links: seq<Link>, rank: map<DomainId, nat>) {
    forall l :: l in links ==> l.master in rank && l.slave in rank && rank[l.master] < rank[l.slave]
  }

  /** The masters of `d`, in the order of d's slave_links list. */
  function Masters(links: seq<Link>, d: DomainId): seq<DomainId> {
    if links == [] then []
    else (if links[0].slave == d then [links[0].master] else []) + Masters(links[1..], d)
  }

  /** Whether `d` is the master of some link (its master_links list is not empty). */
  predicate HasSlaves(links: seq<Link>, d: DomainId) {
    exists l :: l in links && l.master == d
  }

  /** How many times the edge (m, d) occurs. */
  function CountLinks(links: seq<Link>, m: DomainId, d: DomainId): nat {
    if links == [] then 0
    else (if links[0] == Link(m, d) then 1 else 0) + CountLinks(links[1..], m, d)
  }

  /** `s` is a registered domain that is powered. */
  predicate Up(status: map<DomainId, Status>, s: DomainId) {
    s in status && status[s].Active?
  }

  /** The number of m's slaves that are powered (with multiplicity of links). */
  function ActiveSlaves(links: seq<Link>, status: map<DomainId, Status>, m: DomainId): nat {
    if links == [] then 0
    else (if links[0].master == m && Up(status, links[0].slave) then 1 else 0)
         + ActiveSlaves(links[1..], status, m)
  }

  /** How far m's counter exceeds the number of its powered slaves. */
  function Excess(links: seq<Link>, status: map<DomainId, Status>, sdCount: map<DomainId, nat>, m: DomainId): int
    requires m in sdCount
  {
    sdCount[m] - ActiveSlaves(links, status, m)
  }

  /** Every counter accounts at least for the domain's powered slaves. */
  ghost predicate CountersCover(links: seq<Link>, status: map<DomainId, Status>, sdCount: map<DomainId, nat>) {
    forall x :: x in sdCount ==> Excess(links, status, sdCount, x) >= 0
  }

  lemma {:induction false} MastersAreLinked(links: seq<Link>, d: DomainId, m: DomainId)
    ensures m in Masters(links, d) <==> Link(m, d) in links
  {
    if links != [] {
      MastersAreLinked(links[1..], d, m);
      assert links == [links[0]] + links[1..];
    }
  }

  lemma {:induction false} MastersCountLinks(links: seq<Link>, d: DomainId, m: DomainId)
    ensures multiset(Masters(links, d))[m] == CountLinks(links, m, d)
  {
    if links != [] {
      MastersCountLinks(links[1..], d, m);
    }
  }

  lemma {:induction false} CountLinksNoDuplicates(links: seq<Link>, m: DomainId, d: DomainId)
    requires NoDuplicateLinks(links)
    ensures CountLinks(links, m, d) == if Link(m, d) in links then 1 else 0
  {
    if links != [] {
      assert NoDuplicateLinks(links[1..]) by {
        forall i, j | 0 <= i < j < |links[1..]| ensures links[1..][i] != links[1..][j] {
          assert links[1..][i] == links[i + 1] && links[1..][j] == links[j + 1];
        }
      }
      CountLinksNoDuplicates(links[1..], m, d);
      if links[0] == Link(m, d) {
        assert Link(m, d) !in links[1..] by {
          forall k | 0 <= k < |links[1..]| ensures links[1..][k] != links[0] {
            assert links[1..][k] == links[k + 1];
          }
        }
      }
      assert links == [links[0]] + links[1..];
    }
  }

  lemma {:induction false} CountLinksAppend(a: seq<Link>, b: seq<Link>, m: DomainId, d: DomainId)
    ensures CountLinks(a + b, m, d) == CountLinks(a, m, d) + CountLinks(b, m, d)
  {
    if a != [] {
      assert (a + b)[1..] == a[1..] + b;
      CountLinksAppend(a[1..], b, m, d);
    } else {
      assert a + b == b;
    }
  }

  lemma {:induction false} ActiveSlavesAppend(a: seq<Link>, b: seq<Link>, status: map<DomainId, Status>, m: DomainId)
    ensures ActiveSlaves(a + b, status, m) == ActiveSlaves(a, status, m) + ActiveSlaves(b, status, m)
  {
    if a != [] {
      assert (a + b)[1..] == a[1..] + b;
      ActiveSlavesAppend(a[1..], b, status, m);
    } else {
      assert a + b == b;
    }
  }

  lemma {:induction false} MastersAppend(a: seq<Link>, b: seq<Link>, d: DomainId)
    ensures Masters(a + b, d) == Masters(a, d) + Masters(b, d)
  {
    if a != [] {
      assert (a + b)[1..] == a[1..] + b;
      MastersAppend(a[1..], b, d);
    } else {
      assert a + b == b;
    }
  }

  /**
   * Changing the power state of one domain `d` (and nothing else that the
   * links can see) moves m's active-slave count by the number of (m, d) links.
   */
  lemma {:induction false} ActiveSlavesStep(links: seq<Link>, a: map<DomainId, Status>, b: map<DomainId, Status>,
                                            d: DomainId, m: DomainId)
    requires forall l :: l in links && l.slave != d ==> Up(a, l.slave) == Up(b, l.slave)
    ensures Up(a, d) == Up(b, d) ==> ActiveSlaves(links, b, m) == ActiveSlaves(links, a, m)
    ensures !Up(a, d) && Up(b, d) ==> ActiveSlaves(links, b, m) == ActiveSlaves(links, a, m) + CountLinks(links, m, d)
    ensures Up(a, d) && !Up(b, d) ==> ActiveSlaves(links, b, m) + CountLinks(links, m, d) == ActiveSlaves(links, a, m)
  {
    if links != [] {
      assert forall l :: l in links[1..] ==> l in links;
      ActiveSlavesStep(links[1..], a, b, d, m);
    }
  }

  lemma {:induction false} ActiveSlavesSameUp(links: seq<Link>, a: map<DomainId, Status>, b: map<DomainId, Status>, m: DomainId)
    requires forall l :: l in links ==> Up(a, l.slave) == Up(b, l.slave)
    ensures ActiveSlaves(links, b, m) == ActiveSlaves(links, a, m)
  {
    if links != [] {
      assert forall l :: l in links[1..] ==> l in links;
      ActiveSlavesSameUp(links[1..], a, b, m);
    }
  }

  /** Every link to a powered slave is counted among the master's active slaves. */
  lemma {:induction false} ActiveSlavesCoverLinks(links: seq<Link>, status: map<DomainId, Status>, m: DomainId, s: DomainId)
    requires Up(status, s)
    ensures ActiveSlaves(links, status, m) >= CountLinks(links, m, s)
  {
    if links != [] {
      ActiveSlavesCoverLinks(links[1..], status, m, s);
    }
  }

  /** A link to a powered slave is always counted in the master's active slaves. */
  lemma {:induction false} ActiveSlaveCounted(links: seq<Link>, status: map<DomainId, Status>, m: DomainId, s: DomainId)
    requires Link(m, s) in links && Up(status, s)
    ensures ActiveSlaves(links, status, m) >= 1
  {
    if links[0] != Link(m, s) {
      ActiveSlaveCounted(links[1..], status, m, s);
    }
  }

  /**
   * The point of the counter discipline: while counters cover the powered
   * slaves, a master with a powered slave has a positive sd_count, so
   * genpd_poweroff and pm_genpd_sync_poweroff refuse to power it off.
   */
  lemma ActiveSlavePinsMaster(links: seq<Link>, status: map<DomainId, Status>, sdCount: map<DomainId, nat>, m: DomainId, s: DomainId)
    requires CountersCover(links, status, sdCount) && m in sdCount
    requires Link(m, s) in links && Up(status, s)
    ensures sdCount[m] > 0
  {
    ActiveSlaveCounted(links, status, m, s);
  }
}
