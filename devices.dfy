/**
 * The device side of a domain: which devices are attached where
 * (dev->pm_domain and the device's domain_data), each domain's dev_list and
 * device_count, and what __pm_genpd_add_device and pm_genpd_remove_device
 * do to a domain record when they succeed.
 */
module Devices {
  import opened Types

  predicate Distinct(s: seq<DeviceId>) {
    forall i, j :: 0 <= i < j < |s| ==> s[i] != s[j]
  }

  /**
   * A device has domain data exactly when it is attached, it is on the
   * dev_list of the domain it is attached to and of no other, and
   * device_count is the length of dev_list.
   */
  ghost predicate Attached(domains: map<DomainId, Domain>, pmDomain: map<DeviceId, DomainId>, domainData: set<DeviceId>) {
    && domainData == pmDomain.Keys
    && (forall dev :: dev in pmDomain ==> pmDomain[dev] in domains && dev in domains[pmDomain[dev]].devList)
    && (forall x, dev :: x in domains && dev in domains[x].devList ==> dev in pmDomain && pmDomain[dev] == x)
    && (forall x :: x in domains ==> domains[x].deviceCount == |domains[x].devList| && Distinct(domains[x].devList))
  }

  /** list_del_init of `dev`'s node: `s` without `dev`. */
  function Without(s: seq<DeviceId>, dev: DeviceId): seq<DeviceId> {
    if s == [] then []
    else (if s[0] == dev then [] else [s[0]]) + Without(s[1..], dev)
  }

  /** Removing `dev` keeps every other device, in order, and on a list without repeats takes exactly one entry. */
  lemma {:induction false} WithoutFacts(s: seq<DeviceId>, dev: DeviceId)
    ensures forall x :: x in Without(s, dev) <==> x in s && x != dev
    ensures dev !in s ==> Without(s, dev) == s
    ensures Distinct(s) ==> Distinct(Without(s, dev))
    ensures Distinct(s) && dev in s ==> |Without(s, dev)| == |s| - 1
  {
    if s != [] {
      WithoutFacts(s[1..], dev);
      assert s == [s[0]] + s[1..];
      if Distinct(s) {
        assert Distinct(s[1..]) by {
          forall i, j | 0 <= i < j < |s[1..]| ensures s[1..][i] != s[1..][j] {
            assert s[1..][i] == s[i + 1] && s[1..][j] == s[j + 1];
          }
        }
        assert s[0] !in s[1..] by {
          forall k | 0 <= k < |s[1..]| ensures s[1..][k] != s[0] {
            assert s[1..][k] == s[k + 1];
          }
        }
        var w := Without(s[1..], dev);
        if s[0] != dev {
          forall i, j | 0 <= i < j < |[s[0]] + w| ensures ([s[0]] + w)[i] != ([s[0]] + w)[j] {
            if i > 0 {
              assert ([s[0]] + w)[i] == w[i - 1] && ([s[0]] + w)[j] == w[j - 1];
            } else {
              assert ([s[0]] + w)[j] == w[j - 1];
              assert w[j - 1] in w;
            }
          }
        } else {
          assert Without(s, dev) == w;
        }
      }
    }
  }

  /** The record after a successful __pm_genpd_add_device: one more device, appended to dev_list. */
  function AttachRecord(g: Domain, dev: DeviceId): Domain {
    g.(deviceCount := g.deviceCount + 1, devList := g.devList + [dev])
  }

  /** The record after a successful pm_genpd_remove_device: one device fewer, `dev` taken off dev_list. */
  function DetachRecord(g: Domain, dev: DeviceId): Domain {
    g.(deviceCount := g.deviceCount - 1, devList := Without(g.devList, dev))
  }

  /** Removing a device undoes adding it. */
  lemma DetachUndoesAttach(g: Domain, dev: DeviceId)
    requires dev !in g.devList
    ensures DetachRecord(AttachRecord(g, dev), dev) == g
  {
    WithoutAppend(g.devList, dev);
  }

  lemma {:induction false} WithoutAppend(s: seq<DeviceId>, dev: DeviceId)
    requires dev !in s
    ensures Without(s + [dev], dev) == s
  {
    if s == [] {
      assert Without([dev], dev) == [] + Without([dev][1..], dev);
    } else {
      assert (s + [dev])[1..] == s[1..] + [dev];
      WithoutAppend(s[1..], dev);
      assert s == [s[0]] + s[1..];
    }
  }

  /** A record whose devices are unchanged keeps the attachment consistent. */
  lemma RecordKeepsAttached(domains: map<DomainId, Domain>, pmDomain: map<DeviceId, DomainId>, domainData: set<DeviceId>,
                            g: DomainId, r: Domain)
    requires Attached(domains, pmDomain, domainData) && g in domains
    requires r.devList == domains[g].devList && r.deviceCount == domains[g].deviceCount
    ensures Attached(domains[g := r], pmDomain, domainData)
  {
  }

  /** Attaching a device that has no domain data keeps the attachment consistent. */
  lemma AttachKeepsAttached(domains: map<DomainId, Domain>, pmDomain: map<DeviceId, DomainId>, domainData: set<DeviceId>,
                            g: DomainId, dev: DeviceId)
    requires Attached(domains, pmDomain, domainData) && g in domains && dev !in domainData
    ensures Attached(domains[g := AttachRecord(domains[g], dev)], pmDomain[dev := g], domainData + {dev})
  {
    var l := domains[g].devList;
    assert dev !in l;
    forall i, j | 0 <= i < j < |l + [dev]| ensures (l + [dev])[i] != (l + [dev])[j] {
      if j == |l| {
        assert (l + [dev])[i] == l[i];
      } else {
        assert (l + [dev])[i] == l[i] && (l + [dev])[j] == l[j];
      }
    }
  }

  /** Detaching an attached device from its own domain keeps the attachment consistent. */
  lemma DetachKeepsAttached(domains: map<DomainId, Domain>, pmDomain: map<DeviceId, DomainId>, domainData: set<DeviceId>,
                            dev: DeviceId)
    requires Attached(domains, pmDomain, domainData) && dev in pmDomain
    ensures Attached(domains[pmDomain[dev] := DetachRecord(domains[pmDomain[dev]], dev)],
                     pmDomain - {dev}, domainData - {dev})
  {
    var g := pmDomain[dev];
    WithoutFacts(domains[g].devList, dev);
  }

  /** A newly registered domain with no devices keeps the attachment consistent. */
  lemma RegisterKeepsAttached(domains: map<DomainId, Domain>, pmDomain: map<DeviceId, DomainId>, domainData: set<DeviceId>,
                              g: DomainId, r: Domain)
    requires Attached(domains, pmDomain, domainData) && g !in domains && r.devList == [] && r.deviceCount == 0
    ensures Attached(domains[g := r], pmDomain, domainData)
  {
  }
}
