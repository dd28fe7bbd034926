/**
 * Device-tree PM domain providers: the two generic translation functions
 * and the lookup that walks the registered providers.
 */
module Providers {
  import opened Types

  type NodeId = nat

  /** of_phandle_args: the provider node and the specifier cells (args_count == |args|). */
  datatype PhandleArgs = PhandleArgs(np: NodeId, args: seq<nat>)

  /** A domain pointer or an ERR_PTR value. */
  datatype Lookup = Found(genpd: DomainId) | Failed(error: int)

  /**
   * The translation a provider registered: __of_genpd_xlate_simple with its
   * domain, or __of_genpd_xlate_onecell with the domains array (num_domains
   * is the array's length; a None entry is a NULL slot).
   */
  datatype Xlate = Simple(data: DomainId) | Onecell(domains: seq<Option<DomainId>>)

  datatype Provider = Provider(node: NodeId, xlate: Xlate)

  /** __of_genpd_xlate_simple: only a specifier without cells names the domain. */
  function XlateSimple(spec: PhandleArgs, data: DomainId): (r: Lookup)
    ensures r.Found? <==> |spec.args| == 0
    ensures r.Found? ==> r.genpd == data
    ensures r.Failed? ==> r.error == EINVAL
  {
    if |spec.args| != 0 then Failed(EINVAL) else Found(data)
  }

  /** __of_genpd_xlate_onecell: one cell, used as an index into the domains array. */
  function XlateOnecell(spec: PhandleArgs, domains: seq<Option<DomainId>>): (r: Lookup)
    ensures r.Found? <==> |spec.args| == 1 && spec.args[0] < |domains| && domains[spec.args[0]].Some?
    ensures r.Found? ==> r.genpd == domains[spec.args[0]].value
    ensures r.Failed? ==> (r.error == ENOENT <==> |spec.args| == 1 && spec.args[0] < |domains|)
    ensures r.Failed? ==> r.error == ENOENT || r.error == EINVAL
  {
    if |spec.args| != 1 then Failed(EINVAL)
    else if spec.args[0] >= |domains| then Failed(EINVAL)
    else if domains[spec.args[0]].None? then Failed(ENOENT)
    else Found(domains[spec.args[0]].value)
  }

  function Translate(p: Provider, spec: PhandleArgs): Lookup {
    match p.xlate
    case Simple(data) => XlateSimple(spec, data)
    case Onecell(domains) => XlateOnecell(spec, domains)
  }

  predicate Serves(p: Provider, spec: PhandleArgs) {
    p.node == spec.np
  }

  /**
   * of_genpd_get_from_provider: the first provider for the node whose
   * translation succeeds wins; if none succeeds, the error of the last
   * provider for the node is returned, or -ENOENT when there is none.
   */
  method GetFromProvider(providers: seq<Provider>, spec: PhandleArgs) returns (r: Lookup)
    ensures r.Found? <==> exists i :: 0 <= i < |providers| && Serves(providers[i], spec) && Translate(providers[i], spec).Found?
    ensures r.Found? ==> exists i :: 0 <= i < |providers| && Serves(providers[i], spec) && r == Translate(providers[i], spec)
                                 && forall j :: 0 <= j < i && Serves(providers[j], spec) ==> Translate(providers[j], spec).Failed?
    ensures (forall i :: 0 <= i < |providers| ==> !Serves(providers[i], spec)) ==> r == Failed(ENOENT)
    ensures r.Failed? && (exists i :: 0 <= i < |providers| && Serves(providers[i], spec)) ==>
              exists i :: 0 <= i < |providers| && Serves(providers[i], spec) && r == Translate(providers[i], spec)
                       && forall j :: i < j < |providers| ==> !Serves(providers[j], spec)
  {
    r := Failed(ENOENT);
    ghost var last := -1;
    var k := 0;
    while k < |providers|
      invariant 0 <= k <= |providers|
      invariant r.Failed?
      invariant forall j :: 0 <= j < k && Serves(providers[j], spec) ==> Translate(providers[j], spec).Failed?
      invariant -1 <= last < k
      invariant last == -1 ==> r == Failed(ENOENT) && forall j :: 0 <= j < k ==> !Serves(providers[j], spec)
      invariant last >= 0 ==> Serves(providers[last], spec) && r == Translate(providers[last], spec)
                              && forall j :: last < j < k ==> !Serves(providers[j], spec)
    {
      if Serves(providers[k], spec) {
        r := Translate(providers[k], spec);
        last := k;
      }
      if !r.Failed? {
        return;
      }
      k := k + 1;
    }
  }
}
