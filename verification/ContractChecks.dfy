/** The loops of the contract's `__post_init__`: unique ids, and rules that mention declared layers only. */
module ContractChecks {
  import opened Orders
  import opened Contract

  function Ids<T>(xs: seq<T>, id: T -> string): seq<string> { seq(|xs|, i requires 0 <= i < |xs| => id(xs[i])) }

  function LayerId(): Layer -> string { (l: Layer) => l.id }

  function RuleId(): Rule -> string { (r: Rule) => r.id }

  function WaiverId(): Waiver -> string { (w: Waiver) => w.id }

  lemma IdsDistinct<T>(xs: seq<T>, id: T -> string)
    ensures |Ids(xs, id)| == |Elements(Ids(xs, id))| <==> forall i, j :: 0 <= i < j < |xs| ==> id(xs[i]) != id(xs[j])
  {
    var ids := Ids(xs, id);
    SetSize(ids);
    assert forall i :: 0 <= i < |xs| ==> ids[i] == id(xs[i]);
  }

  lemma KnownIff(c: Contract, name: string)
    ensures name in Elements(Ids(c.layers, LayerId())) <==> KnownLayer(c, name)
  {
    var ids := Ids(c.layers, LayerId());
    assert forall i :: 0 <= i < |c.layers| ==> ids[i] == c.layers[i].id;
  }

  predicate RuleKnown(c: Contract, r: Rule)
  {
    KnownLayer(c, r.source) && forall j :: 0 <= j < |r.mayDependOn| ==> KnownLayer(c, r.mayDependOn[j])
  }

  /** One rule against the declared layers. */
  method CheckRule(c: Contract, known: set<string>, r: Rule) returns (ok: bool)
    requires known == Elements(Ids(c.layers, LayerId()))
    ensures ok <==> RuleKnown(c, r)
  {
    KnownIff(c, r.source);
    if r.source !in known { return false; }
    for j := 0 to |r.mayDependOn|
      invariant forall k :: 0 <= k < j ==> KnownLayer(c, r.mayDependOn[k])
    {
      KnownIff(c, r.mayDependOn[j]);
      if r.mayDependOn[j] !in known { return false; }
    }
    return true;
  }

  /** The reference checks of a contract, in the order in which it makes them. */
  method CheckReferences(c: Contract) returns (ok: bool)
    ensures ok <==> UniqueIds(c) && LayersKnown(c)
  {
    var layerIds := Ids(c.layers, LayerId());
    IdsDistinct(c.layers, LayerId());
    IdsDistinct(c.rules, RuleId());
    IdsDistinct(c.waivers, WaiverId());
    if |layerIds| != |Elements(layerIds)| { return false; }
    var ruleIds := Ids(c.rules, RuleId());
    if |ruleIds| != |Elements(ruleIds)| { return false; }
    var known := Elements(layerIds);
    for i := 0 to |c.rules|
      invariant forall k :: 0 <= k < i ==> RuleKnown(c, c.rules[k])
    {
      var good := CheckRule(c, known, c.rules[i]);
      if !good { return false; }
    }
    var waiverIds := Ids(c.waivers, WaiverId());
    return |waiverIds| == |Elements(waiverIds)|;
  }
}
