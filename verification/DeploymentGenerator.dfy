/**
 generate_config as it runs: resources are appended one after the other, and
 the instances of a deployment share one dependency list that keeps growing
 after the first of them has been emitted.
 */
module DeploymentGenerator {
  import opened Common
  import opened Names
  import opened ResourceNames
  import opened Deployment
  import opened DeploymentTheorems

  /** A Python list of dependency names, shared by reference. */
  class DepList {
    var items: seq<string>

    constructor ()
      ensures items == []
    {
      items := [];
    }

    method Append(x: string)
      modifies this
      ensures items == old(items) + [x]
    {
      items := items + [x];
    }
  }

  /** An emitted dictionary; its dependsOn is whatever the list holds in the end. */
  datatype Draft = Draft(res: Resource, metadata: DepList?)

  ghost function Pending(c: Config, id: Id): Resource
    requires !c.SharedPair()
  {
    ResourceFor(c, id).(dependsOn := [])
  }

  ghost predicate Built(c: Config, drafts: seq<Draft>, ids: seq<Id>, deps: DepList)
    requires !c.SharedPair()
  {
    && |drafts| == |ids|
    && forall i :: 0 <= i < |ids| ==>
         drafts[i].res == Pending(c, ids[i]) && drafts[i].metadata == (if ids[i].Instance? then deps else null)
  }

  lemma BuiltOneMore(c: Config, drafts: seq<Draft>, ids: seq<Id>, deps: DepList, id: Id, draft: Draft)
    requires !c.SharedPair() && Built(c, drafts, ids, deps)
    requires draft == Draft(Pending(c, id), if id.Instance? then deps else null)
    ensures Built(c, drafts + [draft], ids + [id], deps)
  {
  }

  /** The returned value, read after the last append. */
  function Finish(drafts: seq<Draft>, deps: DepList): seq<Resource>
    reads deps
  {
    seq(|drafts|, i requires 0 <= i < |drafts| reads deps =>
      if drafts[i].metadata == deps then drafts[i].res.(dependsOn := deps.items) else drafts[i].res)
  }

  lemma FinishIsTemplate(c: Config, drafts: seq<Draft>, deps: DepList)
    requires !c.SharedPair() && Built(c, drafts, Order(c), deps)
    requires deps.items == NamesOf(c.deployment, DependsOnIds(c))
    ensures Finish(drafts, deps) == Template(c)
  {
  }

  /** The template is returned for these configurations and for no others. */
  predicate Returns(c: Config) {
    && ZonesInRegion(c)
    && !c.SharedPair()
    && GroupsTogether(c)
    && AddressesDefined(c)
  }

  lemma AddressSubnetIsDefined(c: Config, id: Id)
    requires !c.SharedPair() && id in AddressIds(c)
    ensures AddressSubnet(c, id).Some? <==> AddressesDefined(c)
  {
    AddressKinds(c, id);
    if id == MediatorIp {
      MediatorNameHasNeedle(c.deployment);
    } else {
      NeedlesInAddressName(c.deployment, id, id.nic);
      if !c.Pair() {
        NeedlesInAddressName(c.deployment, id, Nic0);
      }
    }
  }

  lemma PendingAddress(c: Config, id: Id)
    requires !c.SharedPair() && id in AddressIds(c)
    ensures Pending(c, id) == Resource(id, NameOf(c.deployment, id), AddressSubnet(c, id), [], [], [])
    ensures !id.Instance?
  {
    AddressKinds(c, id);
  }

  predicate AddressesDefined(c: Config) {
    c.Pair() && Contains(c.deployment, "mediator") ==> c.CreatesMediator()
  }

  /** for resource_name in addresses.values(): pick the subnet from the text of the name. */
  method EmitAddresses(c: Config, drafts: seq<Draft>, ghost ids: seq<Id>, ghost deps: DepList)
    returns (r: Result<seq<Draft>, ()>)
    requires !c.SharedPair() && Built(c, drafts, ids, deps)
    ensures r.Ok? <==> AddressesDefined(c)
    ensures r.Ok? ==> Built(c, r.value, ids + AddressIds(c), deps)
  {
    var addresses := AddressIds(c);
    var out := drafts;
    for i := 0 to |addresses|
      invariant Built(c, out, ids + addresses[..i], deps)
      invariant i > 0 ==> AddressesDefined(c)
    {
      var id := addresses[i];
      AddressSubnetIsDefined(c, id);
      PendingAddress(c, id);
      var subnet := AddressSubnet(c, id);
      if subnet.None? {
        return Err(());
      }
      var draft := Draft(Resource(id, NameOf(c.deployment, id), subnet, [], [], []), null);
      BuiltOneMore(c, out, ids + addresses[..i], deps, id, draft);
      out := out + [draft];
      assert ids + addresses[..i + 1] == ids + addresses[..i] + [id];
    }
    assert addresses[..|addresses|] == addresses;
    return Ok(out);
  }

  /** Disk names in slots; the shared-disk branch leaves its ninth slot empty. */
  function DiskSlots(c: Config, vm: Vm): seq<Option<Id>> {
    if c.SharedPair() then
      match vm
      case Second =>
        [Some(Disk(Second, Boot)), Some(Disk(Second, Nvram)), Some(Disk(Second, Core)), Some(Disk(Second, Root)),
         Some(Disk(Second, Data1Copy)), Some(Disk(Second, Data2Copy)), Some(Disk(Second, Data3Copy)),
         Some(Disk(Second, Data4Copy)), None]
      case _ =>
        [Some(Disk(First, Boot)), Some(Disk(First, Nvram)), Some(Disk(First, Core)), Some(Disk(First, Root)),
         Some(Disk(Second, Root)), Some(Disk(First, Data2)), Some(Disk(First, Data3)),
         Some(Disk(First, Data4)), None]
    else
      var ids := DiskIds(vm);
      seq(|ids|, i requires 0 <= i < |ids| => Some(ids[i]))
  }

  /** for i in range(system_disks_count): an empty slot cannot be attached. */
  method AttachDisks(c: Config, vm: Vm) returns (r: Result<seq<string>, ()>)
    ensures r.Ok? <==> !c.SharedPair()
    ensures r.Ok? ==> r.value == NamesOf(c.deployment, DiskIds(vm))
  {
    var slots := DiskSlots(c, vm);
    assert c.SharedPair() ==> |slots| == 9 && slots[8].None?;
    var sources: seq<string> := [];
    for i := 0 to |slots|
      invariant |sources| == i
      invariant forall j :: 0 <= j < i ==> slots[j].Some? && sources[j] == NameOf(c.deployment, slots[j].value)
    {
      if slots[i].None? {
        assert c.SharedPair();
        return Err(());
      }
      sources := sources + [NameOf(c.deployment, slots[i].value)];
    }
    return Ok(sources);
  }

  lemma PlainIsPending(c: Config, id: Id)
    requires !c.SharedPair() && !id.Instance?
    ensures Pending(c, id) == ResourceFor(c, id)
  {
  }

  method EmitPlain(c: Config, drafts: seq<Draft>, more: seq<Id>, ghost ids: seq<Id>, ghost deps: DepList)
    returns (out: seq<Draft>)
    requires !c.SharedPair() && Built(c, drafts, ids, deps)
    requires forall i :: 0 <= i < |more| ==> !more[i].Instance?
    ensures Built(c, out, ids + more, deps)
  {
    out := drafts;
    for i := 0 to |more|
      invariant Built(c, out, ids + more[..i], deps)
    {
      PlainIsPending(c, more[i]);
      var draft := Draft(ResourceFor(c, more[i]), null);
      BuiltOneMore(c, out, ids + more[..i], deps, more[i], draft);
      out := out + [draft];
      assert ids + more[..i + 1] == ids + more[..i] + [more[i]];
    }
    assert more[..|more|] == more;
  }

  lemma NodeRefNames(c: Config, vm: Vm, custom: seq<Id>)
    requires !c.SharedPair() && custom == if c.Pair() then CustomDataRefs(c, vm) else []
    ensures NamesOf(c.deployment, RefIds(c, Instance(vm)))
            == NamesOf(c.deployment, custom) + NamesOf(c.deployment, DiskIds(vm))
               + NamesOf(c.deployment, PolicyRefs(c, Instance(vm)))
  {
    var policy := PolicyRefs(c, Instance(vm));
    assert RefIds(c, Instance(vm)) == custom + DiskIds(vm) + policy;
    NamesOfConcat(c.deployment, custom, DiskIds(vm));
    NamesOfConcat(c.deployment, custom + DiskIds(vm), policy);
  }

  lemma NamesOfConcat(deployment: string, a: seq<Id>, b: seq<Id>)
    ensures NamesOf(deployment, a + b) == NamesOf(deployment, a) + NamesOf(deployment, b)
  {
  }

  method EmitNode(c: Config, drafts: seq<Draft>, vm: Vm, ghost ids: seq<Id>, deps: DepList)
    returns (r: Result<seq<Draft>, ()>)
    requires c.SharedPair() || Built(c, drafts, ids, deps)
    ensures r.Ok? <==> !c.SharedPair()
    ensures r.Ok? ==> Built(c, r.value, ids + [Instance(vm)], deps)
  {
    var disks := AttachDisks(c, vm);
    if disks.Err? {
      return Err(());
    }
    var id := Instance(vm);
    var custom := if c.Pair() then CustomDataRefs(c, vm) else [];
    var refs := NamesOf(c.deployment, custom) + disks.value + NamesOf(c.deployment, PolicyRefs(c, id));
    NodeRefNames(c, vm, custom);
    var node := Resource(id, NameOf(c.deployment, id), None, refs, NicsOf(c.deployment, Attachments(c, id)), []);
    BuiltOneMore(c, drafts, ids, deps, id, Draft(node, deps));
    return Ok(drafts + [Draft(node, deps)]);
  }

  method DependOn(c: Config, deps: DepList, ids: seq<Id>, ghost sofar: seq<Id>)
    requires deps.items == NamesOf(c.deployment, sofar)
    modifies deps
    ensures deps.items == NamesOf(c.deployment, sofar + ids)
  {
    for i := 0 to |ids|
      invariant deps.items == NamesOf(c.deployment, sofar + ids[..i])
    {
      NamesOfConcat(c.deployment, sofar + ids[..i], [ids[i]]);
      assert sofar + ids[..i + 1] == sofar + ids[..i] + [ids[i]];
      deps.Append(NameOf(c.deployment, ids[i]));
    }
    assert ids[..|ids|] == ids;
  }

  lemma PlainSegment(c: Config, k: nat)
    requires !c.SharedPair() && k < SEGMENTS && k != 9 && k != 10
    ensures forall i :: 0 <= i < |Segment(c, k)| ==> !Segment(c, k)[i].Instance?
  {
    SegmentsOk(c, k);
  }

  /** Segments without instances, in order. */
  method EmitSegments(c: Config, drafts: seq<Draft>, from: nat, to: nat, ghost deps: DepList)
    returns (out: seq<Draft>)
    requires !c.SharedPair() && from <= to <= 9 && Built(c, drafts, OrderUpTo(c, from), deps)
    ensures Built(c, out, OrderUpTo(c, to), deps)
  {
    out := drafts;
    for k := from to to
      invariant Built(c, out, OrderUpTo(c, k), deps)
    {
      PlainSegment(c, k);
      out := EmitPlain(c, out, Segment(c, k), OrderUpTo(c, k), deps);
    }
  }

  /** The second node comes after its own node group, which the first one then depends on as well. */
  method EmitSecond(c: Config, drafts: seq<Draft>, deps: DepList, ghost sofar: seq<Id>)
    returns (r: Result<seq<Draft>, ()>)
    requires c.Pair() && Built(c, drafts, OrderUpTo(c, 10), deps)
    requires deps.items == NamesOf(c.deployment, sofar)
    modifies deps
    ensures r.Ok? <==> GroupsTogether(c)
    ensures r.Ok? ==> Built(c, r.value, OrderUpTo(c, 10) + SecondIds(c), deps)
    ensures r.Ok? ==> deps.items == NamesOf(c.deployment, sofar + if c.CreatesGroup2() then [NodeGroup(Second)] else [])
  {
    var out := drafts;
    ghost var ids := OrderUpTo(c, 10);
    if c.CreatesGroup2() {
      if !c.CreatesTemplate() {
        // The second node group refers to a template name that was never set.
        return Err(());
      }
      out := EmitPlain(c, out, [NodeGroup(Second)], ids, deps);
      ids := ids + [NodeGroup(Second)];
      DependOn(c, deps, [NodeGroup(Second)], sofar);
    } else {
      assert sofar + [] == sofar;
    }
    var second := EmitNode(c, out, Second, ids, deps);
    ids := ids + [Instance(Second)];
    out := EmitPlain(c, second.value, [AddInstances(First), AddInstances(Second)], ids, deps);
    assert ids + [AddInstances(First), AddInstances(Second)] == OrderUpTo(c, 10) + SecondIds(c);
    return Ok(out);
  }

  /** What both nodes wait for when the first one is emitted. */
  function EarlyDependencies(c: Config): seq<Id> {
    (if c.CreatesTemplate() then [NodeGroup(c.MainVm())] else [])
    + (if c.Pair() then
         [Rule(ClusterLb, Tcp), Rule(Nas1Lb, Tcp), Rule(Nas2Lb, Tcp),
          Rule(ClusterLb, Udp), Rule(Nas1Lb, Udp), Rule(Nas2Lb, Udp)]
       else [])
    + (if c.CreatesMediator() then [Mediator] else [])
  }

  method EmitUpToFirst(c: Config, deps: DepList) returns (r: Result<seq<Draft>, ()>)
    requires !c.SharedPair() && deps.items == []
    modifies deps
    ensures r.Ok? <==> AddressesDefined(c)
    ensures r.Ok? ==> Built(c, r.value, OrderUpTo(c, 10), deps)
    ensures r.Ok? ==> deps.items == NamesOf(c.deployment, EarlyDependencies(c))
  {
    var resources := EmitSegments(c, [], 0, 1, deps);
    ghost var sofar: seq<Id> := [];
    if c.CreatesTemplate() {
      DependOn(c, deps, [NodeGroup(c.MainVm())], sofar);
      sofar := sofar + [NodeGroup(c.MainVm())];
    }
    var addressed := EmitAddresses(c, resources, OrderUpTo(c, 1), deps);
    if addressed.Err? {
      return Err(());
    }
    resources := EmitSegments(c, addressed.value, 2, 9, deps);
    if c.Pair() {
      var rules := [Rule(ClusterLb, Tcp), Rule(Nas1Lb, Tcp), Rule(Nas2Lb, Tcp),
                    Rule(ClusterLb, Udp), Rule(Nas1Lb, Udp), Rule(Nas2Lb, Udp)];
      DependOn(c, deps, rules, sofar);
      sofar := sofar + rules;
      if c.CreatesMediator() {
        DependOn(c, deps, [Mediator], sofar);
        sofar := sofar + [Mediator];
      }
    }
    assert sofar == EarlyDependencies(c);
    r := EmitNode(c, resources, c.MainVm(), OrderUpTo(c, 9), deps);
    assert Segment(c, 9) == [Instance(c.MainVm())];
  }

  /** Returns exactly for the configurations of Returns, and then the specified template. */
  method GenerateConfig(c: Config) returns (r: Result<seq<Resource>, ()>)
    ensures r.Ok? <==> Returns(c)
    ensures r.Ok? ==> r.value == Template(c)
  {
    if !ZonesInRegion(c) {
      return Err(());
    }
    var dependencies := new DepList();
    if c.SharedPair() {
      // Whatever was emitted before, attaching the ninth disk raises.
      var attached := EmitNode(c, [], First, [], dependencies);
      return Err(());
    }
    var resources := EmitUpToFirst(c, dependencies);
    if resources.Err? {
      return Err(());
    }
    if c.Pair() {
      resources := EmitSecond(c, resources.value, dependencies, EarlyDependencies(c));
      if resources.Err? {
        return Err(());
      }
    }
    assert Segment(c, 10) == if c.Pair() then SecondIds(c) else [];
    assert Order(c) == OrderUpTo(c, 10) + Segment(c, 10);
    assert DependsOnIds(c) == EarlyDependencies(c) + if c.CreatesGroup2() then [NodeGroup(Second)] else [];
    FinishIsTemplate(c, resources.value, dependencies);
    return Ok(Finish(resources.value, dependencies));
  }
}
