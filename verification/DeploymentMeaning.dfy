/**
 What the emitted template consists of, resource by resource: which resources
 there are, what each refers to, which addresses each interface takes and from
 which subnet, and what the nodes wait for.
 */
module DeploymentMeaning {
  import opened Common
  import opened Names
  import opened ResourceNames
  import opened Deployment
  import opened DeploymentTheorems
  import opened DeploymentGenerator

  // ---------------------------------------------------------------------
  // The configuration in its own terms
  // ---------------------------------------------------------------------

  predicate TwoNodes(c: Config) {
    c.ha.Some? && c.ha.value.nonShared.Some?
  }

  /** No address of an existing mediator was supplied. */
  predicate OwnMediator(c: Config) {
    TwoNodes(c) && c.ha.value.nonShared.value.mediator.ip == ""
  }

  predicate HasData(c: Config) {
    c.dataNic.Some?
  }

  /** The node a machine is the mirror of. */
  function Partner(vm: Vm): Vm {
    match vm
    case Single => Single
    case First => Second
    case Second => First
  }

  /** The machines of a two-node deployment. */
  predicate Machine(c: Config, id: Id) {
    id == Instance(First) || id == Instance(Second) || (id == Mediator && OwnMediator(c))
  }

  /** Its zone: the second node is by default with the first, the mediator with the second. */
  function ZoneOf(c: Config, id: Id): string
    requires TwoNodes(c) && Machine(c, id)
  {
    var second := if c.ha.value.zone2 == "" then c.zone1 else c.ha.value.zone2;
    var conf := c.ha.value.nonShared.value.mediator;
    if id == Instance(First) then c.zone1
    else if id == Instance(Second) then second
    else if conf.zone == "" then second else conf.zone
  }

  /** Another machine is in the same zone. */
  predicate SharesZone(c: Config, id: Id)
    requires TwoNodes(c)
  {
    && Machine(c, id)
    && exists other :: other in {Instance(First), Instance(Second), Mediator}
                       && other != id && Machine(c, other) && ZoneOf(c, other) == ZoneOf(c, id)
  }

  lemma PolicySpreadsSharers(c: Config, id: Id)
    requires TwoNodes(c)
    ensures id in PolicyMembers(c) <==> SharesZone(c, id)
  {
    if SharesZone(c, id) {
      var other :| other in {Instance(First), Instance(Second), Mediator}
                   && other != id && Machine(c, other) && ZoneOf(c, other) == ZoneOf(c, id);
    }
    if id in PolicyMembers(c) {
      assert Machine(c, id);
      if id != Instance(First) && ZoneOf(c, id) == c.zone1 {
        assert ZoneOf(c, Instance(First)) == ZoneOf(c, id);
      } else if id != Instance(Second) && ZoneOf(c, id) == ZoneOf(c, Instance(Second)) {
        assert Machine(c, Instance(Second));
      } else {
        assert Machine(c, Mediator) && ZoneOf(c, Mediator) == ZoneOf(c, id) && id != Mediator;
      }
    }
  }

  // ---------------------------------------------------------------------
  // Which resources there are
  // ---------------------------------------------------------------------

  predicate WantedAddress(c: Config, vm: Vm, nic: NicId, iface: Iface) {
    if TwoNodes(c) then
      && !vm.Single?
      && match iface
         case NodeMgmt => nic.Nic0?
         case Cluster => nic.Nic1?
         case Interconnect => nic.Nic2?
         case Rsm => nic.Nic3?
         case InterCluster => nic.Nic4? && HasData(c)
         case Iscsi => if HasData(c) then nic.Nic4? else nic.Nic0?
         case _ => false
    else
      && vm.Single?
      && match iface
         case NodeMgmt => nic.Nic0?
         case ClusterMgmt => nic.Nic0?
         case InterCluster => nic.Nic1? && HasData(c)
         case Iscsi => if HasData(c) then nic.Nic1? else nic.Nic0?
         case Nas => if HasData(c) then nic.Nic1? else nic.Nic0?
         case _ => false
  }

  predicate WantedDisk(c: Config, vm: Vm, use: DiskUse) {
    && (TwoNodes(c) <==> !vm.Single?)
    && match use
       case Boot => true
       case Nvram => true
       case Core => true
       case Root => true
       case RootCopy => TwoNodes(c)
       case Data1 => !vm.Second?
       case Data2 => !vm.Second?
       case Data3 => !vm.Second?
       case Data4 => !vm.Second?
       case _ => vm.Second?
  }

  /** The resources a configuration calls for. */
  predicate Wanted(c: Config, id: Id) {
    match id
    case NodeTemplate => c.soleTenant.Some? && c.soleTenant.value.vm1Group == ""
    case NodeGroup(vm) =>
      && c.soleTenant.Some?
      && (TwoNodes(c) <==> !vm.Single?)
      && (if vm.Second? then c.soleTenant.value.vm2Group == "" else c.soleTenant.value.vm1Group == "")
    case Ip(vm, nic, iface) => WantedAddress(c, vm, nic, iface)
    case Disk(vm, use) => WantedDisk(c, vm, use)
    case LbIp(_) => TwoNodes(c)
    case HealthCheck(_) => TwoNodes(c)
    case Backend(_, _) => TwoNodes(c)
    case Rule(_, _) => TwoNodes(c)
    case Group(vm) => TwoNodes(c) && !vm.Single?
    case AddInstances(vm) => TwoNodes(c) && !vm.Single?
    case MediatorIp => OwnMediator(c)
    case MediatorDisk(_) => OwnMediator(c)
    case Mediator => OwnMediator(c)
    case Policy =>
      TwoNodes(c) && (SharesZone(c, Instance(First)) || SharesZone(c, Instance(Second)) || SharesZone(c, Mediator))
    case Instance(vm) => TwoNodes(c) <==> !vm.Single?
  }

  lemma AddressesAreWanted(c: Config, id: Id)
    requires !c.SharedPair() && id.Ip?
    ensures Emits(c, id) <==> Wanted(c, id)
  {
    if Wanted(c, id) {
      if c.Pair() { PairAddressIsEmitted(c, id); } else { SingleAddressIsEmitted(c, id); }
    }
    if Emits(c, id) { AddressesAreKnown(c, id); }
  }

  lemma DisksAreWanted(c: Config, id: Id)
    requires !c.SharedPair() && id.Disk?
    ensures Emits(c, id) <==> Wanted(c, id)
  {
    if Wanted(c, id) {
      DiskIsListed(id.vm, id.use);
    }
  }

  lemma DiskIsListed(vm: Vm, use: DiskUse)
    requires vm.Single? ==> use in {Boot, Nvram, Core, Root, Data1, Data2, Data3, Data4}
    requires vm.First? ==> use in {Boot, Nvram, Core, Root, RootCopy, Data1, Data2, Data3, Data4}
    requires vm.Second? ==> use in {Boot, Nvram, Core, Root, RootCopy, Data1Copy, Data2Copy, Data3Copy, Data4Copy}
    ensures Disk(vm, use) in DiskIds(if use.RootCopy? then Partner(vm) else vm)
  {
    var ids := DiskIds(if use.RootCopy? then Partner(vm) else vm);
    var k := DiskPlace(use) - if vm.Single? && DiskPlace(use) > 4 then 1 else 0;
    assert ids[k] == Disk(vm, use);
  }

  lemma BalancingIsWanted(c: Config, id: Id)
    requires !c.SharedPair()
    requires id.LbIp? || id.HealthCheck? || id.Backend? || id.Rule? || id.Group?
    ensures Emits(c, id) <==> Wanted(c, id)
  {
    var lb := if id.Group? then 0 else match id.lb case ClusterLb => 0 case Nas1Lb => 1 case Nas2Lb => 2;
    match id {
      case LbIp(_) => assert BALANCING[lb] == id;
      case HealthCheck(_) => assert BALANCING[5 + lb] == id;
      case Group(vm) => assert vm.Single? || BALANCING[if vm.First? then 3 else 4] == id;
      case Backend(_, p) => assert BACKENDS[2 * lb + if p.Tcp? then 0 else 1] == id;
      case Rule(_, p) => assert RULES[2 * lb + if p.Tcp? then 0 else 1] == id;
    }
  }

  lemma PolicyIsWanted(c: Config)
    requires !c.SharedPair()
    ensures Emits(c, Policy) <==> Wanted(c, Policy)
  {
    if c.Pair() {
      PolicySpreadsSharers(c, Instance(First));
      PolicySpreadsSharers(c, Instance(Second));
      PolicySpreadsSharers(c, Mediator);
      assert PolicyMembers(c) <= {Instance(First), Instance(Second), Mediator};
      if PolicyMembers(c) != {} {
        var m :| m in PolicyMembers(c);
      }
    }
  }

  lemma NodesAreWanted(c: Config, id: Id)
    requires !c.SharedPair()
    requires id.NodeTemplate? || id.NodeGroup? || id.AddInstances? || id.Instance?
    ensures Emits(c, id) <==> Wanted(c, id)
  {
  }

  lemma MediatorsAreWanted(c: Config, id: Id)
    requires !c.SharedPair() && (id.MediatorIp? || id.MediatorDisk? || id.Mediator?)
    ensures Emits(c, id) <==> Wanted(c, id)
  {
    if id == MediatorIp && c.CreatesMediator() { assert AddressIds(c)[10] == id; }
    if id.MediatorDisk? && c.CreatesMediator() { assert MediatorIds(c)[if id.boot then 0 else 1] == id; }
  }

  lemma EmittedIsWanted(c: Config, id: Id)
    requires !c.SharedPair()
    ensures id in Order(c) <==> Wanted(c, id)
  {
    EmitsIsOrder(c, id);
    if id.Ip? {
      AddressesAreWanted(c, id);
    } else if id.Disk? {
      DisksAreWanted(c, id);
    } else if id.LbIp? || id.HealthCheck? || id.Backend? || id.Rule? || id.Group? {
      BalancingIsWanted(c, id);
    } else if id.Policy? {
      PolicyIsWanted(c);
    } else if id.MediatorIp? || id.MediatorDisk? || id.Mediator? {
      MediatorsAreWanted(c, id);
    } else {
      NodesAreWanted(c, id);
    }
  }

  /** The template has exactly the resources called for, each under the name of its identifier. */
  lemma TemplateIsWhatIsWanted(c: Config, id: Id)
    requires !c.SharedPair()
    ensures Wanted(c, id) <==> exists i :: 0 <= i < |Template(c)| && Template(c)[i].id == id
    ensures forall i :: 0 <= i < |Template(c)| ==> Template(c)[i].name == NameOf(c.deployment, Template(c)[i].id)
  {
    EmittedIsWanted(c, id);
    if id in Order(c) {
      var i :| 0 <= i < |Order(c)| && Order(c)[i] == id;
      assert Template(c)[i].id == id;
    }
  }

  // ---------------------------------------------------------------------
  // What each resource is referred to by
  // ---------------------------------------------------------------------

  /** In its custom data a node of a pair is told this address of a node; the data addresses if there are any. */
  predicate IsTold(c: Config, iface: Iface, owner: Vm, node: Vm) {
    match iface
    case NodeMgmt => true
    case Cluster => true
    case Interconnect => node == Partner(owner)
    case Rsm => node == Partner(owner)
    case InterCluster => node == owner
    case Iscsi => HasData(c)
    case _ => false
  }

  /** Resource b is there for resource a, which names it inside $(ref...). */
  predicate IsFor(c: Config, b: Id, a: Id) {
    match b
    case NodeTemplate => a.NodeGroup?
    case HealthCheck(lb) => a.Backend? && a.lb == lb
    case Group(_) => a.Backend?
    case Backend(lb, p) => a == Rule(lb, p)
    case Disk(vm, use) => a == Instance(if use.RootCopy? then Partner(vm) else vm)
    case MediatorDisk(_) => a == Mediator
    case Policy => TwoNodes(c) && SharesZone(c, a)
    case Instance(vm) => a == AddInstances(vm)
    case MediatorIp => a.Instance?
    case LbIp(lb) => a.Instance? && lb.ClusterLb?
    case Ip(vm, _, iface) => TwoNodes(c) && a.Instance? && IsTold(c, iface, vm, a.vm)
    case _ => false
  }

  lemma DisksAreForNodes(c: Config, vm: Vm, b: Id)
    requires !c.SharedPair() && (c.Pair() <==> !vm.Single?) && Wanted(c, b)
    ensures b in DiskIds(vm) <==> b.Disk? && IsFor(c, b, Instance(vm))
  {
    DisksOk(vm);
    if b in DiskIds(vm) { DisksAreEmitted(c, vm); DisksOfNode(vm, b); }
    if b.Disk? && IsFor(c, b, Instance(vm)) { DiskIsListed(b.vm, b.use); }
  }

  lemma DisksOfNode(vm: Vm, b: Id)
    requires b in DiskIds(vm)
    ensures b.Disk? && vm == if b.use.RootCopy? then Partner(b.vm) else b.vm
  {
    var i :| 0 <= i < |DiskIds(vm)| && DiskIds(vm)[i] == b;
  }

  lemma AddressesAreForNodes(c: Config, vm: Vm, b: Id)
    requires c.Pair() && !vm.Single? && Wanted(c, b)
    ensures b in CustomDataRefs(c, vm) <==> (b.Ip? || b.LbIp? || b.MediatorIp?) && IsFor(c, b, Instance(vm))
  {
    var partner := if vm.First? then Second else First;
    PeersAre(vm, partner, b);
    DataPeersAre(c, vm, partner, b);
  }

  lemma PeersAre(vm: Vm, partner: Vm, b: Id)
    ensures b in PeerRefs(vm, partner) <==>
              b in {Ip(partner, Nic2, Interconnect), LbIp(ClusterLb), Ip(partner, Nic3, Rsm), Ip(vm, Nic1, Cluster),
                    Ip(partner, Nic1, Cluster), Ip(vm, Nic0, NodeMgmt), Ip(partner, Nic0, NodeMgmt)}
  {
  }

  lemma DataPeersAre(c: Config, vm: Vm, partner: Vm, b: Id)
    ensures b in DataRefs(c, vm, partner) <==>
              HasData(c) && b in {Ip(vm, Nic4, InterCluster), Ip(vm, Nic4, Iscsi), Ip(partner, Nic4, Iscsi)}
  {
  }

  lemma NodeRefsAreFor(c: Config, vm: Vm, b: Id)
    requires !c.SharedPair() && (c.Pair() <==> !vm.Single?) && Wanted(c, b)
    ensures b in RefIds(c, Instance(vm)) <==> IsFor(c, b, Instance(vm))
  {
    DisksAreForNodes(c, vm, b);
    if c.Pair() {
      AddressesAreForNodes(c, vm, b);
      PolicySpreadsSharers(c, Instance(vm));
    }
  }

  lemma OtherRefsAreFor(c: Config, a: Id, b: Id)
    requires !c.SharedPair() && Wanted(c, a) && Wanted(c, b) && !a.Instance?
    ensures b in RefIds(c, a) <==> IsFor(c, b, a)
  {
    if c.Pair() { PolicySpreadsSharers(c, a); }
  }

  /** By identifier: the references of a are exactly the resources that are there for a. */
  lemma RefIdsAreFor(c: Config, a: Id, b: Id)
    requires !c.SharedPair() && Wanted(c, a) && Wanted(c, b)
    ensures b in RefIds(c, a) <==> IsFor(c, b, a)
  {
    if a.Instance? { NodeRefsAreFor(c, a.vm, b); } else { OtherRefsAreFor(c, a, b); }
  }

  lemma NameIsListed(c: Config, a: Id, ids: seq<Id>, b: Id)
    requires !c.SharedPair() && Downward(c, a, ids) && Emits(c, b)
    ensures NameOf(c.deployment, b) in NamesOf(c.deployment, ids) <==> b in ids
  {
    EmitsIsOrder(c, b);
    OrderOk(c, SEGMENTS);
    if b in ids {
      var k :| 0 <= k < |ids| && ids[k] == b;
      assert NamesOf(c.deployment, ids)[k] == NameOf(c.deployment, b);
    }
    if NameOf(c.deployment, b) in NamesOf(c.deployment, ids) {
      var k :| 0 <= k < |ids| && NamesOf(c.deployment, ids)[k] == NameOf(c.deployment, b);
      EmitsIsOrder(c, ids[k]);
      NamesAreDistinct(c.deployment, ids[k], b);
    }
  }

  lemma TemplateEntry(c: Config, i: nat)
    requires !c.SharedPair() && i < |Template(c)|
    ensures var id := Template(c)[i].id; Emits(c, id) && Wanted(c, id) && Template(c)[i] == ResourceFor(c, id)
  {
    var id := Order(c)[i];
    assert id in Order(c);
    EmitsIsOrder(c, id);
    EmittedIsWanted(c, id);
  }

  /** Each resource is referred to inside $(ref...) by exactly the resources it is for. */
  lemma ReferencesAreExactly(c: Config, i: nat, j: nat)
    requires !c.SharedPair() && GroupsTogether(c) && i < |Template(c)| && j < |Template(c)|
    ensures var t := Template(c); t[j].name in t[i].refs <==> IsFor(c, t[j].id, t[i].id)
  {
    var a, b := Template(c)[i].id, Template(c)[j].id;
    TemplateEntry(c, i);
    TemplateEntry(c, j);
    RefsAreEmitted(c, a);
    NameIsListed(c, a, RefIds(c, a), b);
    RefIdsAreFor(c, a, b);
  }

  /** Every node waits for all node groups, all forwarding rules and the mediator, and nothing else waits. */
  lemma NodesWaitFor(c: Config, i: nat, j: nat)
    requires !c.SharedPair() && GroupsTogether(c) && i < |Template(c)| && j < |Template(c)|
    ensures var t := Template(c);
            t[j].name in t[i].dependsOn <==>
              t[i].id.Instance? && (t[j].id.NodeGroup? || t[j].id.Rule? || t[j].id.Mediator?)
  {
    var a, b := Template(c)[i].id, Template(c)[j].id;
    TemplateEntry(c, i);
    TemplateEntry(c, j);
    if a.Instance? {
      DependenciesAreEmitted(c, a.vm);
      NameIsListed(c, a, DependsOnIds(c), b);
      AwaitedAre(c, b);
    }
  }

  lemma AwaitedAre(c: Config, b: Id)
    requires !c.SharedPair() && Wanted(c, b)
    ensures b in DependsOnIds(c) <==> b.NodeGroup? || b.Rule? || b.Mediator?
  {
    DependenciesAreAwaited(c);
    if b.Rule? { RuleIsAwaited(c, b.lb, b.protocol); }
  }

  lemma RuleIsAwaited(c: Config, lb: Balancer, p: Protocol)
    requires c.Pair()
    ensures Rule(lb, p) in DependsOnIds(c)
  {
    var rules := [Rule(ClusterLb, Tcp), Rule(Nas1Lb, Tcp), Rule(Nas2Lb, Tcp),
                  Rule(ClusterLb, Udp), Rule(Nas1Lb, Udp), Rule(Nas2Lb, Udp)];
    var k := (match lb case ClusterLb => 0 case Nas1Lb => 1 case Nas2Lb => 2) + if p.Tcp? then 0 else 3;
    assert rules[k] == Rule(lb, p);
  }

  // ---------------------------------------------------------------------
  // Interfaces and their subnets
  // ---------------------------------------------------------------------

  /** The subnets of the interfaces of a node, in order. */
  function NodeSubnets(c: Config): seq<string>
    requires !c.SharedPair()
  {
    if c.ha.Some? && c.ha.value.nonShared.Some? then
      [c.vnic0, c.ha.value.vnic1, c.ha.value.vnic2, c.ha.value.nonShared.value.vnic3]
      + if c.dataNic.Some? then [c.dataNic.value] else []
    else
      [c.vnic0] + if c.dataNic.Some? then [c.dataNic.value] else []
  }

  /** The subnets of the interfaces of any resource; a forwarding rule counts as one. */
  function SubnetsOf(c: Config, id: Id): seq<string>
    requires !c.SharedPair()
  {
    if id.Instance? then NodeSubnets(c)
    else if id.Rule? then
      [if id.lb.ClusterLb? || c.dataNic.None? then c.vnic0 else c.dataNic.value]
    else if id.Mediator? && TwoNodes(c) then
      var nonShared := c.ha.value.nonShared.value;
      [if nonShared.mediator.subnet == "" then nonShared.vnic3 else nonShared.mediator.subnet]
    else []
  }

  /** Interface number k of a takes address b. */
  predicate Takes(c: Config, a: Id, k: nat, b: Id) {
    match a
    case Instance(vm) =>
      && b.Ip? && b.vm == vm
      && k == if TwoNodes(c) then
                (match b.nic case Nic0 => 0 case Nic1 => 1 case Nic2 => 2 case Nic3 => 3 case Nic4 => 4)
              else if b.nic.Nic0? then 0 else 1
    case Rule(lb, _) => k == 0 && b == LbIp(lb)
    case Mediator => k == 0 && b == MediatorIp
    case _ => false
  }

  lemma InterfacesHaveSubnets(c: Config, a: Id)
    requires !c.SharedPair() && Wanted(c, a)
    ensures |Attachments(c, a)| == |SubnetsOf(c, a)|
    ensures forall k :: 0 <= k < |Attachments(c, a)| ==> Attachments(c, a)[k].subnet == SubnetsOf(c, a)[k]
  {
  }

  lemma NodeTakes(c: Config, vm: Vm, k: nat, b: Id)
    requires !c.SharedPair() && (c.Pair() <==> !vm.Single?) && k < |Attachments(c, Instance(vm))| && Wanted(c, b)
    ensures b in Attachments(c, Instance(vm))[k].addresses <==> Takes(c, Instance(vm), k, b)
  {
    if c.Pair() { PairNodeTakes(c, vm, k, b); } else { SingleNodeTakes(c, k, b); }
  }

  lemma PairNodeTakes(c: Config, vm: Vm, k: nat, b: Id)
    requires c.Pair() && !vm.Single? && k < |Attachments(c, Instance(vm))| && Wanted(c, b)
    ensures b in Attachments(c, Instance(vm))[k].addresses <==> Takes(c, Instance(vm), k, b)
  {
  }

  lemma SingleNodeTakes(c: Config, k: nat, b: Id)
    requires c.ha.None? && k < |Attachments(c, Instance(Single))| && Wanted(c, b)
    ensures b in Attachments(c, Instance(Single))[k].addresses <==> Takes(c, Instance(Single), k, b)
  {
  }

  /** Each interface has its own subnet and takes exactly its own addresses. */
  lemma InterfacesAreExactly(c: Config, i: nat)
    requires !c.SharedPair() && i < |Template(c)|
    ensures var t := Template(c);
            && |t[i].nics| == |SubnetsOf(c, t[i].id)|
            && forall k :: 0 <= k < |t[i].nics| ==>
                 && t[i].nics[k].subnet == SubnetsOf(c, t[i].id)[k]
                 && forall j :: 0 <= j < |t| ==>
                      (t[j].name in t[i].nics[k].addresses <==> Takes(c, t[i].id, k, t[j].id))
  {
    var t := Template(c);
    var a := t[i].id;
    TemplateEntry(c, i);
    InterfacesHaveSubnets(c, a);
    forall k, j | 0 <= k < |t[i].nics| && 0 <= j < |t|
      ensures t[j].name in t[i].nics[k].addresses <==> Takes(c, a, k, t[j].id)
    {
      InterfaceTakes(c, i, k, j);
    }
  }

  lemma InterfaceTakes(c: Config, i: nat, k: nat, j: nat)
    requires !c.SharedPair() && i < |Template(c)| && j < |Template(c)| && k < |Template(c)[i].nics|
    ensures var t := Template(c); t[j].name in t[i].nics[k].addresses <==> Takes(c, t[i].id, k, t[j].id)
  {
    var a, b := Template(c)[i].id, Template(c)[j].id;
    TemplateEntry(c, i);
    TemplateEntry(c, j);
    AttachedAddressesAreEmitted(c, a, k);
    NameIsListed(c, a, Attachments(c, a)[k].addresses, b);
    if a.Instance? { NodeTakes(c, a.vm, k, b); }
  }

  /** The subnet an address belongs to. */
  function SubnetFor(c: Config, id: Id): Option<string>
    requires !c.SharedPair()
  {
    match id
    case Ip(_, nic, _) =>
      var k := match nic case Nic0 => 0 case Nic1 => 1 case Nic2 => 2 case Nic3 => 3 case Nic4 => 4;
      if k < |NodeSubnets(c)| then Some(NodeSubnets(c)[k]) else None
    case LbIp(lb) => Some(if lb.ClusterLb? || c.dataNic.None? then c.vnic0 else c.dataNic.value)
    case MediatorIp =>
      if !TwoNodes(c) then None
      else
        var nonShared := c.ha.value.nonShared.value;
        Some(if nonShared.mediator.subnet == "" then nonShared.vnic3 else nonShared.mediator.subnet)
    case _ => None
  }

  lemma OwnSlotIsInItsSubnet(c: Config, id: Id)
    requires !c.SharedPair() && id in AddressIds(c)
    ensures SlotSubnet(c, OwnSlot(id)) == SubnetFor(c, id)
  {
    if c.Pair() {
      assert id.MediatorIp? ==> c.CreatesMediator();
      assert id.Ip? && id.nic.Nic4? ==> c.dataNic.Some?;
    }
  }

  /** Under a deployment name without misleading needles every address is in the subnet it belongs to. */
  lemma AddressesAreInTheirSubnets(c: Config, i: nat)
    requires !c.SharedPair() && i < |Template(c)| && !Misleads(c.deployment, c.Pair(), LastNic(c))
    ensures Template(c)[i].subnet == SubnetFor(c, Template(c)[i].id)
  {
    var id := Template(c)[i].id;
    TemplateEntry(c, i);
    if id.Ip? || id.MediatorIp? {
      AddressIsListed(c, id);
      DispatchIsRightIff(c);
      OwnSlotIsInItsSubnet(c, id);
    } else {
      OtherSubnets(c, id);
    }
  }

  lemma OtherSubnets(c: Config, id: Id)
    requires !c.SharedPair() && !id.Ip? && !id.MediatorIp?
    ensures ResourceFor(c, id).subnet == SubnetFor(c, id)
  {
  }

  lemma AddressIsListed(c: Config, id: Id)
    requires !c.SharedPair() && Emits(c, id) && (id.Ip? || id.MediatorIp?)
    ensures id in AddressIds(c)
  {
  }

  // ---------------------------------------------------------------------
  // When a template is returned
  // ---------------------------------------------------------------------

  /** The region of a zone is what stands before its last dash; a zone without a dash has none. */
  lemma {:induction false} RegionIsBeforeLastDash(region: string, last: string)
    requires '-' !in last
    ensures RegionOf(region + "-" + last) == region && RegionOf(last) == ""
  {
    var zone := region + "-" + last;
    if last == "" {
      assert zone[|zone| - 1] == '-' && zone[..|zone| - 1] == region;
    } else {
      var init := last[..|last| - 1];
      RegionIsBeforeLastDash(region, init);
      assert zone[|zone| - 1] == last[|last| - 1];
      assert zone[..|zone| - 1] == region + "-" + init;
    }
  }

  /**
   A template is returned exactly for single nodes and pairs with separate disks
   with every machine in the region, no second node group without a template, and
   no subnet read unset.
   */
  lemma ReturnsExactlyWhen(c: Config)
    ensures Returns(c) <==>
              && (c.ha.Some? ==> c.ha.value.nonShared.Some?)
              && RegionOf(c.zone1) == c.region
              && (TwoNodes(c) ==> forall id :: Machine(c, id) ==> RegionOf(ZoneOf(c, id)) == c.region)
              && (TwoNodes(c) && c.soleTenant.Some? && c.soleTenant.value.vm2Group == "" ==>
                    c.soleTenant.value.vm1Group == "")
              && (TwoNodes(c) && Contains(c.deployment, "mediator") ==> OwnMediator(c))
  {
    if TwoNodes(c) {
      assert Machine(c, Instance(First)) && Machine(c, Instance(Second));
      assert OwnMediator(c) ==> Machine(c, Mediator);
    }
  }

  // ---------------------------------------------------------------------
  // How the names are spelled
  // ---------------------------------------------------------------------

  lemma JoinTwo(a: string, b: string)
    ensures Join([a, b]) == a + "-" + b
  {
    assert [a, b][1..] == [b];
  }

  lemma JoinThree(a: string, b: string, c: string)
    ensures Join([a, b, c]) == a + "-" + b + "-" + c
  {
    assert [a, b, c][1..] == [b, c];
    JoinTwo(b, c);
    assert a + "-" + (b + "-" + c) == a + "-" + b + "-" + c;
  }

  lemma JoinFour(a: string, b: string, c: string, d: string)
    ensures Join([a, b, c, d]) == a + "-" + b + "-" + c + "-" + d
  {
    assert [a, b, c, d][1..] == [b, c, d];
    JoinThree(b, c, d);
    assert a + "-" + (b + "-" + c + "-" + d) == a + "-" + b + "-" + c + "-" + d;
  }

  lemma NodeNamesAreSpelled(d: string, vm: Vm, use: DiskUse)
    ensures NameOf(d, Instance(vm)) == d + "-" + VmText(vm)
    ensures NameOf(d, NodeGroup(vm)) == d + "-" + (VmText(vm) + "-" + "node" + "-" + "group")
    ensures NameOf(d, Disk(vm, use)) == d + "-" + (VmText(vm) + "-" + "disk" + "-" + DiskText(use))
  {
    JoinThree(VmText(vm), "node", "group");
    JoinThree(VmText(vm), "disk", DiskText(use));
  }

  lemma AddressNamesAreSpelled(d: string, vm: Vm, nic: NicId, iface: Iface)
    ensures NameOf(d, Ip(vm, nic, iface))
            == d + "-" + (VmText(vm) + "-" + "ip" + "-" + NicText(nic) + "-" + IfaceText(iface))
  {
    JoinFour(VmText(vm), "ip", NicText(nic), IfaceText(iface));
  }

  lemma CommonNamesAreSpelled(d: string, boot: bool)
    ensures NameOf(d, NodeTemplate) == d + "-" + ("node" + "-" + "template")
    ensures NameOf(d, Policy) == d + "-" + ("vm" + "-" + "placementpolicy1" + "-" + "spread")
    ensures NameOf(d, Mediator) == d + "-" + "mediator"
    ensures NameOf(d, MediatorIp) == d + "-" + ("mediator" + "-" + "ip" + "-" + "nic0")
    ensures NameOf(d, MediatorDisk(boot)) ==
            d + "-" + ("mediator" + "-" + "disk" + "-" + if boot then "boot" else "data")
  {
    JoinTwo("node", "template");
    JoinThree("vm", "placementpolicy1", "spread");
    JoinThree("mediator", "ip", "nic0");
    JoinThree("mediator", "disk", if boot then "boot" else "data");
  }

  lemma GroupNamesAreSpelled(d: string)
    ensures NameOf(d, Group(First)) == d + "-" + "instancegroup1"
    ensures NameOf(d, Group(Second)) == d + "-" + "instancegroup2"
    ensures NameOf(d, AddInstances(First))
            == d + "-" + ("instancegroup1" + "-" + "add") + "-" + d + "-" + "vm1"
    ensures NameOf(d, AddInstances(Second))
            == d + "-" + ("instancegroup2" + "-" + "add") + "-" + d + "-" + "vm2"
  {
    JoinTwo("instancegroup1", "add");
    JoinTwo("instancegroup2", "add");
  }

  /** What the names of a balancer's resources have in common. */
  function BalancerName(lb: Balancer): string {
    match lb
    case ClusterLb => "ilb1" + "-" + "clustermgmt"
    case Nas1Lb => "ilb2" + "-" + "nas" + "-" + "vm1"
    case Nas2Lb => "ilb3" + "-" + "nas" + "-" + "vm2"
  }

  lemma JoinedAfter(a: seq<string>, b: seq<string>)
    requires a != [] && b != []
    ensures Join(a + b) == Join(a) + "-" + Join(b)
    decreases |a|
  {
    if |a| == 1 {
      assert (a + b)[1..] == b;
    } else {
      assert (a + b)[1..] == a[1..] + b;
      JoinedAfter(a[1..], b);
      assert a[0] + "-" + (Join(a[1..]) + "-" + Join(b)) == a[0] + "-" + Join(a[1..]) + "-" + Join(b);
    }
  }

  lemma BalancerIsSpelled(lb: Balancer)
    ensures Join(LbParts(lb)) == BalancerName(lb)
  {
    match lb {
      case ClusterLb => JoinTwo("ilb1", "clustermgmt");
      case Nas1Lb => JoinThree("ilb2", "nas", "vm1");
      case Nas2Lb => JoinThree("ilb3", "nas", "vm2");
    }
  }

  lemma BalancerPartsJoin(lb: Balancer, rest: seq<string>)
    requires rest != []
    ensures Join(LbParts(lb) + rest) == BalancerName(lb) + "-" + Join(rest)
  {
    BalancerIsSpelled(lb);
    JoinedAfter(LbParts(lb), rest);
  }

  lemma BalancerNamesAreSpelled(d: string, lb: Balancer)
    ensures NameOf(d, LbIp(lb)) == d + "-" + (BalancerName(lb) + "-" + "ip")
    ensures NameOf(d, HealthCheck(lb)) == d + "-" + (BalancerName(lb) + "-" + "healthcheck")
  {
    BalancerPartsJoin(lb, ["ip"]);
    BalancerPartsJoin(lb, ["healthcheck"]);
  }

  lemma BackendNamesAreSpelled(d: string, lb: Balancer, p: Protocol)
    ensures NameOf(d, Backend(lb, p))
            == d + "-" + (BalancerName(lb) + "-" + ("backendservice" + "-" + if p.Tcp? then "tcp" else "udp"))
  {
    BalancerPartsJoin(lb, ["backendservice", ProtocolText(p)]);
    JoinTwo("backendservice", ProtocolText(p));
  }

  lemma RuleNamesAreSpelled(d: string, lb: Balancer, p: Protocol)
    ensures NameOf(d, Rule(lb, p))
            == d + "-" + (BalancerName(lb) + "-" + ("forwardingrule" + "-" + if p.Tcp? then "tcp" else "udp"))
  {
    BalancerPartsJoin(lb, ["forwardingrule", ProtocolText(p)]);
    JoinTwo("forwardingrule", ProtocolText(p));
  }

  lemma InterfaceTextsAreSpelled()
    ensures VmText(Single) == "vm" && VmText(First) == "vm1" && VmText(Second) == "vm2"
    ensures NicText(Nic0) == "nic0" && NicText(Nic1) == "nic1" && NicText(Nic2) == "nic2" && NicText(Nic3) == "nic3"
    ensures NicText(Nic4) == "nic4"
    ensures IfaceText(NodeMgmt) == "nodemgmt" && IfaceText(ClusterMgmt) == "clustermgmt"
    ensures IfaceText(InterCluster) == "intercluster" && IfaceText(Iscsi) == "iscsi" && IfaceText(Nas) == "nas"
    ensures IfaceText(Cluster) == "cluster" && IfaceText(Interconnect) == "interconnect" && IfaceText(Rsm) == "rsm"
  {
  }

  lemma DiskTextsAreSpelled()
    ensures DiskText(Boot) == "boot" && DiskText(Nvram) == "nvram" && DiskText(Core) == "core"
    ensures DiskText(Root) == "root" && DiskText(RootCopy) == "rootcopy"
    ensures DiskText(Data1) == "data1" && DiskText(Data2) == "data2" && DiskText(Data3) == "data3"
    ensures DiskText(Data4) == "data4" && DiskText(Data1Copy) == "data1copy" && DiskText(Data2Copy) == "data2copy"
    ensures DiskText(Data3Copy) == "data3copy" && DiskText(Data4Copy) == "data4copy"
  {
  }
}
