/** The emitted template is well formed, for every deployment name and every option combination. */
module DeploymentTheorems {
  import opened Common
  import opened Names
  import opened ResourceNames
  import opened Deployment

  /** A supplied node group for the first node comes with one for the second. */
  predicate GroupsTogether(c: Config) {
    c.CreatesGroup2() ==> c.CreatesTemplate()
  }

  // ---------------------------------------------------------------------
  // Distinct names
  // ---------------------------------------------------------------------

  ghost predicate NoDup(ids: seq<Id>) {
    forall i, j :: 0 <= i < j < |ids| ==> ids[i] != ids[j]
  }

  /** The segment an identifier belongs to. */
  function Stage(id: Id): nat {
    match id
    case NodeTemplate => 0
    case NodeGroup(vm) => if vm.Second? then 10 else 0
    case Ip(_, _, _) => 1
    case MediatorIp => 1
    case LbIp(_) => 2
    case Group(_) => 2
    case HealthCheck(_) => 2
    case Backend(_, _) => 3
    case Rule(_, _) => 4
    case Disk(vm, use) => if vm.Second? == use.RootCopy? then 5 else 6
    case Policy => 7
    case MediatorDisk(_) => 8
    case Mediator => 8
    case Instance(vm) => if vm.Second? then 10 else 9
    case AddInstances(_) => 10
  }

  ghost predicate SegmentOk(ids: seq<Id>, stage: nat) {
    && NoDup(ids)
    && forall i :: 0 <= i < |ids| ==> Stage(ids[i]) == stage && Named(ids[i])
  }

  /** The place of an address in the two-node list when a mediator is created. */
  function AddressPlace(id: Id): nat
    requires id.Ip? || id.MediatorIp?
  {
    if id.MediatorIp? then 10
    else
      match id.iface
      case NodeMgmt => if id.vm.First? then 0 else 4
      case Iscsi => if id.vm.First? then 1 else 5
      case Cluster => if id.vm.First? then 2 else 6
      case Interconnect => if id.vm.First? then 3 else 7
      case Rsm => if id.vm.First? then 8 else 9
      case InterCluster => if id.vm.First? then 11 else 12
      case _ => 13
  }

  lemma PairAddressesArePlaced(c: Config)
    requires c.Pair()
    ensures forall i :: 0 <= i < |AddressIds(c)| ==>
              var id := AddressIds(c)[i];
              (id.Ip? || id.MediatorIp?) && AddressPlace(id) == if i < 10 || c.CreatesMediator() then i else i + 1
  {
  }

  lemma PairAddressesOk(c: Config)
    requires c.Pair()
    ensures SegmentOk(AddressIds(c), 1)
  {
    PairAddressesArePlaced(c);
    PlacesDistinguish(c, AddressIds(c));
  }

  lemma PlacesDistinguish(c: Config, ids: seq<Id>)
    requires forall i :: 0 <= i < |ids| ==>
               && (ids[i].Ip? || ids[i].MediatorIp?)
               && AddressPlace(ids[i]) == if i < 10 || c.CreatesMediator() then i else i + 1
    ensures SegmentOk(ids, 1)
  {
  }

  lemma SingleAddressesOk(c: Config)
    requires !c.Pair() && !c.SharedPair()
    ensures SegmentOk(AddressIds(c), 1)
  {
  }

  lemma BalancingOk()
    ensures SegmentOk(BALANCING, 2)
  {
  }

  lemma BackendsOk()
    ensures SegmentOk(BACKENDS, 3)
  {
  }

  lemma RulesOk()
    ensures SegmentOk(RULES, 4)
  {
  }

  ghost predicate OnlyDisks(ids: seq<Id>) {
    forall id :: id in ids ==> id.Disk?
  }

  /** The place of a disk in its node's list; mirror copies take the partner's. */
  function DiskPlace(use: DiskUse): nat {
    match use
    case Boot => 0
    case Nvram => 1
    case Core => 2
    case Root => 3
    case RootCopy => 4
    case Data1 => 5
    case Data1Copy => 5
    case Data2 => 6
    case Data2Copy => 6
    case Data3 => 7
    case Data3Copy => 7
    case Data4 => 8
    case Data4Copy => 8
  }

  /** Every disk stands at its own place; a single node has no mirror copy at place 4. */
  ghost predicate Placed(ids: seq<Id>, stage: nat) {
    forall i :: 0 <= i < |ids| ==> PlacedAt(ids[i], stage, if |ids| == 9 || i < 4 then i else i + 1)
  }

  predicate PlacedAt(id: Id, stage: nat, place: nat) {
    id.Disk? && Stage(id) == stage && DiskPlace(id.use) == place
  }

  lemma PlacedIsOk(ids: seq<Id>, stage: nat)
    requires Placed(ids, stage)
    ensures SegmentOk(ids, stage) && OnlyDisks(ids)
  {
  }

  lemma SingleDisksArePlaced()
    ensures Placed(DiskIds(Single), 5)
  {
  }

  lemma FirstDisksArePlaced()
    ensures Placed(DiskIds(First), 5)
  {
  }

  lemma SecondDisksArePlaced()
    ensures Placed(DiskIds(Second), 6)
  {
  }

  lemma DisksOk(vm: Vm)
    ensures SegmentOk(DiskIds(vm), if vm.Second? then 6 else 5) && OnlyDisks(DiskIds(vm))
  {
    match vm {
      case Single => SingleDisksArePlaced();
      case First => FirstDisksArePlaced();
      case Second => SecondDisksArePlaced();
    }
    PlacedIsOk(DiskIds(vm), if vm.Second? then 6 else 5);
  }

  lemma SegmentsOk(c: Config, k: nat)
    requires !c.SharedPair()
    ensures SegmentOk(Segment(c, k), k)
  {
    match k {
      case 1 => if c.Pair() { PairAddressesOk(c); } else { SingleAddressesOk(c); }
      case 2 => BalancingOk();
      case 3 => BackendsOk();
      case 4 => RulesOk();
      case 5 => DisksOk(if c.Pair() then First else Single);
      case 6 => DisksOk(Second);
      case _ =>
    }
  }

  /** Emitted resources, found by their own segment. */
  ghost predicate Emits(c: Config, id: Id)
    requires !c.SharedPair()
  {
    id in Segment(c, Stage(id))
  }

  lemma NoDupConcat(a: seq<Id>, b: seq<Id>)
    requires NoDup(a) && NoDup(b) && forall id :: id in a ==> id !in b
    ensures NoDup(a + b)
  {
    forall i, j | 0 <= i < j < |a + b| ensures (a + b)[i] != (a + b)[j] {
      if i < |a| <= j { assert a[i] in a; }
    }
  }

  lemma SegmentMembers(ids: seq<Id>, stage: nat, id: Id)
    requires SegmentOk(ids, stage) && id in ids
    ensures Stage(id) == stage && Named(id)
  {
  }

  lemma {:induction false} OrderMembers(c: Config, k: nat, id: Id)
    requires !c.SharedPair()
    ensures id in OrderUpTo(c, k) <==> Stage(id) < k && Emits(c, id)
    ensures id in OrderUpTo(c, k) ==> Named(id)
    decreases k
  {
    if k > 0 {
      OrderMembers(c, k - 1, id);
      SegmentsOk(c, k - 1);
      if id in Segment(c, k - 1) { SegmentMembers(Segment(c, k - 1), k - 1, id); }
    }
  }

  lemma {:induction false} OrderHasNoDup(c: Config, k: nat)
    requires !c.SharedPair()
    ensures NoDup(OrderUpTo(c, k))
    decreases k
  {
    if k > 0 {
      var before, last := OrderUpTo(c, k - 1), Segment(c, k - 1);
      OrderHasNoDup(c, k - 1);
      SegmentsOk(c, k - 1);
      forall id | id in before ensures id !in last {
        OrderMembers(c, k - 1, id);
        if id in last { SegmentMembers(last, k - 1, id); }
      }
      NoDupConcat(before, last);
    }
  }

  lemma OrderOk(c: Config, k: nat)
    requires !c.SharedPair()
    ensures NoDup(OrderUpTo(c, k))
    ensures forall id :: id in OrderUpTo(c, k) <==> Stage(id) < k && Emits(c, id)
    ensures forall id :: id in OrderUpTo(c, k) ==> Named(id)
  {
    OrderHasNoDup(c, k);
    forall id ensures id in OrderUpTo(c, k) <==> Stage(id) < k && Emits(c, id)
              ensures id in OrderUpTo(c, k) ==> Named(id)
    {
      OrderMembers(c, k, id);
    }
  }

  lemma StageIsSmall(id: Id)
    ensures Stage(id) < SEGMENTS
  {
  }

  /** Membership in the order, by the segment alone. */
  lemma EmitsIsOrder(c: Config, id: Id)
    requires !c.SharedPair()
    ensures id in Order(c) <==> Emits(c, id)
  {
    OrderOk(c, SEGMENTS);
    StageIsSmall(id);
  }

  /** No two resources of a template have the same name. */
  lemma ResourceNamesAreDistinct(c: Config)
    requires !c.SharedPair()
    ensures var t := Template(c); forall i, j :: 0 <= i < j < |t| ==> t[i].name != t[j].name
  {
    OrderOk(c, SEGMENTS);
    var order := Order(c);
    forall i, j | 0 <= i < j < |order|
      ensures NameOf(c.deployment, order[i]) != NameOf(c.deployment, order[j])
    {
      assert order[i] in order && order[j] in order;
      if NameOf(c.deployment, order[i]) == NameOf(c.deployment, order[j]) {
        NamesAreDistinct(c.deployment, order[i], order[j]);
      }
    }
  }

  // ---------------------------------------------------------------------
  // Closed and acyclic references
  // ---------------------------------------------------------------------

  /** Resources refer only to resources of a lower rank. */
  function Rank(id: Id): nat {
    match id
    case NodeGroup(_) => 1
    case Backend(_, _) => 1
    case Mediator => 1
    case Rule(_, _) => 2
    case Instance(_) => 3
    case AddInstances(_) => 4
    case _ => 0
  }

  ghost predicate Downward(c: Config, id: Id, refs: seq<Id>)
    requires !c.SharedPair()
  {
    forall r :: r in refs ==> Emits(c, r) && Rank(r) < Rank(id)
  }

  lemma PolicyIsEmitted(c: Config, id: Id)
    requires !c.SharedPair() && Rank(id) > 0
    ensures Downward(c, id, PolicyRefs(c, id))
  {
  }

  lemma NodeIsOfBranch(c: Config, vm: Vm)
    requires !c.SharedPair() && Emits(c, Instance(vm))
    ensures c.Pair() <==> !vm.Single?
    ensures c.ha.Some? ==> c.Pair()
  {
  }

  lemma DisksAreEmitted(c: Config, vm: Vm)
    requires !c.SharedPair() && (c.Pair() <==> !vm.Single?)
    ensures Downward(c, Instance(vm), DiskIds(vm))
  {
    DisksOk(vm);
    assert Segment(c, if vm.Second? then 6 else 5) == DiskIds(vm);
  }

  predicate PairAddress(c: Config, r: Id) {
    && r.Ip? && !r.vm.Single?
    && match r.iface
       case NodeMgmt => r.nic.Nic0?
       case Cluster => r.nic.Nic1?
       case Interconnect => r.nic.Nic2?
       case Rsm => r.nic.Nic3?
       case Iscsi => r.nic == c.DataNicId()
       case InterCluster => r.nic.Nic4? && c.dataNic.Some?
       case _ => false
  }

  lemma PairAddressIsEmitted(c: Config, r: Id)
    requires c.Pair() && PairAddress(c, r)
    ensures Emits(c, r) && Rank(r) == 0
  {
  }

  /** An address a node may be told about. */
  predicate ToldAddress(c: Config, r: Id)
    requires c.Pair()
  {
    r == LbIp(ClusterLb) || PairAddress(c, r) || (r == MediatorIp && c.CreatesMediator())
  }

  lemma CustomDataRefsAreAddresses(c: Config, vm: Vm)
    requires c.Pair() && !vm.Single?
    ensures forall r :: r in CustomDataRefs(c, vm) ==> ToldAddress(c, r)
  {
  }

  lemma ToldAddressIsEmitted(c: Config, r: Id)
    requires c.Pair() && ToldAddress(c, r)
    ensures Emits(c, r) && Rank(r) == 0
  {
    if r == LbIp(ClusterLb) {
      assert BALANCING[0] == r;
    } else if r == MediatorIp {
      assert AddressIds(c)[10] == r;
    } else {
      PairAddressIsEmitted(c, r);
    }
  }

  lemma ToldAddressesAreEmitted(c: Config, vm: Vm, refs: seq<Id>)
    requires c.Pair() && forall r :: r in refs ==> ToldAddress(c, r)
    ensures Downward(c, Instance(vm), refs)
  {
    forall r | r in refs ensures Emits(c, r) && Rank(r) < 3 { ToldAddressIsEmitted(c, r); }
  }

  lemma CustomDataIsEmitted(c: Config, vm: Vm)
    requires c.Pair() && !vm.Single?
    ensures Downward(c, Instance(vm), CustomDataRefs(c, vm))
  {
    CustomDataRefsAreAddresses(c, vm);
    ToldAddressesAreEmitted(c, vm, CustomDataRefs(c, vm));
  }

  lemma NodeRefsAreEmitted(c: Config, vm: Vm)
    requires !c.SharedPair() && Emits(c, Instance(vm))
    ensures Downward(c, Instance(vm), RefIds(c, Instance(vm)))
  {
    NodeIsOfBranch(c, vm);
    PolicyIsEmitted(c, Instance(vm));
    DisksAreEmitted(c, vm);
    if c.Pair() { CustomDataIsEmitted(c, vm); }
  }

  lemma BackendRefsAreEmitted(c: Config, lb: Balancer, p: Protocol)
    requires c.Pair()
    ensures Downward(c, Backend(lb, p), RefIds(c, Backend(lb, p)))
  {
    assert BALANCING[3] == Group(First) && BALANCING[4] == Group(Second);
    assert HealthCheck(lb) in BALANCING;
  }

  lemma RuleRefsAreEmitted(c: Config, lb: Balancer, p: Protocol)
    requires c.Pair()
    ensures Downward(c, Rule(lb, p), RefIds(c, Rule(lb, p)))
  {
    assert Backend(lb, p) in BACKENDS;
  }

  lemma BalancingNeedsPair(c: Config, id: Id)
    requires !c.SharedPair() && Emits(c, id) && (id.Backend? || id.Rule?)
    ensures c.Pair()
  {
  }

  lemma OtherRefsAreEmitted(c: Config, id: Id)
    requires !c.SharedPair() && GroupsTogether(c) && Emits(c, id)
    requires !id.Instance? && !id.Mediator? && !id.Backend? && !id.Rule?
    ensures Downward(c, id, RefIds(c, id))
  {
    match id {
      case NodeGroup(vm) => TemplateComesWithGroup(c, vm);
      case AddInstances(vm) => AddedInstanceIsEmitted(c, vm);
      case _ =>
    }
  }

  lemma TemplateComesWithGroup(c: Config, vm: Vm)
    requires !c.SharedPair() && GroupsTogether(c) && Emits(c, NodeGroup(vm))
    ensures Emits(c, NodeTemplate)
  {
    assert TenancyIds(c) != [] ==> TenancyIds(c)[0] == NodeTemplate;
  }

  lemma AddedInstanceIsEmitted(c: Config, vm: Vm)
    requires !c.SharedPair() && Emits(c, AddInstances(vm))
    ensures Emits(c, Instance(vm))
  {
  }

  lemma RefsAreEmitted(c: Config, id: Id)
    requires !c.SharedPair() && GroupsTogether(c) && Emits(c, id)
    ensures Downward(c, id, RefIds(c, id))
  {
    if id.Backend? || id.Rule? { BalancingNeedsPair(c, id); }
    match id {
      case Instance(vm) => NodeRefsAreEmitted(c, vm);
      case Mediator => PolicyIsEmitted(c, id);
      case Backend(lb, p) => BackendRefsAreEmitted(c, lb, p);
      case Rule(lb, p) => RuleRefsAreEmitted(c, lb, p);
      case _ => OtherRefsAreEmitted(c, id);
    }
  }

  /** The addresses that the interfaces of a single node take. */
  predicate SingleAddress(c: Config, r: Id) {
    && r.Ip? && r.vm.Single?
    && match r.iface
       case NodeMgmt => r.nic.Nic0?
       case ClusterMgmt => r.nic.Nic0?
       case Iscsi => r.nic == c.DataNicId()
       case Nas => r.nic == c.DataNicId()
       case InterCluster => r.nic.Nic1? && c.dataNic.Some?
       case _ => false
  }

  lemma SingleAddressIsEmitted(c: Config, r: Id)
    requires c.ha.None? && SingleAddress(c, r)
    ensures Emits(c, r) && Rank(r) == 0
  {
  }

  lemma SingleAttachments(c: Config, k: nat)
    requires c.ha.None? && k < |Attachments(c, Instance(Single))|
    ensures forall r :: r in Attachments(c, Instance(Single))[k].addresses ==> SingleAddress(c, r)
  {
  }

  lemma PairAttachments(c: Config, vm: Vm, k: nat)
    requires c.Pair() && !vm.Single? && k < |Attachments(c, Instance(vm))|
    ensures forall r :: r in Attachments(c, Instance(vm))[k].addresses ==> PairAddress(c, r)
  {
  }

  lemma NodeAddressesAreEmitted(c: Config, vm: Vm, k: nat)
    requires !c.SharedPair() && (c.Pair() <==> !vm.Single?) && k < |Attachments(c, Instance(vm))|
    ensures Downward(c, Instance(vm), Attachments(c, Instance(vm))[k].addresses)
  {
    if c.Pair() { PairAttachments(c, vm, k); } else { SingleAttachments(c, k); }
    forall r | r in Attachments(c, Instance(vm))[k].addresses ensures Emits(c, r) && Rank(r) == 0 {
      if c.Pair() { PairAddressIsEmitted(c, r); } else { SingleAddressIsEmitted(c, r); }
    }
  }

  lemma AttachedAddressesAreEmitted(c: Config, id: Id, k: nat)
    requires !c.SharedPair() && Emits(c, id) && k < |Attachments(c, id)|
    ensures Downward(c, id, Attachments(c, id)[k].addresses)
  {
    if id.Instance? {
      NodeIsOfBranch(c, id.vm);
      NodeAddressesAreEmitted(c, id.vm, k);
    }
  }

  predicate Awaited(c: Config, r: Id) {
    || (r == NodeGroup(c.MainVm()) && c.CreatesTemplate())
    || (r.Rule? && c.Pair())
    || (r == Mediator && c.CreatesMediator())
    || (r == NodeGroup(Second) && c.CreatesGroup2())
  }

  lemma DependenciesAreAwaited(c: Config)
    ensures forall r :: r in DependsOnIds(c) ==> Awaited(c, r)
  {
  }

  lemma AwaitedIsEmitted(c: Config, r: Id)
    requires !c.SharedPair() && GroupsTogether(c) && Awaited(c, r)
    ensures Emits(c, r) && Rank(r) < 3
  {
    if r.Rule? {
      var first := if r.lb.ClusterLb? then 0 else if r.lb.Nas1Lb? then 2 else 4;
      assert RULES[first + if r.protocol.Tcp? then 0 else 1] == r;
    }
  }

  lemma AwaitedIsDownward(c: Config, id: Id, ids: seq<Id>)
    requires !c.SharedPair() && GroupsTogether(c) && Rank(id) == 3
    requires forall r :: r in ids ==> Awaited(c, r)
    ensures Downward(c, id, ids)
  {
    forall r | r in ids ensures Emits(c, r) && Rank(r) < 3 {
      AwaitedIsEmitted(c, r);
    }
  }

  lemma DependenciesAreEmitted(c: Config, vm: Vm)
    requires !c.SharedPair() && GroupsTogether(c) && Emits(c, Instance(vm))
    ensures Downward(c, Instance(vm), DependsOnIds(c))
  {
    DependenciesAreAwaited(c);
    AwaitedIsDownward(c, Instance(vm), DependsOnIds(c));
  }

  ghost predicate Mentions(r: Resource, n: string) {
    || n in r.refs || n in r.dependsOn
    || exists k :: 0 <= k < |r.nics| && n in r.nics[k].addresses
  }

  ghost predicate EmittedBelow(t: seq<Resource>, n: string, rank: nat) {
    exists j :: 0 <= j < |t| && t[j].name == n && Rank(t[j].id) < rank
  }

  lemma NameIsEmittedBelow(c: Config, id: Id, ids: seq<Id>, n: string)
    requires !c.SharedPair() && Downward(c, id, ids) && n in NamesOf(c.deployment, ids)
    ensures EmittedBelow(Template(c), n, Rank(id))
  {
    var k :| 0 <= k < |ids| && NamesOf(c.deployment, ids)[k] == n;
    var r := ids[k];
    EmitsIsOrder(c, r);
    var order := Order(c);
    var j :| 0 <= j < |order| && order[j] == r;
    assert Template(c)[j] == ResourceFor(c, r);
  }

  /**
   Every $(ref...), interface address and dependsOn entry names a resource of
   the template, and one of lower rank: references are closed and acyclic.
   The shared dependency list counts with everything appended to it after the
   first node was emitted.
   */
  lemma ReferencesAreClosedAndAcyclic(c: Config)
    requires !c.SharedPair() && GroupsTogether(c)
    ensures var t := Template(c);
            forall i, n :: 0 <= i < |t| && Mentions(t[i], n) ==> EmittedBelow(t, n, Rank(t[i].id))
  {
    var t := Template(c);
    forall i, n | 0 <= i < |t| && Mentions(t[i], n) ensures EmittedBelow(t, n, Rank(t[i].id)) {
      var id := Order(c)[i];
      assert id in Order(c) && t[i] == ResourceFor(c, id);
      EmitsIsOrder(c, id);
      if n in t[i].refs {
        RefsAreEmitted(c, id);
        NameIsEmittedBelow(c, id, RefIds(c, id), n);
      } else if n in t[i].dependsOn {
        DependenciesAreEmitted(c, id.vm);
        NameIsEmittedBelow(c, id, DependsOnIds(c), n);
      } else {
        var k :| 0 <= k < |t[i].nics| && n in t[i].nics[k].addresses;
        AttachedAddressesAreEmitted(c, id, k);
        NameIsEmittedBelow(c, id, Attachments(c, id)[k].addresses, n);
      }
    }
  }

  // ---------------------------------------------------------------------
  // Subnets
  // ---------------------------------------------------------------------

  function NicNo(nic: NicId): nat {
    match nic
    case Nic0 => 0
    case Nic1 => 1
    case Nic2 => 2
    case Nic3 => 3
    case Nic4 => 4
  }

  lemma IfaceLetters(iface: Iface)
    ensures forall c :: c in IfaceText(iface) ==> 'a' <= c <= 'z'
    ensures if iface.NodeMgmt? then 'a' !in IfaceText(iface) else 'd' !in IfaceText(iface)
  {
  }

  lemma NeedsLetter(s: string, needle: string, k: nat)
    requires k < |needle| && needle[k] !in s
    ensures !Contains(s, needle)
  {
    if Contains(s, needle) { NeedleLettersOccur(s, needle, needle[k]); }
  }

  lemma IfaceHasNoNeedle(iface: Iface, nic: NicId)
    ensures !Contains(IfaceText(iface), NicText(nic)) && !Contains(IfaceText(iface), "mediator")
  {
    IfaceLetters(iface);
    NeedsLetter(IfaceText(iface), NicText(nic), 3);
    NeedsLetter(IfaceText(iface), "mediator", if iface.NodeMgmt? then 4 else 2);
  }

  lemma NicTextsDiffer(a: NicId, b: NicId)
    ensures Contains(NicText(a), NicText(b)) <==> a == b
    ensures !Contains(NicText(a), "mediator")
  {
    var s, k := NicText(a), |NicText(b)|;
    TextsReadBack(Single, a, Nas, Boot);
    TextsReadBack(Single, b, Nas, Boot);
    assert s[0..k] == s;
    assert OccursAt(s, NicText(b), 0) <==> a == b;
  }

  lemma NeedlesInAddressParts(id: Id, nic: NicId)
    requires id.Ip?
    ensures SomePartContains(Parts(id), NicText(nic)) <==> nic == id.nic
    ensures !SomePartContains(Parts(id), "mediator")
  {
    IfaceHasNoNeedle(id.iface, nic);
    NicTextsDiffer(id.nic, nic);
    assert Parts(id)[2] == NicText(id.nic) && Parts(id)[3] == IfaceText(id.iface);
  }

  /** Where a needle occurs in an address name: in the deployment name, or in the part meant for it. */
  lemma NeedlesInAddressName(deployment: string, id: Id, nic: NicId)
    requires id.Ip?
    ensures Contains(NameOf(deployment, id), NicText(nic)) <==> Contains(deployment, NicText(nic)) || nic == id.nic
    ensures Contains(NameOf(deployment, id), "mediator") <==> Contains(deployment, "mediator")
  {
    var parts := Parts(id);
    NeedlesInAddressParts(id, nic);
    NeedleStaysInOnePart(deployment, Join(parts), NicText(nic));
    NeedleStaysInOnePart(deployment, Join(parts), "mediator");
    NeedleInJoin(parts, NicText(nic));
    NeedleInJoin(parts, "mediator");
  }

  lemma MediatorNameHasNeedle(deployment: string)
    ensures Contains(NameOf(deployment, MediatorIp), "mediator")
  {
    var parts := Parts(MediatorIp);
    NeedleStaysInOnePart(deployment, Join(parts), "mediator");
    NeedleInJoin(parts, "mediator");
    assert OccursAt(parts[0], "mediator", 0);
    assert Contains(parts[0], "mediator");
  }

  /** The deployment name contains a needle that is tested before nic. */
  predicate Misleads(deployment: string, pair: bool, nic: NicId) {
    || (pair && Contains(deployment, "mediator"))
    || (NicNo(nic) > 0 && Contains(deployment, "nic0"))
    || (NicNo(nic) > 1 && Contains(deployment, "nic1"))
    || (NicNo(nic) > 2 && Contains(deployment, "nic2"))
    || (NicNo(nic) > 3 && Contains(deployment, "nic3"))
  }

  lemma DispatchFindsOwnSlot(c: Config, id: Id)
    requires !c.SharedPair() && id.Ip? && (c.Pair() || id.nic.Nic0? || id.nic.Nic1?)
    ensures ChosenSlot(c, id) == Some(NicSlot(id.nic)) <==> !Misleads(c.deployment, c.Pair(), id.nic)
  {
    NeedlesInAddressName(c.deployment, id, Nic0);
    NeedlesInAddressName(c.deployment, id, Nic1);
    NeedlesInAddressName(c.deployment, id, Nic2);
    NeedlesInAddressName(c.deployment, id, Nic3);
    NeedlesInAddressName(c.deployment, id, Nic4);
  }

  /** The slot an address is meant for. */
  function OwnSlot(id: Id): Slot {
    if id.Ip? then NicSlot(id.nic) else MediatorSlot
  }

  /** The highest-numbered interface the configuration has addresses on. */
  function LastNic(c: Config): NicId {
    if c.Pair() then if c.dataNic.Some? then Nic4 else Nic3
    else if c.dataNic.Some? then Nic1 else Nic0
  }

  lemma AddressKinds(c: Config, id: Id)
    requires !c.SharedPair() && id in AddressIds(c)
    ensures id == MediatorIp || (id.Ip? && NicNo(id.nic) <= NicNo(LastNic(c)))
    ensures id == MediatorIp ==> c.CreatesMediator()
  {
  }

  lemma SomeAddressOnLastNic(c: Config) returns (id: Id)
    requires !c.SharedPair()
    ensures id in AddressIds(c) && id.Ip? && id.nic == LastNic(c)
  {
    if c.Pair() {
      id := if c.dataNic.Some? then Ip(First, Nic4, Iscsi) else Ip(First, Nic3, Rsm);
      assert AddressIds(c)[if c.dataNic.Some? then 1 else 8] == id;
    } else {
      id := if c.dataNic.Some? then Ip(Single, Nic1, Iscsi) else Ip(Single, Nic0, NodeMgmt);
      assert AddressIds(c)[if c.dataNic.Some? then 2 else 0] == id;
    }
  }

  /**
   The substring dispatch sends every address to its own interface exactly when
   the deployment name contains none of the needles tested before the last
   interface in use.
   */
  lemma DispatchIsRightIff(c: Config)
    requires !c.SharedPair()
    ensures (forall id :: id in AddressIds(c) ==> ChosenSlot(c, id) == Some(OwnSlot(id)))
            <==> !Misleads(c.deployment, c.Pair(), LastNic(c))
  {
    var last := SomeAddressOnLastNic(c);
    DispatchFindsOwnSlot(c, last);
    forall id | id in AddressIds(c) && !Misleads(c.deployment, c.Pair(), LastNic(c))
      ensures ChosenSlot(c, id) == Some(OwnSlot(id))
    {
      AddressKinds(c, id);
      if id == MediatorIp {
        MediatorNameHasNeedle(c.deployment);
      } else {
        DispatchFindsOwnSlot(c, id);
      }
    }
  }

  ghost predicate AddressIn(t: seq<Resource>, n: string, subnet: string) {
    exists j :: 0 <= j < |t| && t[j].name == n && t[j].subnet == Some(subnet)
  }

  /** The subnet of an attachment is the subnet of the slots its addresses are meant for. */
  lemma AttachmentSubnet(c: Config, id: Id, k: nat, r: Id)
    requires !c.SharedPair() && Emits(c, id) && k < |Attachments(c, id)|
    requires r in Attachments(c, id)[k].addresses
    ensures r.Ip? || r == MediatorIp || r.LbIp?
    ensures r.LbIp? ==> ResourceFor(c, r).subnet == Some(Attachments(c, id)[k].subnet)
    ensures !r.LbIp? ==> Stage(r) == 1 && SlotSubnet(c, OwnSlot(r)) == Some(Attachments(c, id)[k].subnet)
  {
    if id.Instance? { NodeIsOfBranch(c, id.vm); }
  }

  /** The slot the dispatch gives to an address meant for nic, read off the deployment name. */
  function PickedSlot(c: Config, nic: NicId): Slot {
    if c.Pair() && Contains(c.deployment, "mediator") then MediatorSlot
    else if Contains(c.deployment, "nic0") || nic.Nic0? then NicSlot(Nic0)
    else if Contains(c.deployment, "nic1") || nic.Nic1? then NicSlot(Nic1)
    else if Contains(c.deployment, "nic2") || nic.Nic2? then NicSlot(Nic2)
    else if Contains(c.deployment, "nic3") || nic.Nic3? then NicSlot(Nic3)
    else NicSlot(Nic4)
  }

  lemma DispatchPicks(c: Config, id: Id)
    requires !c.SharedPair() && id in AddressIds(c) && id.Ip?
    ensures ChosenSlot(c, id) == Some(PickedSlot(c, id.nic))
  {
    AddressKinds(c, id);
    NeedlesInAddressName(c.deployment, id, Nic0);
    NeedlesInAddressName(c.deployment, id, Nic1);
    NeedlesInAddressName(c.deployment, id, Nic2);
    NeedlesInAddressName(c.deployment, id, Nic3);
    NeedlesInAddressName(c.deployment, id, Nic4);
  }

  /** The slot picked for the address has the subnet of the slot it is meant for. */
  predicate RightSubnet(c: Config, id: Id)
    requires !c.SharedPair()
  {
    id.Ip? ==> SlotSubnet(c, PickedSlot(c, id.nic)) == SlotSubnet(c, NicSlot(id.nic))
  }

  lemma AddressSubnetIsPicked(c: Config, id: Id)
    requires !c.SharedPair() && id in AddressIds(c)
    ensures AddressSubnet(c, id) == SlotSubnet(c, OwnSlot(id)) <==> RightSubnet(c, id)
  {
    AddressKinds(c, id);
    if id.Ip? { DispatchPicks(c, id); } else { MediatorNameHasNeedle(c.deployment); }
  }

  /** Every address of the template lies in the subnet of each interface or rule that takes it. */
  ghost predicate AllLand(t: seq<Resource>) {
    forall i, k, n :: 0 <= i < |t| && 0 <= k < |t[i].nics| && n in t[i].nics[k].addresses ==>
      AddressIn(t, n, t[i].nics[k].subnet)
  }

  lemma AddressLands(c: Config, id: Id, k: nat, r: Id)
    requires !c.SharedPair() && (forall a :: a in AddressIds(c) ==> RightSubnet(c, a))
    requires Emits(c, id) && k < |Attachments(c, id)| && r in Attachments(c, id)[k].addresses
    ensures AddressIn(Template(c), NameOf(c.deployment, r), Attachments(c, id)[k].subnet)
  {
    AttachedAddressesAreEmitted(c, id, k);
    AttachmentSubnet(c, id, k, r);
    if !r.LbIp? { AddressSubnetIsPicked(c, r); }
    EmitsIsOrder(c, r);
    var j :| 0 <= j < |Order(c)| && Order(c)[j] == r;
    assert Template(c)[j] == ResourceFor(c, r);
  }

  lemma RightSubnetsLand(c: Config)
    requires !c.SharedPair() && (forall a :: a in AddressIds(c) ==> RightSubnet(c, a))
    ensures AllLand(Template(c))
  {
    var t := Template(c);
    forall i, k, n | 0 <= i < |t| && 0 <= k < |t[i].nics| && n in t[i].nics[k].addresses
      ensures AddressIn(t, n, t[i].nics[k].subnet)
    {
      var id := Order(c)[i];
      assert id in Order(c) && t[i] == ResourceFor(c, id);
      EmitsIsOrder(c, id);
      var a := Attachments(c, id)[k];
      var m :| 0 <= m < |a.addresses| && NameOf(c.deployment, a.addresses[m]) == n;
      AddressLands(c, id, k, a.addresses[m]);
    }
  }

  /** The interface of its node that takes an address. */
  function TakenAt(c: Config, id: Id): nat
    requires id.Ip?
  {
    if c.Pair() then NicNo(id.nic) else if id.nic.Nic0? then 0 else 1
  }

  lemma PairAddressIsTaken(c: Config, id: Id)
    requires c.Pair() && PairAddress(c, id)
    ensures TakenAt(c, id) < |Attachments(c, Instance(id.vm))|
    ensures id in Attachments(c, Instance(id.vm))[TakenAt(c, id)].addresses
  {
  }

  lemma SingleAddressIsTaken(c: Config, id: Id)
    requires c.ha.None? && SingleAddress(c, id)
    ensures TakenAt(c, id) < |Attachments(c, Instance(Single))|
    ensures id in Attachments(c, Instance(Single))[TakenAt(c, id)].addresses
  {
  }

  lemma AddressesAreKnown(c: Config, id: Id)
    requires !c.SharedPair() && id in AddressIds(c) && id.Ip?
    ensures if c.Pair() then PairAddress(c, id) else SingleAddress(c, id)
  {
  }

  lemma NodesAreEmitted(c: Config, vm: Vm)
    requires !c.SharedPair() && (c.Pair() <==> !vm.Single?)
    ensures Emits(c, Instance(vm))
  {
  }

  lemma AddressIsTaken(c: Config, id: Id)
    requires !c.SharedPair() && id in AddressIds(c) && id.Ip?
    ensures Emits(c, Instance(id.vm))
    ensures TakenAt(c, id) < |Attachments(c, Instance(id.vm))|
    ensures id in Attachments(c, Instance(id.vm))[TakenAt(c, id)].addresses
  {
    AddressesAreKnown(c, id);
    NodesAreEmitted(c, id.vm);
    if c.Pair() { PairAddressIsTaken(c, id); } else { SingleAddressIsTaken(c, id); }
  }

  /** The one resource with the name of an emitted address is that address. */
  lemma AddressInIsSubnet(c: Config, id: Id, subnet: string)
    requires !c.SharedPair() && id in AddressIds(c) && AddressIn(Template(c), NameOf(c.deployment, id), subnet)
    ensures AddressSubnet(c, id) == Some(subnet)
  {
    var t := Template(c);
    var j :| 0 <= j < |t| && t[j].name == NameOf(c.deployment, id) && t[j].subnet == Some(subnet);
    var r := Order(c)[j];
    assert r in Order(c) && t[j] == ResourceFor(c, r);
    OrderOk(c, SEGMENTS);
    AddressKinds(c, id);
    NamesAreDistinct(c.deployment, r, id);
  }

  lemma LandingNeedsRightSubnet(c: Config, id: Id)
    requires !c.SharedPair() && AllLand(Template(c)) && id in AddressIds(c) && id.Ip?
    ensures RightSubnet(c, id)
  {
    var host, k := Instance(id.vm), TakenAt(c, id);
    AddressIsTaken(c, id);
    EmitsIsOrder(c, host);
    var t := Template(c);
    var i :| 0 <= i < |Order(c)| && Order(c)[i] == host;
    assert t[i] == ResourceFor(c, host);
    var a := Attachments(c, host)[k];
    var m :| 0 <= m < |a.addresses| && a.addresses[m] == id;
    assert t[i].nics[k] == Nic(a.subnet, NamesOf(c.deployment, a.addresses));
    assert NamesOf(c.deployment, a.addresses)[m] == NameOf(c.deployment, id);
    AddressInIsSubnet(c, id, a.subnet);
    AttachmentSubnet(c, host, k, id);
    AddressSubnetIsPicked(c, id);
  }

  /**
   Every address resource lies in the subnet of the interface or rule that takes
   it if and only if, for every interface in use, the first needle found in the
   test order stands for the same subnet as the interface itself.
   */
  lemma AddressesLandOnTheirNic(c: Config)
    requires !c.SharedPair()
    ensures AllLand(Template(c)) <==> forall id :: id in AddressIds(c) ==> RightSubnet(c, id)
  {
    if AllLand(Template(c)) {
      forall id | id in AddressIds(c) ensures RightSubnet(c, id) {
        if id.Ip? { LandingNeedsRightSubnet(c, id); }
      }
    } else if forall id :: id in AddressIds(c) ==> RightSubnet(c, id) {
      RightSubnetsLand(c);
    }
  }

  /** In particular they land under a deployment name without misleading needles. */
  lemma PlainNamesLand(c: Config)
    requires !c.SharedPair() && !Misleads(c.deployment, c.Pair(), LastNic(c))
    ensures AllLand(Template(c))
  {
    DispatchIsRightIff(c);
    forall id | id in AddressIds(c) ensures RightSubnet(c, id) {
      AddressSubnetIsPicked(c, id);
    }
    RightSubnetsLand(c);
  }
}
