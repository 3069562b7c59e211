/**
 generate_config of vsa_config/netapp-cvo-deployment.py: which resources it
 emits, which names they refer to, and which subnet each address is put in.
 Empty strings stand for options that were not supplied.
 */
module Deployment {
  import opened Common
  import opened Names
  import opened ResourceNames

  datatype SoleTenant = SoleTenant(vm1Group: string, vm2Group: string)
  datatype MediatorConf = MediatorConf(ip: string, zone: string, subnet: string)
  datatype NonShared = NonShared(vnic3: string, mediator: MediatorConf)
  datatype HaConf = HaConf(zone2: string, vnic1: string, vnic2: string, nonShared: Option<NonShared>)

  datatype Config = Config(
    deployment: string,
    region: string,
    zone1: string,
    vnic0: string,
    dataNic: Option<string>,
    soleTenant: Option<SoleTenant>,
    ha: Option<HaConf>)
  {
    /** The branch for two nodes with separate disks. */
    predicate Pair() { ha.Some? && ha.value.nonShared.Some? }

    predicate SharedPair() { ha.Some? && ha.value.nonShared.None? }

    function MainVm(): Vm { if ha.Some? then First else Single }

    function MediatorOptions(): MediatorConf
      requires Pair()
    {
      ha.value.nonShared.value.mediator
    }

    predicate CreatesMediator() { Pair() && MediatorOptions().ip == "" }

    predicate CreatesTemplate() { soleTenant.Some? && soleTenant.value.vm1Group == "" }

    predicate CreatesGroup2() { Pair() && soleTenant.Some? && soleTenant.value.vm2Group == "" }

    function Zone2(): string
      requires ha.Some?
    {
      if ha.value.zone2 == "" then zone1 else ha.value.zone2
    }

    function MediatorZone(): string
      requires Pair()
    {
      if MediatorOptions().zone == "" then Zone2() else MediatorOptions().zone
    }

    function MediatorSubnet(): string
      requires Pair()
    {
      if MediatorOptions().subnet == "" then ha.value.nonShared.value.vnic3 else MediatorOptions().subnet
    }

    function DataSubnet(): string { dataNic.GetOr(vnic0) }

    /** The interface that carries data traffic. */
    function DataNicId(): NicId {
      if dataNic.None? then Nic0 else if ha.Some? then Nic4 else Nic1
    }
  }

  /** zone.rpartition("-")[0] */
  function RegionOf(zone: string): string {
    if zone == "" then ""
    else if zone[|zone| - 1] == '-' then zone[..|zone| - 1]
    else RegionOf(zone[..|zone| - 1])
  }

  predicate ZonesInRegion(c: Config) {
    && RegionOf(c.zone1) == c.region
    && (c.ha.Some? && c.ha.value.zone2 != "" ==> RegionOf(c.ha.value.zone2) == c.region)
    && (c.CreatesMediator() && c.MediatorOptions().zone != "" ==> RegionOf(c.MediatorOptions().zone) == c.region)
  }

  // ---------------------------------------------------------------------
  // Which resources, in which order
  // ---------------------------------------------------------------------

  function TenancyIds(c: Config): seq<Id> {
    if c.CreatesTemplate() then [NodeTemplate, NodeGroup(c.MainVm())] else []
  }

  /** The addresses whose subnet is chosen by looking into their name, in dictionary order. */
  function AddressIds(c: Config): seq<Id> {
    var d := c.DataNicId();
    if c.Pair() then
      [Ip(First, Nic0, NodeMgmt), Ip(First, d, Iscsi), Ip(First, Nic1, Cluster), Ip(First, Nic2, Interconnect),
       Ip(Second, Nic0, NodeMgmt), Ip(Second, d, Iscsi), Ip(Second, Nic1, Cluster), Ip(Second, Nic2, Interconnect),
       Ip(First, Nic3, Rsm), Ip(Second, Nic3, Rsm)]
      + (if c.CreatesMediator() then [MediatorIp] else [])
      + (if c.dataNic.Some? then [Ip(First, Nic4, InterCluster), Ip(Second, Nic4, InterCluster)] else [])
    else
      [Ip(Single, Nic0, NodeMgmt), Ip(Single, Nic0, ClusterMgmt), Ip(Single, d, Iscsi), Ip(Single, d, Nas)]
      + (if c.dataNic.Some? then [Ip(Single, Nic1, InterCluster)] else [])
  }

  const BALANCING: seq<Id> :=
    [LbIp(ClusterLb), LbIp(Nas1Lb), LbIp(Nas2Lb), Group(First), Group(Second),
     HealthCheck(ClusterLb), HealthCheck(Nas1Lb), HealthCheck(Nas2Lb)]

  const BACKENDS: seq<Id> :=
    [Backend(ClusterLb, Tcp), Backend(ClusterLb, Udp), Backend(Nas1Lb, Tcp),
     Backend(Nas1Lb, Udp), Backend(Nas2Lb, Tcp), Backend(Nas2Lb, Udp)]

  const RULES: seq<Id> :=
    [Rule(ClusterLb, Tcp), Rule(ClusterLb, Udp), Rule(Nas1Lb, Tcp),
     Rule(Nas1Lb, Udp), Rule(Nas2Lb, Tcp), Rule(Nas2Lb, Udp)]

  /** The disks of each node, in the order of its list of disk names. */
  function DiskIds(vm: Vm): seq<Id> {
    match vm
    case Single =>
      [Disk(Single, Boot), Disk(Single, Nvram), Disk(Single, Core), Disk(Single, Root),
       Disk(Single, Data1), Disk(Single, Data2), Disk(Single, Data3), Disk(Single, Data4)]
    case First =>
      [Disk(First, Boot), Disk(First, Nvram), Disk(First, Core), Disk(First, Root), Disk(Second, RootCopy),
       Disk(First, Data1), Disk(First, Data2), Disk(First, Data3), Disk(First, Data4)]
    case Second =>
      [Disk(Second, Boot), Disk(Second, Nvram), Disk(Second, Core), Disk(Second, Root), Disk(First, RootCopy),
       Disk(Second, Data1Copy), Disk(Second, Data2Copy), Disk(Second, Data3Copy), Disk(Second, Data4Copy)]
  }

  /** The instances spread over racks: those that share a zone. */
  function PolicyMembers(c: Config): set<Id>
    requires c.Pair()
  {
    var z1, z2, mz := c.zone1, c.Zone2(), c.MediatorZone();
    if z1 == z2 then
      {Instance(First), Instance(Second)} + if c.CreatesMediator() && z1 == mz then {Mediator} else {}
    else if !c.CreatesMediator() then {}
    else if z2 == mz then {Instance(Second), Mediator}
    else if z1 == mz then {Instance(First), Mediator}
    else {}
  }

  function PolicyIds(c: Config): seq<Id>
    requires c.Pair()
  {
    if PolicyMembers(c) != {} then [Policy] else []
  }

  function MediatorIds(c: Config): seq<Id> {
    if c.CreatesMediator() then [MediatorDisk(true), MediatorDisk(false), Mediator] else []
  }

  function SecondIds(c: Config): seq<Id> {
    (if c.CreatesGroup2() then [NodeGroup(Second)] else [])
    + [Instance(Second), AddInstances(First), AddInstances(Second)]
  }

  /** The template is emitted in these segments; some are empty in some branches. */
  const SEGMENTS := 11

  function Segment(c: Config, k: nat): seq<Id>
    requires !c.SharedPair()
  {
    if k == 0 then TenancyIds(c)
    else if k == 1 then AddressIds(c)
    else if c.Pair() then
      match k
      case 2 => BALANCING
      case 3 => BACKENDS
      case 4 => RULES
      case 5 => DiskIds(First)
      case 6 => DiskIds(Second)
      case 7 => PolicyIds(c)
      case 8 => MediatorIds(c)
      case 9 => [Instance(First)]
      case 10 => SecondIds(c)
      case _ => []
    else
      match k
      case 5 => DiskIds(Single)
      case 9 => [Instance(Single)]
      case _ => []
  }

  function OrderUpTo(c: Config, k: nat): seq<Id>
    requires !c.SharedPair()
  {
    if k == 0 then [] else OrderUpTo(c, k - 1) + Segment(c, k - 1)
  }

  function Order(c: Config): seq<Id>
    requires !c.SharedPair()
  {
    OrderUpTo(c, SEGMENTS)
  }

  // ---------------------------------------------------------------------
  // Subnets
  // ---------------------------------------------------------------------

  datatype Slot = MediatorSlot | NicSlot(nic: NicId)

  /** The if-chain of the two-node branch over the text of the name. */
  function PairSlot(name: string): Option<Slot> {
    if Contains(name, "mediator") then Some(MediatorSlot)
    else if Contains(name, "nic0") then Some(NicSlot(Nic0))
    else if Contains(name, "nic1") then Some(NicSlot(Nic1))
    else if Contains(name, "nic2") then Some(NicSlot(Nic2))
    else if Contains(name, "nic3") then Some(NicSlot(Nic3))
    else if Contains(name, "nic4") then Some(NicSlot(Nic4))
    else None
  }

  /** The if-chain of the single-node branch. */
  function SingleSlot(name: string): Option<Slot> {
    if Contains(name, "nic0") then Some(NicSlot(Nic0))
    else if Contains(name, "nic1") then Some(NicSlot(Nic1))
    else None
  }

  /** None where the template would read a variable it has not set. */
  function SlotSubnet(c: Config, slot: Slot): Option<string>
    requires !c.SharedPair()
  {
    if c.Pair() then
      match slot
      case MediatorSlot => if c.CreatesMediator() then Some(c.MediatorSubnet()) else None
      case NicSlot(nic) =>
        Some(match nic
             case Nic0 => c.vnic0
             case Nic1 => c.ha.value.vnic1
             case Nic2 => c.ha.value.vnic2
             case Nic3 => c.ha.value.nonShared.value.vnic3
             case Nic4 => c.DataSubnet())
    else
      match slot
      case NicSlot(Nic0) => Some(c.vnic0)
      case NicSlot(Nic1) => c.dataNic
      case _ => None
  }

  function ChosenSlot(c: Config, id: Id): Option<Slot> {
    var name := NameOf(c.deployment, id);
    if c.Pair() then PairSlot(name) else SingleSlot(name)
  }

  function AddressSubnet(c: Config, id: Id): Option<string>
    requires !c.SharedPair()
  {
    match ChosenSlot(c, id)
    case None => None
    case Some(slot) => SlotSubnet(c, slot)
  }

  // ---------------------------------------------------------------------
  // What each resource refers to
  // ---------------------------------------------------------------------

  /** A network interface or forwarding rule: its own subnet and the addresses it takes. */
  datatype Attachment = Attachment(subnet: string, addresses: seq<Id>)

  function Attachments(c: Config, id: Id): seq<Attachment>
    requires !c.SharedPair()
  {
    match id
    case Instance(vm) =>
      var d := c.DataNicId();
      if c.Pair() then
        [Attachment(c.vnic0, [Ip(vm, Nic0, NodeMgmt)] + if c.dataNic.None? then [Ip(vm, Nic0, Iscsi)] else []),
         Attachment(c.ha.value.vnic1, [Ip(vm, Nic1, Cluster)]),
         Attachment(c.ha.value.vnic2, [Ip(vm, Nic2, Interconnect)]),
         Attachment(c.ha.value.nonShared.value.vnic3, [Ip(vm, Nic3, Rsm)])]
        + if c.dataNic.Some? then [Attachment(c.DataSubnet(), [Ip(vm, Nic4, InterCluster), Ip(vm, Nic4, Iscsi)])]
          else []
      else
        [Attachment(c.vnic0, [Ip(vm, Nic0, NodeMgmt), Ip(vm, Nic0, ClusterMgmt)]
                             + if c.dataNic.None? then [Ip(vm, Nic0, Iscsi), Ip(vm, Nic0, Nas)] else [])]
        + if c.dataNic.Some? then
            [Attachment(c.dataNic.value, [Ip(vm, Nic1, InterCluster), Ip(vm, Nic1, Iscsi), Ip(vm, Nic1, Nas)])]
          else []
    case Mediator => if c.Pair() then [Attachment(c.MediatorSubnet(), [MediatorIp])] else []
    case Rule(lb, _) => [Attachment(if lb.ClusterLb? then c.vnic0 else c.DataSubnet(), [LbIp(lb)])]
    case _ => []
  }

  function PeerRefs(vm: Vm, partner: Vm): seq<Id> {
    [Ip(partner, Nic2, Interconnect), LbIp(ClusterLb), Ip(partner, Nic3, Rsm), Ip(vm, Nic1, Cluster),
     Ip(partner, Nic1, Cluster), Ip(vm, Nic0, NodeMgmt), Ip(partner, Nic0, NodeMgmt)]
  }

  function DataRefs(c: Config, vm: Vm, partner: Vm): seq<Id> {
    if c.dataNic.Some? then [Ip(vm, Nic4, InterCluster), Ip(vm, Nic4, Iscsi), Ip(partner, Nic4, Iscsi)] else []
  }

  /** The addresses a node of a pair is told about in its custom data. */
  function CustomDataRefs(c: Config, vm: Vm): seq<Id>
    requires c.Pair()
  {
    var partner := if vm.First? then Second else First;
    (if c.CreatesMediator() then [MediatorIp] else []) + PeerRefs(vm, partner) + DataRefs(c, vm, partner)
  }

  function PolicyRefs(c: Config, id: Id): seq<Id> {
    if c.Pair() && id in PolicyMembers(c) then [Policy] else []
  }

  /** Everything named inside $(ref...) by the resource, the addresses of its attachments aside. */
  function RefIds(c: Config, id: Id): seq<Id>
    requires !c.SharedPair()
  {
    match id
    case NodeGroup(_) => [NodeTemplate]
    case Backend(lb, _) => [Group(First), Group(Second), HealthCheck(lb)]
    case Rule(lb, p) => [Backend(lb, p)]
    case Mediator => [MediatorDisk(true), MediatorDisk(false)] + PolicyRefs(c, id)
    case Instance(vm) =>
      (if c.Pair() then CustomDataRefs(c, vm) else []) + DiskIds(vm) + PolicyRefs(c, id)
    case AddInstances(vm) => [Instance(vm)]
    case _ => []
  }

  /** The shared dependency list as it stands when the template is returned. */
  function DependsOnIds(c: Config): seq<Id> {
    (if c.CreatesTemplate() then [NodeGroup(c.MainVm())] else [])
    + (if c.Pair() then
         [Rule(ClusterLb, Tcp), Rule(Nas1Lb, Tcp), Rule(Nas2Lb, Tcp),
          Rule(ClusterLb, Udp), Rule(Nas1Lb, Udp), Rule(Nas2Lb, Udp)]
       else [])
    + (if c.CreatesMediator() then [Mediator] else [])
    + (if c.CreatesGroup2() then [NodeGroup(Second)] else [])
  }

  // ---------------------------------------------------------------------
  // The template
  // ---------------------------------------------------------------------

  datatype Nic = Nic(subnet: string, addresses: seq<string>)

  datatype Resource = Resource(id: Id, name: string, subnet: Option<string>, refs: seq<string>,
                               nics: seq<Nic>, dependsOn: seq<string>)

  function NamesOf(deployment: string, ids: seq<Id>): seq<string> {
    seq(|ids|, i requires 0 <= i < |ids| => NameOf(deployment, ids[i]))
  }

  function NicsOf(deployment: string, attachments: seq<Attachment>): seq<Nic> {
    seq(|attachments|, i requires 0 <= i < |attachments| =>
      Nic(attachments[i].subnet, NamesOf(deployment, attachments[i].addresses)))
  }

  function ResourceFor(c: Config, id: Id): Resource
    requires !c.SharedPair()
  {
    var subnet := match id
                  case Ip(_, _, _) => AddressSubnet(c, id)
                  case MediatorIp => AddressSubnet(c, id)
                  case LbIp(lb) => Some(if lb.ClusterLb? then c.vnic0 else c.DataSubnet())
                  case _ => None;
    Resource(id, NameOf(c.deployment, id), subnet, NamesOf(c.deployment, RefIds(c, id)),
             NicsOf(c.deployment, Attachments(c, id)),
             if id.Instance? then NamesOf(c.deployment, DependsOnIds(c)) else [])
  }

  function Template(c: Config): seq<Resource>
    requires !c.SharedPair()
  {
    var order := Order(c);
    seq(|order|, i requires 0 <= i < |order| => ResourceFor(c, order[i]))
  }
}
