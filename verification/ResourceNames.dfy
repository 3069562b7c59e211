/** The names generate_config gives to its resources, and why no two of them collide. */
module ResourceNames {
  import opened Names

  datatype Vm = Single | First | Second
  datatype NicId = Nic0 | Nic1 | Nic2 | Nic3 | Nic4
  datatype Iface = NodeMgmt | ClusterMgmt | InterCluster | Iscsi | Nas | Cluster | Interconnect | Rsm
  datatype DiskUse =
    | Boot | Nvram | Core | Root | RootCopy
    | Data1 | Data2 | Data3 | Data4 | Data1Copy | Data2Copy | Data3Copy | Data4Copy
  datatype Balancer = ClusterLb | Nas1Lb | Nas2Lb
  datatype Protocol = Tcp | Udp

  /** One identifier for each separator.join of the template. */
  datatype Id =
    | NodeTemplate
    | NodeGroup(vm: Vm)
    | Ip(vm: Vm, nic: NicId, iface: Iface)
    | LbIp(lb: Balancer)
    | HealthCheck(lb: Balancer)
    | Backend(lb: Balancer, protocol: Protocol)
    | Rule(lb: Balancer, protocol: Protocol)
    | Group(vm: Vm)
    | Disk(vm: Vm, use: DiskUse)
    | Policy
    | MediatorIp
    | MediatorDisk(boot: bool)
    | Mediator
    | Instance(vm: Vm)
    | AddInstances(vm: Vm)

  function VmText(vm: Vm): string {
    match vm
    case Single => "vm"
    case First => "vm1"
    case Second => "vm2"
  }

  function NicText(nic: NicId): string {
    match nic
    case Nic0 => "nic0"
    case Nic1 => "nic1"
    case Nic2 => "nic2"
    case Nic3 => "nic3"
    case Nic4 => "nic4"
  }

  function IfaceText(iface: Iface): string {
    match iface
    case NodeMgmt => "nodemgmt"
    case ClusterMgmt => "clustermgmt"
    case InterCluster => "intercluster"
    case Iscsi => "iscsi"
    case Nas => "nas"
    case Cluster => "cluster"
    case Interconnect => "interconnect"
    case Rsm => "rsm"
  }

  function DiskText(use: DiskUse): string {
    match use
    case Boot => "boot"
    case Nvram => "nvram"
    case Core => "core"
    case Root => "root"
    case RootCopy => "rootcopy"
    case Data1 => "data1"
    case Data2 => "data2"
    case Data3 => "data3"
    case Data4 => "data4"
    case Data1Copy => "data1copy"
    case Data2Copy => "data2copy"
    case Data3Copy => "data3copy"
    case Data4Copy => "data4copy"
  }

  /** Balancers are numbered by a counter as their names are made. */
  function LbParts(lb: Balancer): seq<string> {
    match lb
    case ClusterLb => ["ilb1", "clustermgmt"]
    case Nas1Lb => ["ilb2", "nas", "vm1"]
    case Nas2Lb => ["ilb3", "nas", "vm2"]
  }

  function ProtocolText(p: Protocol): string {
    if p.Tcp? then "tcp" else "udp"
  }

  function GroupText(vm: Vm): string {
    if vm.Second? then "instancegroup2" else "instancegroup1"
  }

  /** The dash-free parts after the deployment name. */
  function Parts(id: Id): (parts: seq<string>)
    ensures parts != []
  {
    match id
    case NodeTemplate => ["node", "template"]
    case NodeGroup(vm) => [VmText(vm), "node", "group"]
    case Ip(vm, nic, iface) => [VmText(vm), "ip", NicText(nic), IfaceText(iface)]
    case LbIp(lb) => LbParts(lb) + ["ip"]
    case HealthCheck(lb) => LbParts(lb) + ["healthcheck"]
    case Backend(lb, p) => LbParts(lb) + ["backendservice", ProtocolText(p)]
    case Rule(lb, p) => LbParts(lb) + ["forwardingrule", ProtocolText(p)]
    case Group(vm) => [GroupText(vm)]
    case Disk(vm, use) => [VmText(vm), "disk", DiskText(use)]
    case Policy => ["vm", "placementpolicy1", "spread"]
    case MediatorIp => ["mediator", "ip", "nic0"]
    case MediatorDisk(boot) => ["mediator", "disk", if boot then "boot" else "data"]
    case Mediator => ["mediator"]
    case Instance(vm) => [VmText(vm)]
    case AddInstances(vm) => [GroupText(vm), "add"]
  }

  /** Full name; the add action repeats the deployment name inside its own. */
  function NameOf(deployment: string, id: Id): string {
    var base := deployment + "-" + Join(Parts(id));
    if id.AddInstances? then base + "-" + deployment + "-" + VmText(id.vm) else base
  }

  // ---------------------------------------------------------------------
  // Reading a part back
  // ---------------------------------------------------------------------

  function VmOf(s: string): Vm {
    if |s| == 2 then Single else if |s| == 3 && s[2] == '1' then First else Second
  }

  function NicOf(s: string): NicId {
    if |s| != 4 || s[3] == '0' then Nic0
    else if s[3] == '1' then Nic1
    else if s[3] == '2' then Nic2
    else if s[3] == '3' then Nic3
    else Nic4
  }

  function IfaceOf(s: string): Iface {
    if |s| == 8 then NodeMgmt
    else if |s| == 11 then ClusterMgmt
    else if |s| == 12 then if s[6] == 'l' then InterCluster else Interconnect
    else if |s| == 5 then Iscsi
    else if |s| == 7 then Cluster
    else if |s| == 3 && s[0] == 'n' then Nas
    else Rsm
  }

  function DiskOf(s: string): DiskUse {
    if |s| == 4 then if s[0] == 'b' then Boot else if s[0] == 'c' then Core else Root
    else if |s| == 8 then RootCopy
    else if |s| == 5 then
      if s[0] == 'n' then Nvram
      else if s[4] == '1' then Data1 else if s[4] == '2' then Data2 else if s[4] == '3' then Data3 else Data4
    else if |s| == 9 then
      if s[4] == '1' then Data1Copy else if s[4] == '2' then Data2Copy else if s[4] == '3' then Data3Copy else Data4Copy
    else Boot
  }

  lemma TextsReadBack(vm: Vm, nic: NicId, iface: Iface, use: DiskUse)
    ensures VmOf(VmText(vm)) == vm && NicOf(NicText(nic)) == nic
    ensures IfaceOf(IfaceText(iface)) == iface && DiskOf(DiskText(use)) == use
  {
  }

  function LbOf(s: string): Balancer {
    if |s| != 4 || s[3] == '1' then ClusterLb else if s[3] == '2' then Nas1Lb else Nas2Lb
  }

  function ProtocolOf(s: string): Protocol {
    if s != "" && s[0] == 't' then Tcp else Udp
  }

  /** Reads the identifier off the parts; the add action keeps its vm in the group number. */
  function IdOf(parts: seq<string>): Id
    requires parts != [] && parts[0] != ""
  {
    var head, last := parts[0], parts[|parts| - 1];
    var tail := if last == "" then ' ' else last[0];
    if head[0] == 'n' then NodeTemplate
    else if head[0] == 'm' then
      if |parts| < 3 then Mediator
      else if |parts[1]| == 2 then MediatorIp
      else MediatorDisk(tail == 'b')
    else if head[0] == 'v' then
      if |parts| == 1 then Instance(VmOf(head))
      else if |parts| == 4 then Ip(VmOf(head), NicOf(parts[2]), IfaceOf(last))
      else if |parts| == 3 && |parts[1]| == 4 && parts[1][0] == 'n' then NodeGroup(VmOf(head))
      else if |parts| == 3 && |parts[1]| == 4 then Disk(VmOf(head), DiskOf(last))
      else Policy
    else if |head| == 14 then
      var vm := if head[13] == '2' then Second else First;
      if |parts| == 1 then Group(vm) else AddInstances(vm)
    else if tail == 'i' then LbIp(LbOf(head))
    else if tail == 'h' then HealthCheck(LbOf(head))
    else if |parts| > 1 && parts[|parts| - 2] != "" && parts[|parts| - 2][0] == 'b' then
      Backend(LbOf(head), ProtocolOf(last))
    else Rule(LbOf(head), ProtocolOf(last))
  }

  /** Instance groups exist for the two nodes of a pair only. */
  predicate Named(id: Id) {
    id.Group? || id.AddInstances? ==> !id.vm.Single?
  }

  lemma NodePartsReadBack(id: Id)
    requires id.Ip? || id.Disk? || id.NodeGroup? || id.Instance?
    ensures Parts(id)[0] != "" && IdOf(Parts(id)) == id
  {
    TextsReadBack(id.vm, if id.Ip? then id.nic else Nic0, if id.Ip? then id.iface else Nas,
                  if id.Disk? then id.use else Boot);
  }

  lemma BalancerPartsReadBack(id: Id)
    requires id.LbIp? || id.HealthCheck? || id.Backend? || id.Rule?
    ensures Parts(id)[0] != "" && IdOf(Parts(id)) == id
  {
  }

  lemma FirstPartIsNotEmpty(id: Id)
    ensures Parts(id)[0] != ""
  {
  }

  lemma PartsReadBack(id: Id)
    requires Named(id)
    ensures Parts(id)[0] != "" && IdOf(Parts(id)) == id
  {
    FirstPartIsNotEmpty(id);
    if id.Ip? || id.Disk? || id.NodeGroup? || id.Instance? {
      NodePartsReadBack(id);
    } else if id.LbIp? || id.HealthCheck? || id.Backend? || id.Rule? {
      BalancerPartsReadBack(id);
    }
  }

  lemma TextsAreDashFree(vm: Vm, nic: NicId, iface: Iface, use: DiskUse)
    ensures DashFree(VmText(vm)) && DashFree(NicText(nic)) && DashFree(IfaceText(iface)) && DashFree(DiskText(use))
  {
  }

  lemma LbPartsAreDashFree(lb: Balancer)
    ensures AllDashFree(LbParts(lb))
  {
  }

  lemma NodePartsAreDashFree(id: Id)
    requires id.Ip? || id.Disk? || id.NodeGroup? || id.Instance?
    ensures AllDashFree(Parts(id))
  {
    TextsAreDashFree(id.vm, if id.Ip? then id.nic else Nic0, if id.Ip? then id.iface else Nas,
                     if id.Disk? then id.use else Boot);
  }

  lemma BalancerPartsAreDashFree(id: Id)
    requires id.LbIp? || id.HealthCheck? || id.Backend? || id.Rule?
    ensures AllDashFree(Parts(id))
  {
    LbPartsAreDashFree(id.lb);
  }

  lemma PartsAreDashFree(id: Id)
    ensures AllDashFree(Parts(id))
  {
    if id.Ip? || id.Disk? || id.NodeGroup? || id.Instance? {
      NodePartsAreDashFree(id);
    } else if id.LbIp? || id.HealthCheck? || id.Backend? || id.Rule? {
      BalancerPartsAreDashFree(id);
    }
  }

  /** What follows the deployment name and its dash. */
  function Rest(deployment: string, id: Id): string {
    Join(Parts(id)) + if id.AddInstances? then "-" + deployment + "-" + VmText(id.vm) else ""
  }

  /** The rest of a name starts with the first part, and is just that part when there is no other. */
  lemma RestStart(deployment: string, id: Id)
    requires Named(id)
    ensures NameOf(deployment, id) == deployment + "-" + Rest(deployment, id)
    ensures var s := Rest(deployment, id);
            && FirstDash(s) <= |s| && s[..FirstDash(s)] == Parts(id)[0]
            && (FirstDash(s) == |s| <==> |Parts(id)| == 1)
  {
    PartsAreDashFree(id);
    FirstPart(Parts(id));
    if id.AddInstances? {
      var tail := "-" + deployment + "-" + VmText(id.vm);
      var g := GroupText(id.vm);
      assert Join(Parts(id)) == g + "-" + "add" by {
        assert Parts(id)[1..] == ["add"];
      }
      assert Rest(deployment, id) == g + ("-" + "add" + tail);
      FirstDashAfter(g, "-" + "add" + tail);
      assert Rest(deployment, id) == Join(Parts(id)) + tail;
    } else {
      assert Rest(deployment, id) == Join(Parts(id));
    }
  }

  lemma OnlyGroupsStartLikeGroups(id: Id)
    requires Named(id) && |Parts(id)[0]| == 14
    ensures id.Group? || id.AddInstances?
  {
  }

  lemma GroupTextIsInjective(a: Vm, b: Vm)
    requires GroupText(a) == GroupText(b) && !a.Single? && !b.Single?
    ensures a == b
  {
    assert GroupText(a)[13] == GroupText(b)[13];
  }

  /** For every deployment name, different identifiers have different names. */
  lemma NamesAreDistinct(deployment: string, a: Id, b: Id)
    requires Named(a) && Named(b) && NameOf(deployment, a) == NameOf(deployment, b)
    ensures a == b
  {
    RestStart(deployment, a);
    RestStart(deployment, b);
    var s, t := Rest(deployment, a), Rest(deployment, b);
    assert s == NameOf(deployment, a)[|deployment| + 1..];
    assert t == NameOf(deployment, b)[|deployment| + 1..];
    if a.AddInstances? || b.AddInstances? {
      OnlyGroupsStartLikeGroups(a);
      OnlyGroupsStartLikeGroups(b);
      GroupTextIsInjective(a.vm, b.vm);
    } else {
      assert s == Join(Parts(a)) && t == Join(Parts(b));
      PartsAreDashFree(a);
      PartsAreDashFree(b);
      JoinIsInjective(Parts(a), Parts(b));
      PartsReadBack(a);
      PartsReadBack(b);
    }
  }
}
