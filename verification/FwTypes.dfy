/** The entities the firewall code works on: rules, VMs and the targets that name VMs.
 *  A rule's top-level target lists and its two sides are what the rule parser hands over;
 *  ParsedRule says what that parser guarantees about them.
 */
module FwTypes {
  import opened Options

  type Uuid = string

  datatype Action = Allow | Block

  datatype Direction = From | To

  datatype Protocol = Ah | Esp | Icmp | Icmp6 | Tcp | Udp

  datatype Addr = V4(bits: nat) | V6(bits: nat)

  datatype Subnet = Subnet(base: Addr, prefix: nat)

  datatype ProtoTarget =
    | AllTargets
    | Port(port: nat)
    | PortRange(start: nat, end: nat)
    | IcmpType(icmpType: nat)
    | IcmpTypeCode(icmpType: nat, code: nat)

  datatype TagTarget = TagKey(key: string) | TagPair(key: string, value: string)

  datatype Wildcard = Any | VmAll

  datatype Side = Side(
    ips: seq<Addr>,
    subnets: seq<Subnet>,
    tags: seq<TagTarget>,
    vms: seq<Uuid>,
    wildcards: seq<Wildcard>)

  datatype Rule = Rule(
    uuid: Uuid,
    version: string,
    enabled: bool,
    log: bool,
    action: Action,
    priority: nat,
    protocol: Protocol,
    protoTargets: seq<ProtoTarget>,
    owner: Option<Uuid>,
    source: Side,
    destination: Side,
    ips: seq<Addr>,
    tags: seq<TagTarget>,
    vms: seq<Uuid>,
    wildcards: seq<Wildcard>)
  {
    function On(dir: Direction): Side {
      if dir.From? then source else destination
    }
  }

  /** A local or remote VM, reduced to the fields the firewall reads. */
  datatype VM = VM(
    uuid: Uuid,
    enabled: bool,
    ips: seq<Addr>,
    owner: Option<Uuid>,
    tags: map<string, string>)

  function Opposite(dir: Direction): Direction {
    if dir.From? then To else From
  }

  /** One way of naming VMs: the key of one entry in a VM lookup table. */
  datatype Target = OnIp(ip: Addr) | OnTag(tag: TagTarget) | OnVm(uuid: Uuid) | OnWildcard(wildcard: Wildcard)

  predicate Selects(t: Target, vm: VM) {
    match t
    case OnIp(ip) => ip in vm.ips
    case OnTag(TagKey(key)) => key in vm.tags
    case OnTag(TagPair(key, value)) => key in vm.tags && vm.tags[key] == value
    case OnVm(uuid) => vm.uuid == uuid
    case OnWildcard(w) => w == VmAll
  }

  // ---- what the rule parser guarantees ----

  predicate IsIcmp(p: Protocol) { p.Icmp? || p.Icmp6? }

  predicate WellFormedProtoTarget(p: Protocol, t: ProtoTarget) {
    match t
    case AllTargets => true
    case Port(_) => p.Tcp? || p.Udp?
    case PortRange(_, _) => p.Tcp? || p.Udp?
    case IcmpType(_) => IsIcmp(p)
    case IcmpTypeCode(_, _) => IsIcmp(p)
  }

  /** The top-level lists cover both sides.  A bare tag on either side absorbs every
   *  valued target of the same tag, so for tags the cover need not be an equality. */
  ghost predicate ParsedRule(r: Rule) {
    && r.protoTargets != []
    && (forall i :: 0 <= i < |r.protoTargets| ==> WellFormedProtoTarget(r.protocol, r.protoTargets[i]))
    && (forall ip :: ip in r.ips <==> ip in r.source.ips || ip in r.destination.ips)
    && (forall u :: u in r.vms <==> u in r.source.vms || u in r.destination.vms)
    && (forall w :: w in r.wildcards <==> w in r.source.wildcards || w in r.destination.wildcards)
    && (forall t <- r.tags :: t in r.source.tags || t in r.destination.tags)
    && (forall t :: t in r.source.tags || t in r.destination.tags ==> t in r.tags || TagKey(t.key) in r.tags)
    && (forall t <- r.tags :: t.TagPair? ==> t.value != "")
  }

  ghost predicate ParsedRules(rules: seq<Rule>) {
    forall r <- rules :: ParsedRule(r)
  }

  ghost predicate DistinctRules(rules: seq<Rule>) {
    forall i, j :: 0 <= i < j < |rules| ==> rules[i].uuid != rules[j].uuid
  }

  ghost predicate DistinctVMs(vms: seq<VM>) {
    forall i, j :: 0 <= i < j < |vms| ==> vms[i].uuid != vms[j].uuid
  }
}
