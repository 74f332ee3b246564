/** The ipf rule objects and the order prepareIPFdata sorts them in. */
module FwOrder {
  import opened FwTypes
  import opened Options
  import opened Sorting

  /** What stands in the target position of an ipf line: an address or a subnet. */
  datatype NetTarget = Host(addr: Addr) | Net(subnet: Subnet)

  datatype Remote = AnyRemote | At(target: NetTarget)

  /** One line of v4text or v6text, before the keep-state suffix is appended. */
  datatype Line = Line(
    action: Action,
    direction: Direction,
    protocol: Protocol,
    remote: Remote,
    target: ProtoTarget)

  /** The target that produced a rule object, as printed in its header comment. */
  datatype Origin =
    | WildcardOrigin(wildcard: Wildcard)
    | IpOrigin(ip: Addr)
    | SubnetOrigin(subnet: Subnet)
    | TagOrigin(key: string)
    | TagValueOrigin(key: string)
    | VmOrigin(uuid: Uuid)

  datatype Header = Header(uuid: Uuid, version: string, origin: Origin)

  /** The set-tag(...) text: the rule's uuid, and cfwlog when the rule is logged. */
  datatype ReadTag = ReadTag(uuid: Uuid, cfwlog: bool)

  datatype SortObj = SortObj(
    action: Action,
    direction: Direction,
    priority: nat,
    protocol: Protocol,
    header: Header,
    v4: seq<Line>,
    v6: seq<Line>,
    targets: seq<NetTarget>,
    protoTargets: seq<ProtoTarget>,
    tags: Option<ReadTag>)

  predicate WellFormedObj(o: SortObj) {
    && o.targets != []
    && o.protoTargets != []
    && forall i :: 0 <= i < |o.protoTargets| ==> WellFormedProtoTarget(o.protocol, o.protoTargets[i])
  }

  // ---- the comparison, branch by branch ----

  /** The position of a protocol name in string order. */
  function ProtocolRank(p: Protocol): nat {
    match p
    case Ah => 0
    case Esp => 1
    case Icmp => 2
    case Icmp6 => 3
    case Tcp => 4
    case Udp => 5
  }

  function FirstPort(p: ProtoTarget): int
    requires p.Port? || p.PortRange?
  {
    if p.PortRange? then p.start else p.port
  }

  function ComparePorts(p1: ProtoTarget, p2: ProtoTarget): int
    requires !p1.IcmpType? && !p1.IcmpTypeCode?
    requires !p2.IcmpType? && !p2.IcmpTypeCode?
  {
    if p1.AllTargets? then
      if p2.AllTargets? then 0 else -1
    else if p2.AllTargets? then 1
    else FirstPort(p1) - FirstPort(p2)
  }

  function CompareTypes(t1: ProtoTarget, t2: ProtoTarget): int
    requires !t1.Port? && !t1.PortRange?
    requires !t2.Port? && !t2.PortRange?
  {
    if t1.AllTargets? then
      if t2.AllTargets? then 0 else -1
    else if t2.AllTargets? then 1
    else
      var c: int := t1.icmpType - t2.icmpType;
      if c != 0 then c
      else if t1.IcmpType? then
        if t2.IcmpType? then 0 else -1
      else if t2.IcmpType? then 1
      else t1.code - t2.code
  }

  /** An address as its eight 16-bit IPv6 fields, most significant first: IPv4 is mapped. */
  function AddrKey(a: Addr): nat {
    match a
    case V4(bits) => 0xffff_0000_0000 + bits
    case V6(bits) => bits
  }

  function BaseAddr(t: NetTarget): Addr {
    match t
    case Host(addr) => addr
    case Net(subnet) => subnet.base
  }

  function CompareAddrs(a1: NetTarget, a2: NetTarget): int {
    var k1, k2 := AddrKey(BaseAddr(a1)), AddrKey(BaseAddr(a2));
    if k1 < k2 then -1 else if k1 > k2 then 1 else 0
  }

  function CompareRules(r1: SortObj, r2: SortObj): int
    requires WellFormedObj(r1) && WellFormedObj(r2)
  {
    if ProtocolRank(r1.protocol) < ProtocolRank(r2.protocol) then -1
    else if ProtocolRank(r1.protocol) > ProtocolRank(r2.protocol) then 1
    else if r1.direction == From && r2.direction == To then -1
    else if r1.direction == To && r2.direction == From then 1
    else if r1.priority < r2.priority then 1
    else if r1.priority > r2.priority then -1
    else if r1.direction == From && r1.action == Allow && r2.action == Block then 1
    else if r1.direction == From && r2.action == Allow && r1.action == Block then -1
    else if r1.direction == To && r1.action == Allow && r2.action == Block then -1
    else if r1.direction == To && r2.action == Allow && r1.action == Block then 1
    else
      var res :=
        if IsIcmp(r1.protocol) then CompareTypes(r1.protoTargets[0], r2.protoTargets[0])
        else ComparePorts(r1.protoTargets[0], r2.protoTargets[0]);
      if res != 0 then res else CompareAddrs(r1.targets[0], r2.targets[0])
  }

  // ---- it is a total preorder ----

  lemma CompareRulesAntisymmetric(a: SortObj, b: SortObj)
    requires WellFormedObj(a) && WellFormedObj(b)
    ensures CompareRules(a, b) < 0 <==> CompareRules(b, a) > 0
    ensures CompareRules(a, b) == 0 <==> CompareRules(b, a) == 0
  {
    assert a.protocol == b.protocol <==> ProtocolRank(a.protocol) == ProtocolRank(b.protocol);
  }

  lemma CompareRulesTransitive(a: SortObj, b: SortObj, c: SortObj)
    requires WellFormedObj(a) && WellFormedObj(b) && WellFormedObj(c)
    requires CompareRules(a, b) <= 0 && CompareRules(b, c) <= 0
    ensures CompareRules(a, c) <= 0
    ensures CompareRules(a, c) == 0 ==> CompareRules(a, b) == 0 && CompareRules(b, c) == 0
  {
    if ProtocolRank(a.protocol) == ProtocolRank(c.protocol) {
      assert a.protocol == b.protocol == c.protocol;
    }
  }

  // ---- what the order is for ----

  /** Whether an action prevails at equal priority: allow inbound, block outbound. */
  predicate Prevails(dir: Direction, action: Action) {
    (dir.To? && action.Allow?) || (dir.From? && action.Block?)
  }

  /** a must win over b: higher priority, or the prevailing action at equal priority. */
  predicate MustWin(a: SortObj, b: SortObj) {
    && a.protocol == b.protocol
    && a.direction == b.direction
    && (a.priority > b.priority
        || (a.priority == b.priority && Prevails(a.direction, a.action) && !Prevails(b.direction, b.action)))
  }

  /** The order as a relation, for sorting. */
  predicate Before(a: SortObj, b: SortObj) {
    WellFormedObj(a) && WellFormedObj(b) && CompareRules(a, b) <= 0
  }

  ghost predicate WellFormedObjs(s: seq<SortObj>) {
    forall i :: 0 <= i < |s| ==> WellFormedObj(s[i])
  }

  /** In any list sorted by compareRules, no rule stands before one that must win over it. */
  lemma WinnersComeFirst(s: seq<SortObj>, i: nat, j: nat)
    requires SortedBy(s, Before)
    requires i < j < |s|
    ensures !MustWin(s[j], s[i])
  {
    assert Before(s[i], s[j]);
  }

  lemma BeforeIsPreorder(s: seq<SortObj>)
    requires WellFormedObjs(s)
    ensures PreorderOn(s, Before)
  {
    forall a, b | a in s && b in s ensures Before(a, b) || Before(b, a) {
      CompareRulesAntisymmetric(a, b);
    }
    forall a, b, c | a in s && b in s && c in s && Before(a, b) && Before(b, c) ensures Before(a, c) {
      CompareRulesTransitive(a, b, c);
    }
  }
}
