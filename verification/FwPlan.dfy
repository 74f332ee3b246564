/** What the ipf configuration of one VM is, as functions of the rule list and the VM lists. */
module FwPlan {
  import opened FwLookup
  import opened FwOrder
  import opened FwTypes
  import opened Options
  import Sorting

  // ---- rule objects ----

  function ReadTags(rule: Rule, logger: bool): Option<ReadTag> {
    if logger then Some(ReadTag(rule.uuid, rule.log)) else None
  }

  function ProtoLines(rule: Rule, dir: Direction, remote: Remote, targets: seq<ProtoTarget>): seq<Line> {
    if targets == [] then [] else
    ProtoLines(rule, dir, remote, targets[..|targets| - 1])
      + [Line(rule.action, dir, rule.protocol, remote, targets[|targets| - 1])]
  }

  predicate IsV6(t: NetTarget) {
    BaseAddr(t).V6?
  }

  /** ICMPv4 lines are never written for IPv6 targets, nor ICMPv6 lines for IPv4 targets. */
  predicate WrongFamily(p: Protocol, v6: bool) {
    (v6 && p.Icmp?) || (!v6 && p.Icmp6?)
  }

  function TargetLines(rule: Rule, dir: Direction, targets: seq<NetTarget>, v6: bool): seq<Line> {
    if targets == [] then [] else
    var front := TargetLines(rule, dir, targets[..|targets| - 1], v6);
    var t := targets[|targets| - 1];
    if IsV6(t) == v6 && !WrongFamily(rule.protocol, v6)
    then front + ProtoLines(rule, dir, At(t), rule.protoTargets)
    else front
  }

  function ObjLines(rule: Rule, dir: Direction, targets: seq<NetTarget>, origin: Origin, v6: bool): seq<Line> {
    if origin == WildcardOrigin(Any) then
      if WrongFamily(rule.protocol, v6) then [] else ProtoLines(rule, dir, AnyRemote, rule.protoTargets)
    else TargetLines(rule, dir, targets, v6)
  }

  function RuleObj(rule: Rule, dir: Direction, targets: seq<NetTarget>, origin: Origin, logger: bool): SortObj {
    SortObj(
      rule.action, dir, rule.priority, rule.protocol,
      Header(rule.uuid, rule.version, origin),
      ObjLines(rule, dir, targets, origin, false),
      ObjLines(rule, dir, targets, origin, true),
      targets, rule.protoTargets, ReadTags(rule, logger))
  }

  // ---- the VMs on one side of a rule ----

  /** An owned rule applies only to VMs with the same owner. */
  predicate OwnerMatches(rule: Rule, vm: VM) {
    rule.owner.None? || vm.owner == rule.owner
  }

  function TagTargets(tags: seq<TagTarget>): (ts: seq<Target>)
    ensures |ts| == |tags| && forall i :: 0 <= i < |tags| ==> ts[i] == OnTag(tags[i])
  {
    seq(|tags|, i requires 0 <= i < |tags| => OnTag(tags[i]))
  }

  function VmTargets(vms: seq<Uuid>): (ts: seq<Target>)
    ensures |ts| == |vms| && forall i :: 0 <= i < |vms| ==> ts[i] == OnVm(vms[i])
  {
    seq(|vms|, i requires 0 <= i < |vms| => OnVm(vms[i]))
  }

  function WildcardTargets(wildcards: seq<Wildcard>): (ts: seq<Target>)
    ensures |ts| == |wildcards| && forall i :: 0 <= i < |wildcards| ==> ts[i] == OnWildcard(wildcards[i])
  {
    seq(|wildcards|, i requires 0 <= i < |wildcards| => OnWildcard(wildcards[i]))
  }

  function IpTargets(ips: seq<Addr>): (ts: seq<Target>)
    ensures |ts| == |ips| && forall i :: 0 <= i < |ips| ==> ts[i] == OnIp(ips[i])
  {
    seq(|ips|, i requires 0 <= i < |ips| => OnIp(ips[i]))
  }

  /** The targets of a side in the order vmsOnSide walks them. */
  function SideTargets(side: Side): seq<Target> {
    VmTargets(side.vms) + TagTargets(side.tags) + WildcardTargets(side.wildcards)
  }

  function OwnedUuids(found: seq<VM>, rule: Rule): seq<Uuid> {
    if found == [] then [] else
    var front := OwnedUuids(found[..|found| - 1], rule);
    var vm := found[|found| - 1];
    if OwnerMatches(rule, vm) then front + [vm.uuid] else front
  }

  function Collected(vms: seq<VM>, rule: Rule, targets: seq<Target>): seq<Uuid> {
    if targets == [] then [] else
    Collected(vms, rule, targets[..|targets| - 1]) + OwnedUuids(Scan(vms, targets[|targets| - 1]), rule)
  }

  function UuidsOnSide(vms: seq<VM>, rule: Rule, dir: Direction): seq<Uuid> {
    Collected(vms, rule, SideTargets(rule.On(dir)))
  }

  // ---- the objects for the opposite side ----

  /** The other side is looser: a VM without an owner is let through an owned rule. */
  predicate OwnerCompatible(rule: Rule, vm: VM) {
    rule.owner.None? || vm.owner.None? || vm.owner == rule.owner
  }

  /** The order rulesFromOtherSide walks tags, VMs and wildcards in. */
  function OtherTargets(side: Side): seq<Target> {
    TagTargets(side.tags) + VmTargets(side.vms) + WildcardTargets(side.wildcards)
  }

  function OriginOf(t: Target): Origin {
    match t
    case OnIp(ip) => IpOrigin(ip)
    case OnTag(TagKey(key)) => TagOrigin(key)
    case OnTag(TagPair(key, _)) => TagValueOrigin(key)
    case OnVm(uuid) => VmOrigin(uuid)
    case OnWildcard(w) => WildcardOrigin(w)
  }

  function Hosts(ips: seq<Addr>): (ts: seq<NetTarget>)
    ensures |ts| == |ips| && forall i :: 0 <= i < |ips| ==> ts[i] == Host(ips[i])
  {
    seq(|ips|, i requires 0 <= i < |ips| => Host(ips[i]))
  }

  function IpObjs(rule: Rule, dir: Direction, ips: seq<Addr>, logger: bool): seq<SortObj> {
    if ips == [] then [] else
    var ip := ips[|ips| - 1];
    IpObjs(rule, dir, ips[..|ips| - 1], logger) + [RuleObj(rule, dir, [Host(ip)], IpOrigin(ip), logger)]
  }

  function SubnetObjs(rule: Rule, dir: Direction, subnets: seq<Subnet>, logger: bool): seq<SortObj> {
    if subnets == [] then [] else
    var s := subnets[|subnets| - 1];
    SubnetObjs(rule, dir, subnets[..|subnets| - 1], logger) + [RuleObj(rule, dir, [Net(s)], SubnetOrigin(s), logger)]
  }

  function VmObjs(rule: Rule, dir: Direction, found: seq<VM>, origin: Origin, logger: bool): seq<SortObj> {
    if found == [] then [] else
    var front := VmObjs(rule, dir, found[..|found| - 1], origin, logger);
    var vm := found[|found| - 1];
    if !OwnerCompatible(rule, vm) || vm.ips == [] then front
    else front + [RuleObj(rule, dir, Hosts(vm.ips), origin, logger)]
  }

  function NamedObjs(rule: Rule, dir: Direction, targets: seq<Target>, vms: seq<VM>, remotes: Remotes,
                     logger: bool): seq<SortObj> {
    if targets == [] then [] else
    var t := targets[|targets| - 1];
    NamedObjs(rule, dir, targets[..|targets| - 1], vms, remotes, logger)
      + VmObjs(rule, dir, Scan(vms, t), OriginOf(t), logger)
      + VmObjs(rule, dir, remotes.Find(t), OriginOf(t), logger)
  }

  function OtherSideObjs(rule: Rule, dir: Direction, vms: seq<VM>, remotes: Remotes, logger: bool): seq<SortObj> {
    var other := rule.On(Opposite(dir));
    if Any in other.wildcards then [RuleObj(rule, dir, [Host(V4(0))], WildcardOrigin(Any), logger)]
    else
      IpObjs(rule, dir, other.ips, logger)
      + SubnetObjs(rule, dir, other.subnets, logger)
      + NamedObjs(rule, dir, OtherTargets(other), vms, remotes, logger)
  }

  // ---- the objects of one VM ----

  /** Priority-0 rules that only restate the default policy are not written. */
  predicate NoRulesNeeded(dir: Direction, rule: Rule) {
    rule.priority == 0 && ((dir == From && rule.action == Allow) || (dir == To && rule.action == Block))
  }

  function Count(s: seq<Uuid>, v: Uuid): nat {
    if s == [] then 0
    else Count(s[..|s| - 1], v) + if s[|s| - 1] == v then 1 else 0
  }

  function Repeat(s: seq<SortObj>, n: nat): seq<SortObj> {
    if n == 0 then [] else Repeat(s, n - 1) + s
  }

  function DirObjs(v: Uuid, rule: Rule, dir: Direction, vms: seq<VM>, remotes: Remotes, logger: bool): seq<SortObj> {
    if NoRulesNeeded(dir, rule) then []
    else Repeat(OtherSideObjs(rule, dir, vms, remotes, logger), Count(UuidsOnSide(vms, rule, dir), v))
  }

  function Contribution(v: Uuid, rule: Rule, vms: seq<VM>, remotes: Remotes, logger: bool): seq<SortObj> {
    if !rule.enabled then []
    else DirObjs(v, rule, From, vms, remotes, logger) + DirObjs(v, rule, To, vms, remotes, logger)
  }

  /** conf[v] before sorting. */
  function ConfObjs(v: Uuid, rules: seq<Rule>, vms: seq<VM>, remotes: Remotes, logger: bool): seq<SortObj> {
    if rules == [] then [] else
    ConfObjs(v, rules[..|rules| - 1], vms, remotes, logger)
      + Contribution(v, rules[|rules| - 1], vms, remotes, logger)
  }

  /** The protocols whose outbound traffic some enabled rule blocks for v. */
  function InboundState(v: Uuid, rules: seq<Rule>, vms: seq<VM>): set<Protocol> {
    if rules == [] then {} else
    var front := InboundState(v, rules[..|rules| - 1], vms);
    var r := rules[|rules| - 1];
    if r.enabled && r.action == Block && v in UuidsOnSide(vms, r, From) then front + {r.protocol} else front
  }

  // ---- the file text ----

  datatype Text =
    | Comment(header: Header)
    | Quick(line: Line, keepState: bool, tags: Option<ReadTag>)
    | Fallback(action: Action, direction: Direction, quick: bool, protocol: Option<Protocol>, synOnly: bool,
               keepState: bool)

  datatype Conf = Conf(v4: seq<Text>, v6: seq<Text>)

  /** The lines after '# fwadm fallbacks' in ipf.conf, or in ipf6.conf. */
  function Fallbacks(v6: bool): seq<Text> {
    var icmp := if v6 then Icmp6 else Icmp;
    [ Fallback(Block, To, false, None, false, false),
      Fallback(Allow, From, true, Some(Tcp), true, true),
      Fallback(Allow, From, false, Some(Tcp), false, false),
      Fallback(Allow, From, false, Some(Udp), false, true),
      Fallback(Allow, From, true, Some(icmp), false, true),
      Fallback(Allow, From, false, Some(icmp), false, false) ]
  }

  predicate KeepsState(o: SortObj, iks: set<Protocol>) {
    o.tags.Some? || (o.direction == From && o.action == Allow) || (o.direction == To && o.protocol in iks)
  }

  function Suffixed(lines: seq<Line>, keepState: bool, tags: Option<ReadTag>): (ts: seq<Text>)
    ensures |ts| == |lines| && forall i :: 0 <= i < |lines| ==> ts[i] == Quick(lines[i], keepState, tags)
  {
    seq(|lines|, i requires 0 <= i < |lines| => Quick(lines[i], keepState, tags))
  }

  function Body(objs: seq<SortObj>, iks: set<Protocol>, v6: bool): seq<Text> {
    if objs == [] then [] else
    var o := objs[|objs| - 1];
    Body(objs[..|objs| - 1], iks, v6)
      + [Comment(o.header)] + Suffixed(if v6 then o.v6 else o.v4, KeepsState(o, iks), o.tags)
  }

  function ConfOf(sorted: seq<SortObj>, iks: set<Protocol>): Conf {
    Conf(Body(sorted, iks, false) + Fallbacks(false), Body(sorted, iks, true) + Fallbacks(true))
  }

  /** The configuration that v gets from these rules and VMs, with the remote VMs read in either way. */
  function ConfFrom(v: Uuid, rules: seq<Rule>, vms: seq<VM>, remotes: Remotes, logger: bool): Conf {
    ConfOf(Sorting.Sort(ConfObjs(v, rules, vms, remotes, logger), Before), InboundState(v, rules, vms))
  }

  /** The configuration a rebuild from these rules and VMs gives to v. */
  function FullConf(v: Uuid, rules: seq<Rule>, vms: seq<VM>, rvms: seq<VM>, logger: bool): Conf {
    ConfFrom(v, rules, vms, Listed(rvms), logger)
  }

  // ---- plain statements of the above ----

  /** v's VM satisfies one of a side's name, tag, tag-value or all-VMs tests, and the owner test. */
  ghost predicate OnSide(vm: VM, rule: Rule, dir: Direction) {
    var side := rule.On(dir);
    && OwnerMatches(rule, vm)
    && (|| vm.uuid in side.vms
        || VmAll in side.wildcards
        || exists t :: t in side.tags && Selects(OnTag(t), vm))
  }

  lemma {:induction false} OwnedUuidsMembers(found: seq<VM>, rule: Rule)
    ensures forall u :: u in OwnedUuids(found, rule) <==>
      exists vm :: vm in found && vm.uuid == u && OwnerMatches(rule, vm)
  {
    if found != [] {
      var front, last := found[..|found| - 1], found[|found| - 1];
      OwnedUuidsMembers(front, rule);
      assert found == front + [last];
    }
  }

  lemma {:induction false} CollectedMembers(vms: seq<VM>, rule: Rule, targets: seq<Target>)
    ensures forall u :: u in Collected(vms, rule, targets) <==>
      exists t, vm :: t in targets && vm in vms && Selects(t, vm) && vm.uuid == u && OwnerMatches(rule, vm)
  {
    if targets != [] {
      var front, last := targets[..|targets| - 1], targets[|targets| - 1];
      CollectedMembers(vms, rule, front);
      OwnedUuidsMembers(Scan(vms, last), rule);
      InScan(vms, last);
      assert targets == front + [last];
      forall u ensures u in Collected(vms, rule, targets) <==>
        exists t, vm :: t in targets && vm in vms && Selects(t, vm) && vm.uuid == u && OwnerMatches(rule, vm)
      {
        if u in OwnedUuids(Scan(vms, last), rule) {
          var vm :| vm in Scan(vms, last) && vm.uuid == u && OwnerMatches(rule, vm);
          assert last in targets && Selects(last, vm);
        }
      }
    }
  }

  /** vmsOnSide agrees with a plain scan of the VM list. */
  lemma UuidsOnSideIsScan(vms: seq<VM>, rule: Rule, dir: Direction, u: Uuid)
    ensures u in UuidsOnSide(vms, rule, dir) <==> exists vm :: vm in vms && vm.uuid == u && OnSide(vm, rule, dir)
  {
    var side := rule.On(dir);
    var targets := SideTargets(side);
    CollectedMembers(vms, rule, targets);
    SideTargetsMembers(side);
    forall vm ensures OnSide(vm, rule, dir) <==>
      OwnerMatches(rule, vm) && exists t :: t in targets && Selects(t, vm)
    {
      if VmAll in side.wildcards {
        assert OnWildcard(VmAll) in targets && Selects(OnWildcard(VmAll), vm);
      }
      if vm.uuid in side.vms {
        assert OnVm(vm.uuid) in targets && Selects(OnVm(vm.uuid), vm);
      }
    }
  }

  lemma SideTargetsMembers(side: Side)
    ensures forall t :: t in SideTargets(side) <==>
      match t
      case OnIp(_) => false
      case OnTag(tag) => tag in side.tags
      case OnVm(u) => u in side.vms
      case OnWildcard(w) => w in side.wildcards
    ensures forall t :: t in SideTargets(side) <==> t in OtherTargets(side)
  {
    TargetMembers([], side.tags, side.vms, side.wildcards);
  }

  lemma TargetMembers(ips: seq<Addr>, tags: seq<TagTarget>, vms: seq<Uuid>, wildcards: seq<Wildcard>)
    ensures forall ip :: OnIp(ip) in IpTargets(ips) <==> ip in ips
    ensures forall t :: OnTag(t) in TagTargets(tags) <==> t in tags
    ensures forall u :: OnVm(u) in VmTargets(vms) <==> u in vms
    ensures forall w :: OnWildcard(w) in WildcardTargets(wildcards) <==> w in wildcards
  {
    forall ip | ip in ips ensures OnIp(ip) in IpTargets(ips) {
      var i :| 0 <= i < |ips| && ips[i] == ip;
      assert IpTargets(ips)[i] == OnIp(ip);
    }
    forall t | t in tags ensures OnTag(t) in TagTargets(tags) {
      var i :| 0 <= i < |tags| && tags[i] == t;
      assert TagTargets(tags)[i] == OnTag(t);
    }
    forall u | u in vms ensures OnVm(u) in VmTargets(vms) {
      var i :| 0 <= i < |vms| && vms[i] == u;
      assert VmTargets(vms)[i] == OnVm(u);
    }
    forall w | w in wildcards ensures OnWildcard(w) in WildcardTargets(wildcards) {
      var i :| 0 <= i < |wildcards| && wildcards[i] == w;
      assert WildcardTargets(wildcards)[i] == OnWildcard(w);
    }
  }

  lemma {:induction false} CountZero(s: seq<Uuid>, v: Uuid)
    ensures Count(s, v) == 0 <==> v !in s
  {
    if s != [] {
      CountZero(s[..|s| - 1], v);
      assert s == s[..|s| - 1] + [s[|s| - 1]];
    }
  }
}
