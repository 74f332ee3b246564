/** Compilation preserves meaning: ipf's first-match evaluation of a generated file
 *  gives the decision the rule language promises.
 */
module FwSemantics {
  import opened FwLookup
  import opened FwOrder
  import opened FwPlan
  import opened FwTypes
  import opened Options
  import opened Sorting

  /** Traffic of one VM: direction From leaves the VM, To enters it; remote is the other end. */
  datatype Packet = Packet(
    direction: Direction,
    protocol: Protocol,
    remote: Addr,
    port: nat,
    icmpType: nat,
    icmpCode: nat,
    syn: bool)

  // ---- what one line matches ----

  function Pow2(n: nat): (p: nat)
    ensures p > 0
  {
    if n == 0 then 1 else 2 * Pow2(n - 1)
  }

  predicate InSubnet(s: Subnet, a: Addr) {
    var width := if a.V6? then 128 else 32;
    var block := Pow2(if s.prefix <= width then width - s.prefix else 0);
    s.base.V6? == a.V6? && a.bits / block == s.base.bits / block
  }

  predicate NetMatches(t: NetTarget, a: Addr) {
    match t
    case Host(addr) => addr == a
    case Net(subnet) => InSubnet(subnet, a)
  }

  predicate RemoteMatches(r: Remote, a: Addr) {
    match r
    case AnyRemote => true
    case At(t) => NetMatches(t, a)
  }

  predicate ProtoMatches(t: ProtoTarget, pkt: Packet) {
    match t
    case AllTargets => true
    case Port(port) => pkt.port == port
    case PortRange(start, end) => start <= pkt.port <= end
    case IcmpType(icmpType) => pkt.icmpType == icmpType
    case IcmpTypeCode(icmpType, code) => pkt.icmpType == icmpType && pkt.icmpCode == code
  }

  predicate LineMatches(l: Line, pkt: Packet) {
    && l.direction == pkt.direction
    && l.protocol == pkt.protocol
    && RemoteMatches(l.remote, pkt.remote)
    && ProtoMatches(l.target, pkt)
  }

  // ---- ipf ----

  predicate TextMatches(t: Text, pkt: Packet) {
    match t
    case Comment(_) => false
    case Quick(line, _, _) => LineMatches(line, pkt)
    case Fallback(_, dir, _, protocol, synOnly, _) =>
      dir == pkt.direction && (protocol.Some? ==> protocol.value == pkt.protocol) && (synOnly ==> pkt.syn)
  }

  function TextAction(t: Text): Action
    requires !t.Comment?
  {
    match t
    case Quick(line, _, _) => line.action
    case Fallback(action, _, _, _, _, _) => action
  }

  /** The first matching quick line decides; failing that the last matching line; failing that
   *  what was decided before the list, which for a whole file is the kernel's own default. */
  function Evaluate(list: seq<Text>, pkt: Packet, decided: Action): Action {
    if list == [] then decided
    else if !TextMatches(list[0], pkt) then Evaluate(list[1..], pkt, decided)
    else if list[0].Quick? || list[0].quick then TextAction(list[0])
    else Evaluate(list[1..], pkt, TextAction(list[0]))
  }

  /** The file a packet is evaluated against. */
  function FileFor(conf: Conf, pkt: Packet): seq<Text> {
    if pkt.remote.V6? then conf.v6 else conf.v4
  }

  // ---- the policy ----

  ghost predicate NamedBy(side: Side, vm: VM) {
    || vm.uuid in side.vms
    || VmAll in side.wildcards
    || exists t :: t in side.tags && Selects(OnTag(t), vm)
  }

  /** Whether an address is among the targets of a side, directly or as an address of a VM. */
  ghost predicate Reaches(rule: Rule, side: Side, a: Addr, vms: seq<VM>, rvms: seq<VM>) {
    || Any in side.wildcards
    || a in side.ips
    || (exists s :: s in side.subnets && InSubnet(s, a))
    || (exists vm :: (vm in vms || vm in rvms) && NamedBy(side, vm) && OwnerCompatible(rule, vm) && a in vm.ips)
  }

  ghost predicate SomeProtoMatches(rule: Rule, pkt: Packet) {
    exists t :: t in rule.protoTargets && ProtoMatches(t, pkt)
  }

  ghost predicate Applies(rule: Rule, v: Uuid, pkt: Packet, vms: seq<VM>, rvms: seq<VM>) {
    && rule.enabled
    && (exists vm :: vm in vms && vm.uuid == v && OnSide(vm, rule, pkt.direction))
    && rule.protocol == pkt.protocol
    && SomeProtoMatches(rule, pkt)
    && Reaches(rule, rule.On(Opposite(pkt.direction)), pkt.remote, vms, rvms)
  }

  /** a beats b: a higher priority, or at equal priority the prevailing action. */
  predicate Overrides(dir: Direction, a: Rule, b: Rule) {
    a.priority > b.priority || (a.priority == b.priority && Prevails(dir, a.action) && !Prevails(dir, b.action))
  }

  function DefaultAction(dir: Direction): Action {
    if dir.To? then Block else Allow
  }

  /** The action of an applicable rule that no applicable rule overrides, or else the default. */
  ghost predicate PolicyDecides(action: Action, rules: seq<Rule>, v: Uuid, pkt: Packet, vms: seq<VM>, rvms: seq<VM>) {
    || (exists r :: r in rules && Unbeaten(r, rules, v, pkt, vms, rvms) && r.action == action)
    || (action == DefaultAction(pkt.direction) && forall r :: r in rules ==> !Applies(r, v, pkt, vms, rvms))
  }

  ghost predicate Unbeaten(r: Rule, rules: seq<Rule>, v: Uuid, pkt: Packet, vms: seq<VM>, rvms: seq<VM>) {
    && Applies(r, v, pkt, vms, rvms)
    && forall o :: o in rules && Applies(o, v, pkt, vms, rvms) ==> !Overrides(pkt.direction, o, r)
  }

  lemma PolicyIsFunctional(a: Action, b: Action, rules: seq<Rule>, v: Uuid, pkt: Packet, vms: seq<VM>, rvms: seq<VM>)
    requires PolicyDecides(a, rules, v, pkt, vms, rvms)
    requires PolicyDecides(b, rules, v, pkt, vms, rvms)
    ensures a == b
  {
  }

  // ---- which objects match a packet ----

  ghost predicate HasMatch(lines: seq<Line>, pkt: Packet) {
    exists l :: l in lines && LineMatches(l, pkt)
  }

  function LinesFor(o: SortObj, pkt: Packet): seq<Line> {
    if pkt.remote.V6? then o.v6 else o.v4
  }

  ghost predicate ObjMatches(o: SortObj, pkt: Packet) {
    HasMatch(LinesFor(o, pkt), pkt)
  }

  lemma {:induction false} ProtoLinesMatch(rule: Rule, dir: Direction, remote: Remote, targets: seq<ProtoTarget>,
                              pkt: Packet)
    ensures HasMatch(ProtoLines(rule, dir, remote, targets), pkt) <==>
      && dir == pkt.direction && rule.protocol == pkt.protocol && RemoteMatches(remote, pkt.remote)
      && exists t :: t in targets && ProtoMatches(t, pkt)
  {
    if targets != [] {
      var front, last := targets[..|targets| - 1], targets[|targets| - 1];
      ProtoLinesMatch(rule, dir, remote, front, pkt);
      assert targets == front + [last];
      assert LineMatches(Line(rule.action, dir, rule.protocol, remote, last), pkt) <==>
        && dir == pkt.direction && rule.protocol == pkt.protocol
        && RemoteMatches(remote, pkt.remote) && ProtoMatches(last, pkt);
      HasMatchConcat(ProtoLines(rule, dir, remote, front), [Line(rule.action, dir, rule.protocol, remote, last)], pkt);
    }
  }

  lemma HasMatchConcat(a: seq<Line>, b: seq<Line>, pkt: Packet)
    ensures HasMatch(a + b, pkt) <==> HasMatch(a, pkt) || HasMatch(b, pkt)
  {
  }

  lemma {:induction false} TargetLinesMatch(rule: Rule, dir: Direction, targets: seq<NetTarget>, pkt: Packet)
    requires !WrongFamily(pkt.protocol, pkt.remote.V6?)
    ensures HasMatch(TargetLines(rule, dir, targets, pkt.remote.V6?), pkt) <==>
      && dir == pkt.direction && rule.protocol == pkt.protocol && SomeProtoMatches(rule, pkt)
      && exists t :: t in targets && NetMatches(t, pkt.remote)
  {
    if targets != [] {
      var front, last := targets[..|targets| - 1], targets[|targets| - 1];
      TargetLinesMatch(rule, dir, front, pkt);
      assert targets == front + [last];
      ProtoLinesMatch(rule, dir, At(last), rule.protoTargets, pkt);
      HasMatchConcat(TargetLines(rule, dir, front, pkt.remote.V6?),
                     ProtoLines(rule, dir, At(last), rule.protoTargets), pkt);
    }
  }

  /** A rule object matches exactly the packets its rule and targets describe. */
  lemma RuleObjMatches(rule: Rule, dir: Direction, targets: seq<NetTarget>, origin: Origin, logger: bool, pkt: Packet)
    requires !WrongFamily(pkt.protocol, pkt.remote.V6?)
    ensures ObjMatches(RuleObj(rule, dir, targets, origin, logger), pkt) <==>
      && dir == pkt.direction && rule.protocol == pkt.protocol && SomeProtoMatches(rule, pkt)
      && (origin == WildcardOrigin(Any) || exists t :: t in targets && NetMatches(t, pkt.remote))
  {
    if origin == WildcardOrigin(Any) {
      ProtoLinesMatch(rule, dir, AnyRemote, rule.protoTargets, pkt);
    } else {
      TargetLinesMatch(rule, dir, targets, pkt);
    }
  }

  ghost predicate UniformLines(lines: seq<Line>, action: Action) {
    forall l :: l in lines ==> l.action == action
  }

  /** The fields every object of a rule and direction shares. */
  ghost predicate ObjOf(o: SortObj, rule: Rule, dir: Direction) {
    && o.action == rule.action && o.direction == dir && o.priority == rule.priority && o.protocol == rule.protocol
    && o.protoTargets == rule.protoTargets && o.targets != []
    && UniformLines(o.v4, rule.action) && UniformLines(o.v6, rule.action)
  }

  lemma {:induction false} ProtoLinesAction(rule: Rule, dir: Direction, remote: Remote, targets: seq<ProtoTarget>)
    ensures UniformLines(ProtoLines(rule, dir, remote, targets), rule.action)
  {
    if targets != [] { ProtoLinesAction(rule, dir, remote, targets[..|targets| - 1]); }
  }

  lemma {:induction false} TargetLinesAction(rule: Rule, dir: Direction, targets: seq<NetTarget>, v6: bool)
    ensures UniformLines(TargetLines(rule, dir, targets, v6), rule.action)
  {
    if targets != [] {
      TargetLinesAction(rule, dir, targets[..|targets| - 1], v6);
      ProtoLinesAction(rule, dir, At(targets[|targets| - 1]), rule.protoTargets);
    }
  }

  lemma RuleObjOf(rule: Rule, dir: Direction, targets: seq<NetTarget>, origin: Origin, logger: bool)
    requires targets != []
    ensures ObjOf(RuleObj(rule, dir, targets, origin, logger), rule, dir)
  {
    ProtoLinesAction(rule, dir, AnyRemote, rule.protoTargets);
    TargetLinesAction(rule, dir, targets, false);
    TargetLinesAction(rule, dir, targets, true);
  }

  // ---- the objects of the opposite side match what the policy says the rule reaches ----

  ghost predicate SomeMatch(objs: seq<SortObj>, pkt: Packet) {
    exists o :: o in objs && ObjMatches(o, pkt)
  }

  ghost predicate AllOf(objs: seq<SortObj>, rule: Rule, dir: Direction) {
    forall o :: o in objs ==> ObjOf(o, rule, dir)
  }

  /** The part of a match that does not depend on the remote address. */
  ghost predicate Relevant(rule: Rule, dir: Direction, pkt: Packet) {
    dir == pkt.direction && rule.protocol == pkt.protocol && SomeProtoMatches(rule, pkt)
  }

  lemma SomeMatchConcat(a: seq<SortObj>, b: seq<SortObj>, pkt: Packet)
    ensures SomeMatch(a + b, pkt) <==> SomeMatch(a, pkt) || SomeMatch(b, pkt)
  {
  }

  lemma {:induction false} IpObjsMatch(rule: Rule, dir: Direction, ips: seq<Addr>, logger: bool, pkt: Packet)
    requires !WrongFamily(pkt.protocol, pkt.remote.V6?)
    ensures SomeMatch(IpObjs(rule, dir, ips, logger), pkt) <==> Relevant(rule, dir, pkt) && pkt.remote in ips
    ensures AllOf(IpObjs(rule, dir, ips, logger), rule, dir)
  {
    if ips != [] {
      var front, ip := ips[..|ips| - 1], ips[|ips| - 1];
      IpObjsMatch(rule, dir, front, logger, pkt);
      var o := RuleObj(rule, dir, [Host(ip)], IpOrigin(ip), logger);
      RuleObjMatches(rule, dir, [Host(ip)], IpOrigin(ip), logger, pkt);
      RuleObjOf(rule, dir, [Host(ip)], IpOrigin(ip), logger);
      assert Host(ip) in [Host(ip)];
      assert ips == front + [ip];
      SomeMatchConcat(IpObjs(rule, dir, front, logger), [o], pkt);
      assert o in [o];
    }
  }

  lemma {:induction false} SubnetObjsMatch(rule: Rule, dir: Direction, subnets: seq<Subnet>, logger: bool, pkt: Packet)
    requires !WrongFamily(pkt.protocol, pkt.remote.V6?)
    ensures SomeMatch(SubnetObjs(rule, dir, subnets, logger), pkt) <==>
      Relevant(rule, dir, pkt) && exists s :: s in subnets && InSubnet(s, pkt.remote)
    ensures AllOf(SubnetObjs(rule, dir, subnets, logger), rule, dir)
  {
    if subnets != [] {
      var front, s := subnets[..|subnets| - 1], subnets[|subnets| - 1];
      SubnetObjsMatch(rule, dir, front, logger, pkt);
      var o := RuleObj(rule, dir, [Net(s)], SubnetOrigin(s), logger);
      RuleObjMatches(rule, dir, [Net(s)], SubnetOrigin(s), logger, pkt);
      RuleObjOf(rule, dir, [Net(s)], SubnetOrigin(s), logger);
      assert Net(s) in [Net(s)];
      assert subnets == front + [s];
      SomeMatchConcat(SubnetObjs(rule, dir, front, logger), [o], pkt);
      assert o in [o];
    }
  }

  lemma HostsMatch(ips: seq<Addr>, a: Addr)
    ensures (exists t :: t in Hosts(ips) && NetMatches(t, a)) <==> a in ips
  {
    if a in ips {
      var i :| 0 <= i < |ips| && ips[i] == a;
      assert Hosts(ips)[i] in Hosts(ips) && NetMatches(Hosts(ips)[i], a);
    }
  }

  lemma {:induction false} VmObjsMatch(rule: Rule, dir: Direction, found: seq<VM>, origin: Origin, logger: bool,
                              pkt: Packet)
    requires !WrongFamily(pkt.protocol, pkt.remote.V6?)
    requires origin != WildcardOrigin(Any)
    ensures SomeMatch(VmObjs(rule, dir, found, origin, logger), pkt) <==>
      Relevant(rule, dir, pkt) && exists vm :: vm in found && OwnerCompatible(rule, vm) && pkt.remote in vm.ips
    ensures AllOf(VmObjs(rule, dir, found, origin, logger), rule, dir)
  {
    if found != [] {
      var front, vm := found[..|found| - 1], found[|found| - 1];
      VmObjsMatch(rule, dir, front, origin, logger, pkt);
      assert found == front + [vm];
      if OwnerCompatible(rule, vm) && vm.ips != [] {
        var o := RuleObj(rule, dir, Hosts(vm.ips), origin, logger);
        RuleObjMatches(rule, dir, Hosts(vm.ips), origin, logger, pkt);
        HostsMatch(vm.ips, pkt.remote);
        RuleObjOf(rule, dir, Hosts(vm.ips), origin, logger);
        SomeMatchConcat(VmObjs(rule, dir, front, origin, logger), [o], pkt);
        assert o in [o];
      }
    }
  }

  ghost predicate NamedIn(rule: Rule, targets: seq<Target>, a: Addr, vms: seq<VM>, rvms: seq<VM>) {
    exists t, vm :: t in targets && (vm in vms || vm in rvms) && Selects(t, vm)
                      && OwnerCompatible(rule, vm) && a in vm.ips
  }

  lemma {:induction false} NamedObjsMatch(rule: Rule, dir: Direction, targets: seq<Target>, vms: seq<VM>,
                              rvms: seq<VM>, logger: bool, pkt: Packet)
    requires !WrongFamily(pkt.protocol, pkt.remote.V6?)
    requires OnWildcard(Any) !in targets
    ensures SomeMatch(NamedObjs(rule, dir, targets, vms, Listed(rvms), logger), pkt) <==>
      Relevant(rule, dir, pkt) && NamedIn(rule, targets, pkt.remote, vms, rvms)
    ensures AllOf(NamedObjs(rule, dir, targets, vms, Listed(rvms), logger), rule, dir)
  {
    if targets != [] {
      var front, t := targets[..|targets| - 1], targets[|targets| - 1];
      assert targets == front + [t];
      assert OriginOf(t) != WildcardOrigin(Any);
      NamedObjsMatch(rule, dir, front, vms, rvms, logger, pkt);
      InScan(vms, t);
      InScan(rvms, t);
      var mine := VmObjs(rule, dir, Scan(vms, t), OriginOf(t), logger);
      var theirs := VmObjs(rule, dir, Scan(rvms, t), OriginOf(t), logger);
      VmObjsMatch(rule, dir, Scan(vms, t), OriginOf(t), logger, pkt);
      VmObjsMatch(rule, dir, Scan(rvms, t), OriginOf(t), logger, pkt);
      var objs := NamedObjs(rule, dir, front, vms, Listed(rvms), logger);
      SomeMatchConcat(objs, mine, pkt);
      SomeMatchConcat(objs + mine, theirs, pkt);
      NamedInSnoc(rule, front, t, pkt.remote, vms, rvms);
    }
  }

  lemma NamedInSnoc(rule: Rule, front: seq<Target>, t: Target, a: Addr, vms: seq<VM>, rvms: seq<VM>)
    ensures NamedIn(rule, front + [t], a, vms, rvms) <==>
      NamedIn(rule, front, a, vms, rvms)
      || exists vm :: (vm in vms || vm in rvms) && Selects(t, vm) && OwnerCompatible(rule, vm) && a in vm.ips
  {
    if exists vm :: (vm in vms || vm in rvms) && Selects(t, vm) && OwnerCompatible(rule, vm) && a in vm.ips {
      assert t in front + [t];
    }
  }

  lemma NamedBySelects(side: Side, vm: VM)
    ensures NamedBy(side, vm) <==> exists t :: t in OtherTargets(side) && Selects(t, vm)
  {
    SideTargetsMembers(side);
    if vm.uuid in side.vms {
      assert OnVm(vm.uuid) in OtherTargets(side) && Selects(OnVm(vm.uuid), vm);
    }
    if VmAll in side.wildcards {
      assert OnWildcard(VmAll) in OtherTargets(side) && Selects(OnWildcard(VmAll), vm);
    }
  }

  /** Some object written for the opposite side matches iff the rule reaches the packet's remote end. */
  lemma OtherSideMatches(rule: Rule, dir: Direction, vms: seq<VM>, rvms: seq<VM>, logger: bool, pkt: Packet)
    requires !WrongFamily(pkt.protocol, pkt.remote.V6?)
    ensures SomeMatch(OtherSideObjs(rule, dir, vms, Listed(rvms), logger), pkt) <==>
      Relevant(rule, dir, pkt) && Reaches(rule, rule.On(Opposite(dir)), pkt.remote, vms, rvms)
    ensures AllOf(OtherSideObjs(rule, dir, vms, Listed(rvms), logger), rule, dir)
  {
    var side := rule.On(Opposite(dir));
    if Any in side.wildcards {
      RuleObjMatches(rule, dir, [Host(V4(0))], WildcardOrigin(Any), logger, pkt);
      RuleObjOf(rule, dir, [Host(V4(0))], WildcardOrigin(Any), logger);
      var o := RuleObj(rule, dir, [Host(V4(0))], WildcardOrigin(Any), logger);
      assert o in [o];
    } else {
      SideTargetsMembers(side);
      IpObjsMatch(rule, dir, side.ips, logger, pkt);
      SubnetObjsMatch(rule, dir, side.subnets, logger, pkt);
      NamedObjsMatch(rule, dir, OtherTargets(side), vms, rvms, logger, pkt);
      var a, b := IpObjs(rule, dir, side.ips, logger), SubnetObjs(rule, dir, side.subnets, logger);
      SomeMatchConcat(a, b, pkt);
      SomeMatchConcat(a + b, NamedObjs(rule, dir, OtherTargets(side), vms, Listed(rvms), logger), pkt);
      forall vm ensures NamedBy(side, vm) <==> exists t :: t in OtherTargets(side) && Selects(t, vm) {
        NamedBySelects(side, vm);
      }
    }
  }

  // ---- the objects of a VM ----

  ghost predicate Emitted(o: SortObj, rule: Rule, dir: Direction, v: Uuid, vms: seq<VM>, rvms: seq<VM>, logger: bool) {
    && rule.enabled && !NoRulesNeeded(dir, rule)
    && v in UuidsOnSide(vms, rule, dir)
    && o in OtherSideObjs(rule, dir, vms, Listed(rvms), logger)
  }

  lemma {:induction false} RepeatMembers(s: seq<SortObj>, n: nat)
    ensures forall o :: o in Repeat(s, n) <==> n > 0 && o in s
  {
    if n > 0 { RepeatMembers(s, n - 1); }
  }

  lemma ContributionMembers(v: Uuid, rule: Rule, vms: seq<VM>, rvms: seq<VM>, logger: bool)
    ensures forall o :: o in Contribution(v, rule, vms, Listed(rvms), logger) <==>
      Emitted(o, rule, From, v, vms, rvms, logger) || Emitted(o, rule, To, v, vms, rvms, logger)
  {
    var a := OtherSideObjs(rule, From, vms, Listed(rvms), logger);
    var b := OtherSideObjs(rule, To, vms, Listed(rvms), logger);
    RepeatMembers(a, Count(UuidsOnSide(vms, rule, From), v));
    RepeatMembers(b, Count(UuidsOnSide(vms, rule, To), v));
    CountZero(UuidsOnSide(vms, rule, From), v);
    CountZero(UuidsOnSide(vms, rule, To), v);
  }

  ghost predicate EmittedBySome(o: SortObj, rules: seq<Rule>, v: Uuid, vms: seq<VM>, rvms: seq<VM>, logger: bool) {
    exists r, dir :: r in rules && Emitted(o, r, dir, v, vms, rvms, logger)
  }

  lemma EmittedSnoc(o: SortObj, front: seq<Rule>, last: Rule, v: Uuid, vms: seq<VM>, rvms: seq<VM>, logger: bool)
    ensures EmittedBySome(o, front + [last], v, vms, rvms, logger) <==>
      || EmittedBySome(o, front, v, vms, rvms, logger)
      || Emitted(o, last, From, v, vms, rvms, logger) || Emitted(o, last, To, v, vms, rvms, logger)
  {
    hide Emitted;
    assert last in front + [last];
    forall r, dir | r in front && Emitted(o, r, dir, v, vms, rvms, logger)
      ensures EmittedBySome(o, front + [last], v, vms, rvms, logger)
    {
      assert r in front + [last];
    }
    if EmittedBySome(o, front + [last], v, vms, rvms, logger) {
      var r, dir :| r in front + [last] && Emitted(o, r, dir, v, vms, rvms, logger);
      assert r in front || r == last;
      assert dir == From || dir == To;
    }
  }

  lemma {:induction false} ConfMembers(v: Uuid, rules: seq<Rule>, vms: seq<VM>, rvms: seq<VM>, logger: bool)
    ensures forall o ::
      o in ConfObjs(v, rules, vms, Listed(rvms), logger) <==> EmittedBySome(o, rules, v, vms, rvms, logger)
  {
    if rules != [] {
      var front, last := rules[..|rules| - 1], rules[|rules| - 1];
      ConfMembers(v, front, vms, rvms, logger);
      ContributionMembers(v, last, vms, rvms, logger);
      assert rules == front + [last];
      var objs := ConfObjs(v, rules, vms, Listed(rvms), logger);
      forall o ensures o in objs <==> EmittedBySome(o, rules, v, vms, rvms, logger) {
        EmittedSnoc(o, front, last, v, vms, rvms, logger);
      }
    }
  }

  /** A matching object stands for an applicable rule that had to be written, and conversely. */
  lemma MatchingObjIsApplicableRule(o: SortObj, r: Rule, dir: Direction, v: Uuid, vms: seq<VM>, rvms: seq<VM>,
                              logger: bool, pkt: Packet)
    requires !WrongFamily(pkt.protocol, pkt.remote.V6?)
    requires Emitted(o, r, dir, v, vms, rvms, logger) && ObjMatches(o, pkt)
    ensures dir == pkt.direction && Applies(r, v, pkt, vms, rvms) && ObjOf(o, r, dir)
  {
    OtherSideMatches(r, dir, vms, rvms, logger, pkt);
    assert SomeMatch(OtherSideObjs(r, dir, vms, Listed(rvms), logger), pkt);
    UuidsOnSideIsScan(vms, r, dir, v);
  }

  lemma ApplicableRuleHasObj(r: Rule, v: Uuid, vms: seq<VM>, rvms: seq<VM>, logger: bool, pkt: Packet)
    returns (o: SortObj)
    requires !WrongFamily(pkt.protocol, pkt.remote.V6?)
    requires Applies(r, v, pkt, vms, rvms) && !NoRulesNeeded(pkt.direction, r)
    ensures Emitted(o, r, pkt.direction, v, vms, rvms, logger) && ObjMatches(o, pkt) && ObjOf(o, r, pkt.direction)
  {
    OtherSideMatches(r, pkt.direction, vms, rvms, logger, pkt);
    UuidsOnSideIsScan(vms, r, pkt.direction, v);
    o :| o in OtherSideObjs(r, pkt.direction, vms, Listed(rvms), logger) && ObjMatches(o, pkt);
  }

  lemma ConfObjsWellFormed(v: Uuid, rules: seq<Rule>, vms: seq<VM>, rvms: seq<VM>, logger: bool)
    requires ParsedRules(rules)
    ensures WellFormedObjs(ConfObjs(v, rules, vms, Listed(rvms), logger))
  {
    var objs := ConfObjs(v, rules, vms, Listed(rvms), logger);
    ConfMembers(v, rules, vms, rvms, logger);
    forall i | 0 <= i < |objs| ensures WellFormedObj(objs[i]) {
      assert objs[i] in objs;
      assert EmittedBySome(objs[i], rules, v, vms, rvms, logger);
      var r, dir :| r in rules && Emitted(objs[i], r, dir, v, vms, rvms, logger);
      OtherSideMatches(r, dir, vms, rvms, logger, Packet(dir, Tcp, V4(0), 0, 0, 0, false));
      assert ParsedRule(r);
    }
  }

  // ---- evaluating a sorted list ----

  lemma {:induction false} EvaluateQuick(lines: seq<Line>, keepState: bool, tags: Option<ReadTag>, action: Action,
                              rest: seq<Text>, pkt: Packet, decided: Action)
    requires UniformLines(lines, action)
    ensures Evaluate(Suffixed(lines, keepState, tags) + rest, pkt, decided) ==
      if HasMatch(lines, pkt) then action else Evaluate(rest, pkt, decided)
  {
    var list := Suffixed(lines, keepState, tags) + rest;
    if lines == [] {
      assert list == rest;
    } else {
      assert list[1..] == Suffixed(lines[1..], keepState, tags) + rest;
      EvaluateQuick(lines[1..], keepState, tags, action, rest, pkt, decided);
      assert lines == [lines[0]] + lines[1..];
      HasMatchConcat([lines[0]], lines[1..], pkt);
      assert lines[0] in [lines[0]];
    }
  }

  /** i is the first object of the list that matches the packet. */
  ghost predicate FirstMatch(objs: seq<SortObj>, i: nat, pkt: Packet) {
    i < |objs| && ObjMatches(objs[i], pkt) && forall j :: 0 <= j < i ==> !ObjMatches(objs[j], pkt)
  }

  ghost predicate UniformObjs(objs: seq<SortObj>) {
    forall o :: o in objs ==> UniformLines(o.v4, o.action) && UniformLines(o.v6, o.action)
  }

  function ObjText(o: SortObj, iks: set<Protocol>, pkt: Packet): seq<Text> {
    [Comment(o.header)] + Suffixed(LinesFor(o, pkt), KeepsState(o, iks), o.tags)
  }

  lemma EvaluateObj(o: SortObj, iks: set<Protocol>, rest: seq<Text>, pkt: Packet, decided: Action)
    requires UniformLines(LinesFor(o, pkt), o.action)
    ensures Evaluate(ObjText(o, iks, pkt) + rest, pkt, decided) ==
      if ObjMatches(o, pkt) then o.action else Evaluate(rest, pkt, decided)
  {
    var tail := Suffixed(LinesFor(o, pkt), KeepsState(o, iks), o.tags) + rest;
    assert (ObjText(o, iks, pkt) + rest)[1..] == tail;
    EvaluateQuick(LinesFor(o, pkt), KeepsState(o, iks), o.tags, o.action, rest, pkt, decided);
  }

  lemma BodySnoc(front: seq<SortObj>, o: SortObj, iks: set<Protocol>, rest: seq<Text>, pkt: Packet)
    ensures Body(front + [o], iks, pkt.remote.V6?) + rest ==
      Body(front, iks, pkt.remote.V6?) + (ObjText(o, iks, pkt) + rest)
  {
    assert (front + [o])[..|front|] == front;
  }

  /** The action of the first matching object, or else `otherwise`. */
  ghost function Decided(objs: seq<SortObj>, pkt: Packet, otherwise: Action): Action {
    if objs == [] then otherwise else
    var o := objs[|objs| - 1];
    Decided(objs[..|objs| - 1], pkt, if ObjMatches(o, pkt) then o.action else otherwise)
  }

  lemma {:induction false} DecidedByFirstMatch(objs: seq<SortObj>, pkt: Packet, otherwise: Action) returns (i: nat)
    ensures SomeMatch(objs, pkt) ==> FirstMatch(objs, i, pkt) && Decided(objs, pkt, otherwise) == objs[i].action
    ensures !SomeMatch(objs, pkt) ==> Decided(objs, pkt, otherwise) == otherwise
  {
    i := 0;
    if objs != [] {
      var front, o := objs[..|objs| - 1], objs[|objs| - 1];
      assert objs == front + [o];
      i := DecidedByFirstMatch(front, pkt, if ObjMatches(o, pkt) then o.action else otherwise);
      SomeMatchConcat(front, [o], pkt);
      assert o in [o];
      if !SomeMatch(front, pkt) {
        i := |front|;
        assert forall j :: 0 <= j < |front| ==> front[j] in front;
      }
    }
  }

  lemma {:induction false} EvaluateBody(objs: seq<SortObj>, iks: set<Protocol>, rest: seq<Text>, pkt: Packet,
                              decided: Action)
    requires UniformObjs(objs)
    ensures Evaluate(Body(objs, iks, pkt.remote.V6?) + rest, pkt, decided) ==
      Decided(objs, pkt, Evaluate(rest, pkt, decided))
  {
    if objs == [] {
      assert Body(objs, iks, pkt.remote.V6?) + rest == rest;
    } else {
      var front, o := objs[..|objs| - 1], objs[|objs| - 1];
      assert objs == front + [o];
      BodySnoc(front, o, iks, rest, pkt);
      EvaluateBody(front, iks, ObjText(o, iks, pkt) + rest, pkt, decided);
      EvaluateObj(o, iks, rest, pkt, decided);
    }
  }

  /** Protocols for which a fallback line exists. */
  predicate FallbackCovers(pkt: Packet) {
    pkt.direction.To? || (pkt.protocol != Ah && pkt.protocol != Esp)
  }

  /** What a list gives when t is put in front of it. */
  function Through(t: Text, rest: seq<Text>, pkt: Packet, decided: Action): Action {
    if !TextMatches(t, pkt) then Evaluate(rest, pkt, decided)
    else if t.Quick? || t.quick then TextAction(t)
    else Evaluate(rest, pkt, TextAction(t))
  }

  lemma EvaluateFallbacks(pkt: Packet, kernel: Action)
    requires !WrongFamily(pkt.protocol, pkt.remote.V6?)
    ensures Evaluate(Fallbacks(pkt.remote.V6?), pkt, kernel) ==
      if FallbackCovers(pkt) then DefaultAction(pkt.direction) else kernel
  {
    var f := Fallbacks(pkt.remote.V6?);
    forall i, d | 0 <= i < 6
      ensures Evaluate(f[i..], pkt, d) == Through(f[i], f[i + 1..], pkt, d)
    {
      assert f[i..][1..] == f[i + 1..];
    }
    assert f[0..] == f;
  }

  // ---- the theorem ----

  /** An applicable rule that noRulesNeeded does not drop. */
  ghost predicate WrittenRuleApplies(rules: seq<Rule>, v: Uuid, pkt: Packet, vms: seq<VM>, rvms: seq<VM>) {
    exists r :: r in rules && Applies(r, v, pkt, vms, rvms) && !NoRulesNeeded(pkt.direction, r)
  }

  /** `sorted` holds the objects written for v, in some order. */
  ghost predicate Holds(sorted: seq<SortObj>, rules: seq<Rule>, v: Uuid, vms: seq<VM>, rvms: seq<VM>, logger: bool) {
    multiset(sorted) == multiset(ConfObjs(v, rules, vms, Listed(rvms), logger))
  }

  lemma ObjHasRule(sorted: seq<SortObj>, i: nat, rules: seq<Rule>, v: Uuid, vms: seq<VM>, rvms: seq<VM>, logger: bool)
    returns (r: Rule, dir: Direction)
    requires Holds(sorted, rules, v, vms, rvms, logger) && i < |sorted|
    ensures r in rules && Emitted(sorted[i], r, dir, v, vms, rvms, logger)
  {
    SameMembers(sorted, ConfObjs(v, rules, vms, Listed(rvms), logger));
    ConfMembers(v, rules, vms, rvms, logger);
    assert sorted[i] in sorted;
    r, dir :| r in rules && Emitted(sorted[i], r, dir, v, vms, rvms, logger);
  }

  lemma WrittenRuleHasObj(sorted: seq<SortObj>, r: Rule, rules: seq<Rule>, v: Uuid, pkt: Packet, vms: seq<VM>,
                          rvms: seq<VM>, logger: bool)
    returns (j: nat)
    requires Holds(sorted, rules, v, vms, rvms, logger)
    requires !WrongFamily(pkt.protocol, pkt.remote.V6?)
    requires r in rules && Applies(r, v, pkt, vms, rvms) && !NoRulesNeeded(pkt.direction, r)
    ensures j < |sorted| && ObjMatches(sorted[j], pkt) && ObjOf(sorted[j], r, pkt.direction)
    ensures SomeMatch(sorted, pkt)
  {
    var o := ApplicableRuleHasObj(r, v, vms, rvms, logger, pkt);
    SameMembers(sorted, ConfObjs(v, rules, vms, Listed(rvms), logger));
    ConfMembers(v, rules, vms, rvms, logger);
    assert o in sorted;
    j :| 0 <= j < |sorted| && sorted[j] == o;
  }

  lemma FirstMatchIsNotOverridden(sorted: seq<SortObj>, i: nat, r: Rule, q: Rule, rules: seq<Rule>, v: Uuid,
                                  pkt: Packet, vms: seq<VM>, rvms: seq<VM>, logger: bool)
    requires !WrongFamily(pkt.protocol, pkt.remote.V6?)
    requires Holds(sorted, rules, v, vms, rvms, logger) && SortedBy(sorted, Before)
    requires FirstMatch(sorted, i, pkt) && ObjOf(sorted[i], r, pkt.direction)
    requires Applies(r, v, pkt, vms, rvms) && q in rules && Applies(q, v, pkt, vms, rvms)
    ensures !Overrides(pkt.direction, q, r)
  {
    hide Holds;
    assert r.protocol == q.protocol;
    hide Applies;
    if !NoRulesNeeded(pkt.direction, q) {
      var j := WrittenRuleHasObj(sorted, q, rules, v, pkt, vms, rvms, logger);
      if i < j {
        WinnersComeFirst(sorted, i, j);
      }
    }
  }

  /** The first matching object of a sorted list stands for a rule nothing applicable overrides. */
  lemma FirstMatchIsUnbeaten(sorted: seq<SortObj>, i: nat, rules: seq<Rule>, v: Uuid, pkt: Packet, vms: seq<VM>,
                             rvms: seq<VM>, logger: bool)
    requires !WrongFamily(pkt.protocol, pkt.remote.V6?)
    requires Holds(sorted, rules, v, vms, rvms, logger) && SortedBy(sorted, Before)
    requires FirstMatch(sorted, i, pkt)
    ensures PolicyDecides(sorted[i].action, rules, v, pkt, vms, rvms)
    ensures WrittenRuleApplies(rules, v, pkt, vms, rvms)
  {
    var r, dir := ObjHasRule(sorted, i, rules, v, vms, rvms, logger);
    MatchingObjIsApplicableRule(sorted[i], r, dir, v, vms, rvms, logger, pkt);
    hide Holds, FirstMatch, SortedBy, Applies, Overrides;
    forall q | q in rules && Applies(q, v, pkt, vms, rvms) ensures !Overrides(pkt.direction, q, r) {
      FirstMatchIsNotOverridden(sorted, i, r, q, rules, v, pkt, vms, rvms, logger);
    }
    assert Unbeaten(r, rules, v, pkt, vms, rvms);
  }

  /** With no line matching, only rules that restate the default can apply. */
  lemma NoMatchIsDefault(sorted: seq<SortObj>, rules: seq<Rule>, v: Uuid, pkt: Packet, vms: seq<VM>, rvms: seq<VM>,
                         logger: bool)
    requires !WrongFamily(pkt.protocol, pkt.remote.V6?)
    requires Holds(sorted, rules, v, vms, rvms, logger)
    requires !SomeMatch(sorted, pkt)
    ensures PolicyDecides(DefaultAction(pkt.direction), rules, v, pkt, vms, rvms)
    ensures !WrittenRuleApplies(rules, v, pkt, vms, rvms)
  {
    forall r | r in rules && Applies(r, v, pkt, vms, rvms) ensures NoRulesNeeded(pkt.direction, r) {
      if !NoRulesNeeded(pkt.direction, r) {
        var _ := WrittenRuleHasObj(sorted, r, rules, v, pkt, vms, rvms, logger);
      }
    }
    if r :| r in rules && Applies(r, v, pkt, vms, rvms) {
      assert Unbeaten(r, rules, v, pkt, vms, rvms);
    }
  }

  lemma ConfObjsUniform(sorted: seq<SortObj>, rules: seq<Rule>, v: Uuid, vms: seq<VM>, rvms: seq<VM>, logger: bool)
    requires Holds(sorted, rules, v, vms, rvms, logger)
    ensures UniformObjs(sorted)
  {
    forall o | o in sorted ensures UniformLines(o.v4, o.action) && UniformLines(o.v6, o.action) {
      var i :| 0 <= i < |sorted| && sorted[i] == o;
      var r, dir := ObjHasRule(sorted, i, rules, v, vms, rvms, logger);
      OtherSideMatches(r, dir, vms, rvms, logger, Packet(dir, Tcp, V4(0), 0, 0, 0, false));
    }
  }

  /** For every rule set, VM set and packet, and for any list sorted by compareRules: evaluating the
   *  generated file gives the policy's decision exactly when a fallback line exists for the packet,
   *  or a written rule applies, or the kernel's own default is to pass.  (Outbound AH and ESP have
   *  no fallback line.)
   */
  lemma CompiledFileMeetsPolicy(sorted: seq<SortObj>, iks: set<Protocol>, rules: seq<Rule>, v: Uuid, pkt: Packet,
                                vms: seq<VM>, rvms: seq<VM>, logger: bool, kernel: Action)
    requires ParsedRules(rules)
    requires !WrongFamily(pkt.protocol, pkt.remote.V6?)
    requires Holds(sorted, rules, v, vms, rvms, logger)
    requires SortedBy(sorted, Before)
    ensures PolicyDecides(Evaluate(FileFor(ConfOf(sorted, iks), pkt), pkt, kernel), rules, v, pkt, vms, rvms) <==>
      FallbackCovers(pkt) || kernel == Allow || WrittenRuleApplies(rules, v, pkt, vms, rvms)
  {
    ConfObjsUniform(sorted, rules, v, vms, rvms, logger);
    EvaluateFallbacks(pkt, kernel);
    EvaluateBody(sorted, iks, Fallbacks(pkt.remote.V6?), pkt, kernel);
    var i := DecidedByFirstMatch(sorted, pkt, Evaluate(Fallbacks(pkt.remote.V6?), pkt, kernel));
    if SomeMatch(sorted, pkt) {
      FirstMatchIsUnbeaten(sorted, i, rules, v, pkt, vms, rvms, logger);
    } else {
      NoMatchIsDefault(sorted, rules, v, pkt, vms, rvms, logger);
      if !FallbackCovers(pkt) && kernel != Allow && PolicyDecides(kernel, rules, v, pkt, vms, rvms) {
        PolicyIsFunctional(kernel, Allow, rules, v, pkt, vms, rvms);
      }
    }
  }

  /** The same, for the file prepareIPFdata writes. */
  lemma FullConfMeetsPolicy(rules: seq<Rule>, v: Uuid, pkt: Packet, vms: seq<VM>, rvms: seq<VM>, logger: bool,
                            kernel: Action)
    requires ParsedRules(rules)
    requires !WrongFamily(pkt.protocol, pkt.remote.V6?)
    ensures var decided := Evaluate(FileFor(FullConf(v, rules, vms, rvms, logger), pkt), pkt, kernel);
            PolicyDecides(decided, rules, v, pkt, vms, rvms) <==>
              FallbackCovers(pkt) || kernel == Allow || WrittenRuleApplies(rules, v, pkt, vms, rvms)
  {
    var objs := ConfObjs(v, rules, vms, Listed(rvms), logger);
    ConfObjsWellFormed(v, rules, vms, rvms, logger);
    BeforeIsPreorder(objs);
    SortSorts(objs, Before);
    CompiledFileMeetsPolicy(Sort(objs, Before), InboundState(v, rules, vms), rules, v, pkt, vms, rvms, logger, kernel);
  }
}
