/** The loops of fw.js that build rule objects and configurations over the lookup tables,
 *  each proved to compute the function of the same meaning in FwPlan.
 */
module FwCompile {
  import opened FwLookup
  import opened FwOrder
  import opened FwPlan
  import opened FwTypes
  import opened Sequences
  import Sorting

  /** The protocol targets of one remote, appended to a text list. */
  method PushLines(text: seq<Line>, rule: Rule, dir: Direction, remote: Remote) returns (out: seq<Line>)
    ensures out == text + ProtoLines(rule, dir, remote, rule.protoTargets)
  {
    out := text;
    for i := 0 to |rule.protoTargets|
      invariant out == text + ProtoLines(rule, dir, remote, rule.protoTargets[..i])
    {
      TakeOneMore(rule.protoTargets, i);
      out := out + [Line(rule.action, dir, rule.protocol, remote, rule.protoTargets[i])];
    }
    TakeAll(rule.protoTargets);
  }

  method PushTargets(rule: Rule, dir: Direction, targets: seq<NetTarget>) returns (v4: seq<Line>, v6: seq<Line>)
    ensures v4 == TargetLines(rule, dir, targets, false)
    ensures v6 == TargetLines(rule, dir, targets, true)
  {
    v4, v6 := [], [];
    for k := 0 to |targets|
      invariant v4 == TargetLines(rule, dir, targets[..k], false)
      invariant v6 == TargetLines(rule, dir, targets[..k], true)
    {
      TakeOneMore(targets, k);
      var isv6 := IsV6(targets[k]);
      if (isv6 && rule.protocol == Icmp) || (!isv6 && rule.protocol == Icmp6) {
        continue;
      }
      if isv6 {
        v6 := PushLines(v6, rule, dir, At(targets[k]));
      } else {
        v4 := PushLines(v4, rule, dir, At(targets[k]));
      }
    }
    TakeAll(targets);
  }

  /** ipfRuleObj */
  method IpfRuleObj(rule: Rule, dir: Direction, targets: seq<NetTarget>, origin: Origin, logger: bool)
    returns (o: SortObj)
    ensures o == RuleObj(rule, dir, targets, origin, logger)
  {
    var v4, v6: seq<Line> := [], [];
    if origin == WildcardOrigin(Any) {
      if rule.protocol != Icmp6 { v4 := PushLines([], rule, dir, AnyRemote); }
      if rule.protocol != Icmp { v6 := PushLines([], rule, dir, AnyRemote); }
    } else {
      v4, v6 := PushTargets(rule, dir, targets);
    }
    o := SortObj(rule.action, dir, rule.priority, rule.protocol, Header(rule.uuid, rule.version, origin),
                 v4, v6, targets, rule.protoTargets, ReadTags(rule, logger));
  }

  /** vmsOnSide over a lookup table */
  method VmsOnSide(store: VMStore, ghost vms: seq<VM>, rule: Rule, dir: Direction) returns (matching: seq<Uuid>)
    requires store.Indexes(vms)
    ensures matching == UuidsOnSide(vms, rule, dir)
  {
    hide Scan, SideTargets;
    matching := [];
    var targets := SideTargets(rule.On(dir));
    for k := 0 to |targets|
      invariant matching == Collected(vms, rule, targets[..k])
    {
      TakeOneMore(targets, k);
      var t := targets[k];
      var vmList := store.Entry(t);
      ghost var before := matching;
      for i := 0 to |vmList|
        invariant matching == before + OwnedUuids(vmList[..i], rule)
      {
        TakeOneMore(vmList, i);
        Assoc(before, OwnedUuids(vmList[..i], rule), [vmList[i].uuid]);
        if OwnerMatches(rule, vmList[i]) {
          matching := matching + [vmList[i].uuid];
        }
      }
      TakeAll(vmList);
    }
    TakeAll(targets);
  }

  method ObjsForVMs(rule: Rule, dir: Direction, vmList: seq<VM>, origin: Origin, logger: bool)
    returns (objs: seq<SortObj>)
    ensures objs == VmObjs(rule, dir, vmList, origin, logger)
  {
    objs := [];
    for i := 0 to |vmList|
      invariant objs == VmObjs(rule, dir, vmList[..i], origin, logger)
    {
      TakeOneMore(vmList, i);
      if OwnerCompatible(rule, vmList[i]) && vmList[i].ips != [] {
        var o := IpfRuleObj(rule, dir, Hosts(vmList[i].ips), origin, logger);
        objs := objs + [o];
      }
    }
    TakeAll(vmList);
  }

  method ObjsForIps(rule: Rule, dir: Direction, ips: seq<Addr>, logger: bool) returns (objs: seq<SortObj>)
    ensures objs == IpObjs(rule, dir, ips, logger)
  {
    objs := [];
    for i := 0 to |ips|
      invariant objs == IpObjs(rule, dir, ips[..i], logger)
    {
      TakeOneMore(ips, i);
      var o := IpfRuleObj(rule, dir, [Host(ips[i])], IpOrigin(ips[i]), logger);
      objs := objs + [o];
    }
    TakeAll(ips);
  }

  method ObjsForSubnets(rule: Rule, dir: Direction, subnets: seq<Subnet>, logger: bool) returns (objs: seq<SortObj>)
    ensures objs == SubnetObjs(rule, dir, subnets, logger)
  {
    objs := [];
    for i := 0 to |subnets|
      invariant objs == SubnetObjs(rule, dir, subnets[..i], logger)
    {
      TakeOneMore(subnets, i);
      var o := IpfRuleObj(rule, dir, [Net(subnets[i])], SubnetOrigin(subnets[i]), logger);
      objs := objs + [o];
    }
    TakeAll(subnets);
  }

  method ObjsForTargets(rule: Rule, dir: Direction, targets: seq<Target>, local: VMStore, remote: VMStore,
                        ghost vms: seq<VM>, ghost remotes: Remotes, logger: bool) returns (objs: seq<SortObj>)
    requires local.Indexes(vms) && remote.Reads(remotes)
    ensures objs == NamedObjs(rule, dir, targets, vms, remotes, logger)
  {
    objs := [];
    for k := 0 to |targets|
      invariant objs == NamedObjs(rule, dir, targets[..k], vms, remotes, logger)
    {
      TakeOneMore(targets, k);
      var t := targets[k];
      var mine := ObjsForVMs(rule, dir, local.Entry(t), OriginOf(t), logger);
      var theirs := ObjsForVMs(rule, dir, remote.Entry(t), OriginOf(t), logger);
      objs := objs + mine + theirs;
    }
    TakeAll(targets);
  }

  /** rulesFromOtherSide over the local and remote tables */
  method RulesFromOtherSide(rule: Rule, dir: Direction, local: VMStore, remote: VMStore,
                            ghost vms: seq<VM>, ghost remotes: Remotes, logger: bool) returns (ipfRules: seq<SortObj>)
    requires local.Indexes(vms) && remote.Reads(remotes)
    ensures ipfRules == OtherSideObjs(rule, dir, vms, remotes, logger)
  {
    var other := rule.On(Opposite(dir));
    if Any in other.wildcards {
      var o := IpfRuleObj(rule, dir, [Host(V4(0))], WildcardOrigin(Any), logger);
      return [o];
    }
    var ips := ObjsForIps(rule, dir, other.ips, logger);
    var subnets := ObjsForSubnets(rule, dir, other.subnets, logger);
    var named := ObjsForTargets(rule, dir, OtherTargets(other), local, remote, vms, remotes, logger);
    ipfRules := ips + subnets + named;
  }

  // ---- prepareIPFdata ----

  function Enabled(all: seq<VM>, uuid: Uuid): bool {
    exists i :: 0 <= i < |all| && all[i].uuid == uuid && all[i].enabled
  }

  function Kept(keep: map<Uuid, set<Protocol>>, v: Uuid): set<Protocol> {
    if v in keep then keep[v] else {}
  }

  /** keepInboundState: an outbound block makes a VM track inbound state for the protocol. */
  method TrackInboundState(local: VMStore, ghost vms: seq<VM>, rules: seq<Rule>)
    returns (keep: map<Uuid, set<Protocol>>)
    requires local.Indexes(vms)
    ensures forall v :: Kept(keep, v) == InboundState(v, rules, vms)
  {
    keep := map[];
    for i := 0 to |rules|
      invariant forall v :: Kept(keep, v) == InboundState(v, rules[..i], vms)
    {
      TakeOneMore(rules, i);
      var rule := rules[i];
      if !rule.enabled || rule.action == Allow {
        continue;
      }
      var sources := VmsOnSide(local, vms, rule, From);
      keep := KeepFor(keep, sources, rule.protocol);
    }
    TakeAll(rules);
  }

  method KeepFor(keep: map<Uuid, set<Protocol>>, sources: seq<Uuid>, protocol: Protocol)
    returns (out: map<Uuid, set<Protocol>>)
    ensures forall v :: Kept(out, v) == Kept(keep, v) + (if v in sources then {protocol} else {})
  {
    out := keep;
    for j := 0 to |sources|
      invariant forall v :: Kept(out, v) == Kept(keep, v) + (if v in sources[..j] then {protocol} else {})
    {
      TakeOneMore(sources, j);
      var uuid := sources[j];
      if uuid !in out {
        out := out[uuid := {}];
      }
      out := out[uuid := out[uuid] + {protocol}];
    }
    TakeAll(sources);
  }

  /** Appends the other side's objects to the configuration of each listed VM. */
  method Distribute(conf: map<Uuid, seq<SortObj>>, all: seq<VM>, uuids: seq<Uuid>, objs: seq<SortObj>)
    returns (out: map<Uuid, seq<SortObj>>)
    requires forall v :: v in conf ==> Enabled(all, v)
    ensures out.Keys == conf.Keys
    ensures forall v :: v in conf ==> out[v] == conf[v] + Repeat(objs, Count(uuids, v))
  {
    hide Enabled;
    out := conf;
    for j := 0 to |uuids|
      invariant out.Keys == conf.Keys
      invariant forall v :: v in conf ==> out[v] == conf[v] + Repeat(objs, Count(uuids[..j], v))
    {
      TakeOneMore(uuids, j);
      var uuid := uuids[j];
      if !Enabled(all, uuid) || uuid !in out {
        continue;
      }
      out := out[uuid := out[uuid] + objs];
    }
    TakeAll(uuids);
  }

  method EmitRule(conf: map<Uuid, seq<SortObj>>, rule: Rule, dir: Direction, local: VMStore, remote: VMStore,
                  ghost vms: seq<VM>, ghost remotes: Remotes, logger: bool) returns (out: map<Uuid, seq<SortObj>>)
    requires local.Indexes(vms) && remote.Reads(remotes)
    requires forall v :: v in conf ==> Enabled(vms, v)
    ensures out.Keys == conf.Keys
    ensures forall v :: v in conf ==> out[v] == conf[v] + DirObjs(v, rule, dir, vms, remotes, logger)
  {
    if NoRulesNeeded(dir, rule) {
      return conf;
    }
    var objs := RulesFromOtherSide(rule, dir, local, remote, vms, remotes, logger);
    var uuids := VmsOnSide(local, vms, rule, dir);
    out := Distribute(conf, local.all, uuids, objs);
  }

  /** The two directions of every enabled rule, in rule order. */
  method EmitRules(start: map<Uuid, seq<SortObj>>, rules: seq<Rule>, local: VMStore, remote: VMStore,
                   ghost vms: seq<VM>, ghost remotes: Remotes, logger: bool) returns (conf: map<Uuid, seq<SortObj>>)
    requires local.Indexes(vms) && remote.Reads(remotes)
    requires forall v :: v in start ==> Enabled(vms, v) && start[v] == []
    ensures conf.Keys == start.Keys
    ensures forall v :: v in conf ==> conf[v] == ConfObjs(v, rules, vms, remotes, logger)
  {
    conf := start;
    for i := 0 to |rules|
      invariant conf.Keys == start.Keys
      invariant forall v :: v in conf ==> conf[v] == ConfObjs(v, rules[..i], vms, remotes, logger)
    {
      TakeOneMore(rules, i);
      if !rules[i].enabled {
        continue;
      }
      conf := EmitRule(conf, rules[i], From, local, remote, vms, remotes, logger);
      conf := EmitRule(conf, rules[i], To, local, remote, vms, remotes, logger);
    }
    TakeAll(rules);
  }

  /** The lines of one sorted list, for both files. */
  method WriteConf(sorted: seq<SortObj>, iks: set<Protocol>) returns (conf: Conf)
    ensures conf == ConfOf(sorted, iks)
  {
    var v4, v6 := [], [];
    for i := 0 to |sorted|
      invariant v4 == Body(sorted[..i], iks, false) && v6 == Body(sorted[..i], iks, true)
    {
      TakeOneMore(sorted, i);
      var o := sorted[i];
      var keepState := KeepsState(o, iks);
      v4 := v4 + [Comment(o.header)] + Suffixed(o.v4, keepState, o.tags);
      v6 := v6 + [Comment(o.header)] + Suffixed(o.v6, keepState, o.tags);
    }
    TakeAll(sorted);
    conf := Conf(v4 + Fallbacks(false), v6 + Fallbacks(true));
  }

  /** prepareIPFdata: one configuration for every listed VM whose firewall is enabled. */
  method PrepareIpfData(local: VMStore, remote: VMStore, ghost vms: seq<VM>, ghost remotes: Remotes,
                        rules: seq<Rule>, listed: set<Uuid>, logger: bool) returns (files: map<Uuid, Conf>)
    requires local.Indexes(vms) && remote.Reads(remotes)
    ensures forall v :: v in files <==> v in listed && Enabled(vms, v)
    ensures forall v :: v in files ==> files[v] == ConfFrom(v, rules, vms, remotes, logger)
  {
    var all := local.all;
    var start: map<Uuid, seq<SortObj>> := map v | v in listed && Enabled(all, v) :: [];
    var keepInboundState := TrackInboundState(local, vms, rules);
    var conf := EmitRules(start, rules, local, remote, vms, remotes, logger);
    files := map[];
    var todo := conf.Keys;
    while todo != {}
      invariant todo <= conf.Keys
      invariant files.Keys == conf.Keys - todo
      invariant forall v :: v in files ==> files[v] == ConfFrom(v, rules, vms, remotes, logger)
      decreases todo
    {
      var vm :| vm in todo;
      var iks := Kept(keepInboundState, vm);
      var text := WriteConf(Sorting.Sort(conf[vm], Before), iks);
      files := files[vm := text];
      todo := todo - {vm};
    }
  }
}
