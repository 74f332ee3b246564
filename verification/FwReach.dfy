/** When a change to the remote VMs changes a file: exactly when some rule writes lines for the VM
 *  because of one of the remote VMs that came or went.
 */
module FwReach {
  import opened FwFilter
  import FwIncremental
  import opened FwLookup
  import opened FwOrder
  import opened FwPlan
  import opened FwSemantics
  import opened FwTypes
  import opened Options
  import Sorting

  /** A full rebuild from these rules and VMs gives v the same file as one from those. */
  ghost predicate SameRebuild(v: Uuid, rules: seq<Rule>, rules': seq<Rule>, vms: seq<VM>, rvms: seq<VM>,
                              rvms': seq<VM>, logger: bool) {
    FullConf(v, rules, vms, rvms, logger) == FullConf(v, rules', vms, rvms', logger)
  }

  /** The rule would write lines for this VM. */
  predicate Writes(rule: Rule, vm: VM) {
    OwnerCompatible(rule, vm) && vm.ips != []
  }

  /** The rule writes lines for v because of vm. */
  ghost predicate WritesBecause(v: Uuid, rule: Rule, dir: Direction, vm: VM, vms: seq<VM>) {
    var other := rule.On(Opposite(dir));
    && rule.enabled && !NoRulesNeeded(dir, rule) && v in UuidsOnSide(vms, rule, dir)
    && Any !in other.wildcards && Writes(rule, vm)
    && exists t :: t in OtherTargets(other) && Selects(t, vm)
  }

  ghost predicate Reaches(v: Uuid, rules: seq<Rule>, vms: seq<VM>, changed: seq<VM>) {
    exists r, dir, vm :: r in rules && vm in changed && WritesBecause(v, r, dir, vm, vms)
  }

  /** Remote VMs that are added to a list, or taken out of it. */
  datatype Change = Added(rvms: seq<VM>, news: seq<VM>) | Removed(rvms: seq<VM>, uuids: set<Uuid>)
  {
    function Fewer(): seq<VM> {
      match this
      case Added(_, _) => rvms
      case Removed(_, _) => VMsWithout(rvms, uuids)
    }

    function More(): seq<VM> {
      match this
      case Added(_, _) => rvms + news
      case Removed(_, _) => rvms
    }

    function Extra(): seq<VM> {
      match this
      case Added(_, _) => news
      case Removed(_, _) => VMsWith(rvms, uuids)
    }
  }

  /** Two lists of objects of which the second has something more exactly if told so. */
  ghost predicate Gains(fewer: seq<SortObj>, more: seq<SortObj>, gains: bool) {
    if gains then |fewer| < |more| else fewer == more
  }

  ghost predicate Hit(rule: Rule, t: Target, extra: seq<VM>) {
    exists vm :: vm in extra && Selects(t, vm) && Writes(rule, vm)
  }

  lemma HitSnoc(rule: Rule, t: Target, extra: seq<VM>, vm: VM)
    ensures Hit(rule, t, extra + [vm]) <==> Hit(rule, t, extra) || (Selects(t, vm) && Writes(rule, vm))
  {
    forall x | x in extra ensures x in extra + [vm] {
    }
    assert vm in extra + [vm];
  }

  lemma VmObjsSnoc(rule: Rule, dir: Direction, found: seq<VM>, vm: VM, origin: Origin, logger: bool)
    ensures VmObjs(rule, dir, found + [vm], origin, logger) ==
      VmObjs(rule, dir, found, origin, logger)
      + if Writes(rule, vm) then [RuleObj(rule, dir, Hosts(vm.ips), origin, logger)] else []
  {
    assert (found + [vm])[..|found|] == found;
  }

  lemma {:induction false} RemovedGains(rule: Rule, dir: Direction, t: Target, rvms: seq<VM>, uuids: set<Uuid>,
                                        origin: Origin, logger: bool)
    ensures Gains(VmObjs(rule, dir, Scan(VMsWithout(rvms, uuids), t), origin, logger),
                  VmObjs(rule, dir, Scan(rvms, t), origin, logger), Hit(rule, t, VMsWith(rvms, uuids)))
  {
    if rvms != [] {
      var front, vm := rvms[..|rvms| - 1], rvms[|rvms| - 1];
      assert rvms == front + [vm];
      RemovedGains(rule, dir, t, front, uuids, origin, logger);
      ScanSnoc(front, vm, t);
      VmObjsSnoc(rule, dir, Scan(front, t), vm, origin, logger);
      if vm.uuid in uuids {
        HitSnoc(rule, t, VMsWith(front, uuids), vm);
      } else {
        ScanSnoc(VMsWithout(front, uuids), vm, t);
        VmObjsSnoc(rule, dir, Scan(VMsWithout(front, uuids), t), vm, origin, logger);
      }
    }
  }

  lemma {:induction false} AddedGains(rule: Rule, dir: Direction, t: Target, rvms: seq<VM>, news: seq<VM>,
                                      origin: Origin, logger: bool)
    ensures Gains(VmObjs(rule, dir, Scan(rvms, t), origin, logger),
                  VmObjs(rule, dir, Scan(rvms + news, t), origin, logger), Hit(rule, t, news))
  {
    if news == [] {
      assert rvms + news == rvms;
    } else {
      var front, vm := news[..|news| - 1], news[|news| - 1];
      assert rvms + news == (rvms + front) + [vm] && news == front + [vm];
      AddedGains(rule, dir, t, rvms, front, origin, logger);
      ScanSnoc(rvms + front, vm, t);
      VmObjsSnoc(rule, dir, Scan(rvms + front, t), vm, origin, logger);
      HitSnoc(rule, t, front, vm);
    }
  }

  lemma TargetGains(rule: Rule, dir: Direction, t: Target, c: Change, origin: Origin, logger: bool)
    ensures Gains(VmObjs(rule, dir, Scan(c.Fewer(), t), origin, logger),
                  VmObjs(rule, dir, Scan(c.More(), t), origin, logger), Hit(rule, t, c.Extra()))
  {
    match c
    case Added(rvms, news) => AddedGains(rule, dir, t, rvms, news, origin, logger);
    case Removed(rvms, uuids) => RemovedGains(rule, dir, t, rvms, uuids, origin, logger);
  }

  lemma GainsConcat(a: seq<SortObj>, a': seq<SortObj>, g: bool, b: seq<SortObj>, b': seq<SortObj>, h: bool)
    requires Gains(a, a', g) && Gains(b, b', h)
    ensures Gains(a + b, a' + b', g || h)
  {
  }

  ghost predicate SomeHit(rule: Rule, targets: seq<Target>, extra: seq<VM>) {
    exists t :: t in targets && Hit(rule, t, extra)
  }

  lemma SomeHitSnoc(rule: Rule, targets: seq<Target>, t: Target, extra: seq<VM>)
    ensures SomeHit(rule, targets + [t], extra) <==> SomeHit(rule, targets, extra) || Hit(rule, t, extra)
  {
    forall x | x in targets ensures x in targets + [t] {
    }
    assert t in targets + [t];
  }

  lemma {:induction false} NamedGain(rule: Rule, dir: Direction, targets: seq<Target>, vms: seq<VM>, c: Change,
                                     logger: bool)
    ensures Gains(NamedObjs(rule, dir, targets, vms, Listed(c.Fewer()), logger),
                  NamedObjs(rule, dir, targets, vms, Listed(c.More()), logger), SomeHit(rule, targets, c.Extra()))
  {
    if targets != [] {
      hide Hit, SomeHit, VmObjs, Scan;
      var front, t := targets[..|targets| - 1], targets[|targets| - 1];
      assert targets == front + [t];
      NamedGain(rule, dir, front, vms, c, logger);
      TargetGains(rule, dir, t, c, OriginOf(t), logger);
      SomeHitSnoc(rule, front, t, c.Extra());
    }
  }

  lemma OtherSideGains(rule: Rule, dir: Direction, vms: seq<VM>, c: Change, logger: bool)
    ensures var other := rule.On(Opposite(dir));
            Gains(OtherSideObjs(rule, dir, vms, Listed(c.Fewer()), logger),
                  OtherSideObjs(rule, dir, vms, Listed(c.More()), logger),
                  Any !in other.wildcards && SomeHit(rule, OtherTargets(other), c.Extra()))
  {
    NamedGain(rule, dir, OtherTargets(rule.On(Opposite(dir))), vms, c, logger);
    hide NamedObjs, SomeHit, OtherTargets, IpObjs, SubnetObjs;
  }

  lemma {:induction false} RepeatGains(a: seq<SortObj>, b: seq<SortObj>, g: bool, n: nat)
    requires Gains(a, b, g)
    ensures Gains(Repeat(a, n), Repeat(b, n), g && n > 0)
  {
    if n > 0 {
      RepeatGains(a, b, g, n - 1);
      GainsConcat(Repeat(a, n - 1), Repeat(b, n - 1), g && n - 1 > 0, a, b, g);
    }
  }

  /** Whether the rule writes for v in this direction because of one of these VMs */
  ghost predicate DirReaches(v: Uuid, rule: Rule, dir: Direction, vms: seq<VM>, extra: seq<VM>) {
    && !NoRulesNeeded(dir, rule) && v in UuidsOnSide(vms, rule, dir)
    && Any !in rule.On(Opposite(dir)).wildcards && SomeHit(rule, OtherTargets(rule.On(Opposite(dir))), extra)
  }

  lemma DirGains(v: Uuid, rule: Rule, dir: Direction, vms: seq<VM>, c: Change, logger: bool)
    ensures Gains(DirObjs(v, rule, dir, vms, Listed(c.Fewer()), logger),
                  DirObjs(v, rule, dir, vms, Listed(c.More()), logger),
                  DirReaches(v, rule, dir, vms, c.Extra()))
  {
    OtherSideGains(rule, dir, vms, c, logger);
    var n, other := Count(UuidsOnSide(vms, rule, dir), v), rule.On(Opposite(dir));
    CountZero(UuidsOnSide(vms, rule, dir), v);
    hide OtherSideObjs, SomeHit, UuidsOnSide, Count;
    RepeatGains(OtherSideObjs(rule, dir, vms, Listed(c.Fewer()), logger),
                OtherSideObjs(rule, dir, vms, Listed(c.More()), logger),
                Any !in other.wildcards && SomeHit(rule, OtherTargets(other), c.Extra()), n);
  }

  ghost predicate RuleReaches(v: Uuid, rule: Rule, vms: seq<VM>, extra: seq<VM>) {
    rule.enabled && (DirReaches(v, rule, From, vms, extra) || DirReaches(v, rule, To, vms, extra))
  }

  lemma RuleGains(v: Uuid, rule: Rule, vms: seq<VM>, c: Change, logger: bool)
    ensures Gains(Contribution(v, rule, vms, Listed(c.Fewer()), logger),
                  Contribution(v, rule, vms, Listed(c.More()), logger),
                  RuleReaches(v, rule, vms, c.Extra()))
  {
    DirGains(v, rule, From, vms, c, logger);
    DirGains(v, rule, To, vms, c, logger);
    hide DirObjs, DirReaches;
  }

  ghost predicate SomeReaches(v: Uuid, rules: seq<Rule>, vms: seq<VM>, extra: seq<VM>) {
    exists r :: r in rules && RuleReaches(v, r, vms, extra)
  }

  lemma {:induction false} RulesGain(v: Uuid, rules: seq<Rule>, vms: seq<VM>, c: Change, logger: bool)
    ensures Gains(ConfObjs(v, rules, vms, Listed(c.Fewer()), logger), ConfObjs(v, rules, vms, Listed(c.More()), logger),
                  SomeReaches(v, rules, vms, c.Extra()))
  {
    if rules != [] {
      hide RuleReaches, Contribution;
      var front, r := rules[..|rules| - 1], rules[|rules| - 1];
      assert rules == front + [r] && r in rules;
      RulesGain(v, front, vms, c, logger);
      RuleGains(v, r, vms, c, logger);
    }
  }

  lemma SomeReachesIsReaches(v: Uuid, rules: seq<Rule>, vms: seq<VM>, extra: seq<VM>)
    ensures SomeReaches(v, rules, vms, extra) <==> Reaches(v, rules, vms, extra)
  {
    forall r, dir | r in rules && r.enabled && DirReaches(v, r, dir, vms, extra) ensures Reaches(v, rules, vms, extra) {
      var t :| t in OtherTargets(r.On(Opposite(dir))) && Hit(r, t, extra);
      var vm :| vm in extra && Selects(t, vm) && Writes(r, vm);
      assert WritesBecause(v, r, dir, vm, vms);
    }
    forall r, dir, vm | r in rules && vm in extra && WritesBecause(v, r, dir, vm, vms)
      ensures SomeReaches(v, rules, vms, extra)
    {
      var t :| t in OtherTargets(r.On(Opposite(dir))) && Selects(t, vm);
      assert Hit(r, t, extra);
      assert DirReaches(v, r, dir, vms, extra);
      assert dir == From || dir == To;
      assert RuleReaches(v, r, vms, extra);
    }
  }

  // ---- the file shows how many objects it was made of ----

  function Comments(texts: seq<Text>): nat {
    if texts == [] then 0
    else Comments(texts[..|texts| - 1]) + if texts[|texts| - 1].Comment? then 1 else 0
  }

  lemma {:induction false} CommentsConcat(a: seq<Text>, b: seq<Text>)
    ensures Comments(a + b) == Comments(a) + Comments(b)
  {
    if b == [] {
      assert a + b == a;
    } else {
      assert (a + b)[..|a + b| - 1] == a + b[..|b| - 1];
      CommentsConcat(a, b[..|b| - 1]);
    }
  }

  lemma {:induction false} NoComments(texts: seq<Text>)
    requires forall i :: 0 <= i < |texts| ==> !texts[i].Comment?
    ensures Comments(texts) == 0
  {
    if texts != [] {
      NoComments(texts[..|texts| - 1]);
    }
  }

  lemma {:induction false} BodyComments(objs: seq<SortObj>, iks: set<Protocol>, v6: bool)
    ensures Comments(Body(objs, iks, v6)) == |objs|
  {
    if objs != [] {
      hide Suffixed;
      var front, o := objs[..|objs| - 1], objs[|objs| - 1];
      BodyComments(front, iks, v6);
      var lines := Suffixed(if v6 then o.v6 else o.v4, KeepsState(o, iks), o.tags);
      NoComments(lines);
      CommentsConcat(Body(front, iks, v6) + [Comment(o.header)], lines);
      CommentsConcat(Body(front, iks, v6), [Comment(o.header)]);
      assert [Comment(o.header)][..0] == [];
    }
  }

  /** Equal files are made of equally many objects. */
  lemma SameLength(objs: seq<SortObj>, iks: set<Protocol>, objs': seq<SortObj>, iks': set<Protocol>)
    requires ConfOf(Sorting.Sort(objs, Before), iks) == ConfOf(Sorting.Sort(objs', Before), iks')
    ensures |objs| == |objs'|
  {
    Sorting.SortLength(objs, Before);
    Sorting.SortLength(objs', Before);
    var a, b := Sorting.Sort(objs, Before), Sorting.Sort(objs', Before);
    hide Sorting.Sort;
    BodyComments(a, iks, false);
    BodyComments(b, iks', false);
    CommentsConcat(Body(a, iks, false), Fallbacks(false));
    CommentsConcat(Body(b, iks', false), Fallbacks(false));
  }

  /** A change to the remote VMs leaves v's file as it is exactly when no rule writes lines for v
   *  because of one of the VMs that changed. */
  lemma RemoteChangeShows(v: Uuid, rules: seq<Rule>, vms: seq<VM>, c: Change, logger: bool)
    ensures SameRebuild(v, rules, rules, vms, c.Fewer(), c.More(), logger) <==> !Reaches(v, rules, vms, c.Extra())
  {
    RulesGain(v, rules, vms, c, logger);
    SomeReachesIsReaches(v, rules, vms, c.Extra());
    hide ConfObjs, Reaches, SomeReaches, ConfOf, InboundState;
    if SameRebuild(v, rules, rules, vms, c.Fewer(), c.More(), logger) {
      SameLength(ConfObjs(v, rules, vms, Listed(c.Fewer()), logger), InboundState(v, rules, vms),
                 ConfObjs(v, rules, vms, Listed(c.More()), logger), InboundState(v, rules, vms));
    }
  }

  // ---- when dropping rules changes a file ----

  /** The rule writes lines for v. */
  predicate WritesFor(v: Uuid, rule: Rule, vms: seq<VM>, rvms: seq<VM>, logger: bool) {
    Contribution(v, rule, vms, Listed(rvms), logger) != []
  }

  ghost predicate SomeWrites(v: Uuid, rules: seq<Rule>, uuids: set<Uuid>, vms: seq<VM>, rvms: seq<VM>, logger: bool) {
    exists r :: r in rules && r.uuid in uuids && WritesFor(v, r, vms, rvms, logger)
  }

  lemma SomeWritesSnoc(v: Uuid, rules: seq<Rule>, r: Rule, uuids: set<Uuid>, vms: seq<VM>, rvms: seq<VM>, logger: bool)
    ensures SomeWrites(v, rules + [r], uuids, vms, rvms, logger) <==>
      SomeWrites(v, rules, uuids, vms, rvms, logger) || (r.uuid in uuids && WritesFor(v, r, vms, rvms, logger))
  {
    hide WritesFor;
    forall x | x in rules ensures x in rules + [r] {
    }
    assert r in rules + [r];
  }

  /** What is left of the objects when the rules with these uuids are dropped */
  lemma {:induction false} DroppedGain(v: Uuid, rules: seq<Rule>, uuids: set<Uuid>, vms: seq<VM>, rvms: seq<VM>,
                                       logger: bool)
    ensures Gains(ConfObjs(v, Without(rules, uuids), vms, Listed(rvms), logger),
                  ConfObjs(v, rules, vms, Listed(rvms), logger),
                  SomeWrites(v, rules, uuids, vms, rvms, logger))
  {
    if rules != [] {
      hide SomeWrites, Contribution;
      var front, r := rules[..|rules| - 1], rules[|rules| - 1];
      assert rules == front + [r];
      DroppedGain(v, front, uuids, vms, rvms, logger);
      SomeWritesSnoc(v, front, r, uuids, vms, rvms, logger);
      FwIncremental.ConfObjsSnoc(v, Without(front, uuids), r, vms, Listed(rvms), logger);
    }
  }

  /** The rule makes v keep inbound state for its protocol. */
  predicate KeepsFor(v: Uuid, rule: Rule, vms: seq<VM>) {
    rule.enabled && rule.action == Block && v in UuidsOnSide(vms, rule, From)
  }

  lemma {:induction false} InboundMembers(v: Uuid, rules: seq<Rule>, vms: seq<VM>)
    ensures forall p :: p in InboundState(v, rules, vms) <==>
      exists r :: r in rules && KeepsFor(v, r, vms) && r.protocol == p
  {
    if rules != [] {
      hide UuidsOnSide;
      var front, r := rules[..|rules| - 1], rules[|rules| - 1];
      assert rules == front + [r] && r in rules;
      InboundMembers(v, front, vms);
    }
  }

  /** The object has lines, and whether these keep state depends on which of the two sets is used. */
  predicate ShowsState(o: SortObj, iks: set<Protocol>, iks': set<Protocol>) {
    (o.v4 != [] || o.v6 != []) && KeepsState(o, iks) != KeepsState(o, iks')
  }

  lemma SuffixShows(lines: seq<Line>, a: bool, b: bool, tags: Option<ReadTag>)
    ensures Suffixed(lines, a, tags) == Suffixed(lines, b, tags) <==> lines == [] || a == b
  {
    if lines != [] {
      assert Suffixed(lines, a, tags)[0] == Quick(lines[0], a, tags);
      assert Suffixed(lines, b, tags)[0] == Quick(lines[0], b, tags);
    }
  }

  lemma SplitEqual<T>(a: seq<T>, b: seq<T>, c: seq<T>, d: seq<T>)
    requires |b| == |d|
    ensures a + b == c + d <==> a == c && b == d
  {
    if a + b == c + d {
      assert a == (a + b)[..|a|] && c == (c + d)[..|c|];
      assert b == (a + b)[|a|..] && d == (c + d)[|c|..];
    }
  }

  function ObjLinesOf(o: SortObj, v6: bool): seq<Line> {
    if v6 then o.v6 else o.v4
  }

  lemma {:induction false} BodyShows(objs: seq<SortObj>, iks: set<Protocol>, iks': set<Protocol>, v6: bool)
    ensures Body(objs, iks, v6) == Body(objs, iks', v6) <==>
      forall o :: o in objs ==> ObjLinesOf(o, v6) == [] || KeepsState(o, iks) == KeepsState(o, iks')
  {
    if objs != [] {
      hide Suffixed, KeepsState;
      var front, o := objs[..|objs| - 1], objs[|objs| - 1];
      assert objs == front + [o] && o in objs;
      BodyShows(front, iks, iks', v6);
      var lines := ObjLinesOf(o, v6);
      SuffixShows(lines, KeepsState(o, iks), KeepsState(o, iks'), o.tags);
      SplitEqual(Body(front, iks, v6) + [Comment(o.header)], Suffixed(lines, KeepsState(o, iks), o.tags),
                 Body(front, iks', v6) + [Comment(o.header)], Suffixed(lines, KeepsState(o, iks'), o.tags));
      SplitEqual(Body(front, iks, v6), [Comment(o.header)], Body(front, iks', v6), [Comment(o.header)]);
    }
  }

  /** One list of objects with two sets of kept protocols */
  lemma ConfShows(objs: seq<SortObj>, iks: set<Protocol>, iks': set<Protocol>)
    ensures ConfOf(objs, iks) == ConfOf(objs, iks') <==> !exists o :: o in objs && ShowsState(o, iks, iks')
  {
    BodyShows(objs, iks, iks', false);
    BodyShows(objs, iks, iks', true);
    SplitEqual(Body(objs, iks, false), Fallbacks(false), Body(objs, iks', false), Fallbacks(false));
    SplitEqual(Body(objs, iks, true), Fallbacks(true), Body(objs, iks', true), Fallbacks(true));
    hide Body, Fallbacks, KeepsState;
  }

  /** Some object that is still there loses or gains the keeping of state. */
  ghost predicate StateShows(v: Uuid, rules: seq<Rule>, rules': seq<Rule>, vms: seq<VM>, rvms: seq<VM>, logger: bool) {
    exists o :: o in ConfObjs(v, rules, vms, Listed(rvms), logger)
      && ShowsState(o, InboundState(v, rules, vms), InboundState(v, rules', vms))
  }

  /** Dropping rules leaves v's file as it is exactly when none of them writes lines for v and no line
   *  that stays keeps state because of one of them alone. */
  lemma DroppedRulesShow(v: Uuid, rules: seq<Rule>, uuids: set<Uuid>, vms: seq<VM>, rvms: seq<VM>, logger: bool)
    ensures SameRebuild(v, Without(rules, uuids), rules, vms, rvms, rvms, logger) <==>
      && !SomeWrites(v, rules, uuids, vms, rvms, logger)
      && !StateShows(v, Without(rules, uuids), rules, vms, rvms, logger)
  {
    var kept := Without(rules, uuids);
    var objs, objs' := ConfObjs(v, kept, vms, Listed(rvms), logger), ConfObjs(v, rules, vms, Listed(rvms), logger);
    var iks, iks' := InboundState(v, kept, vms), InboundState(v, rules, vms);
    DroppedGain(v, rules, uuids, vms, rvms, logger);
    SortedObjs(v, kept, vms, rvms, logger);
    ConfShows(Sorting.Sort(objs, Before), iks, iks');
    hide ConfObjs, InboundState, SomeWrites, ConfOf, ShowsState, Sorting.Sort, Without;
    if SameRebuild(v, kept, rules, vms, rvms, rvms, logger) {
      SameLength(objs, iks, objs', iks');
    }
  }

  lemma SortedObjs(v: Uuid, rules: seq<Rule>, vms: seq<VM>, rvms: seq<VM>, logger: bool)
    ensures var objs := ConfObjs(v, rules, vms, Listed(rvms), logger);
            forall o :: o in Sorting.Sort(objs, Before) <==> o in objs
  {
    hide ConfObjs, Sorting.Sort;
    var objs := ConfObjs(v, rules, vms, Listed(rvms), logger);
    Sorting.SortKeeps(objs, Before);
    Sorting.SameMembers(Sorting.Sort(objs, Before), objs);
  }
}
