/** filter.js: which rules concern which VMs, read from the lookup tables. */
module FwFilter {
  import opened FwCompile
  import opened FwLookup
  import opened FwPlan
  import opened FwTypes
  import opened Options
  import opened Sequences

  // ---- what the filters select ----

  /** The targets ruleTypeWalk visits: the rule's top-level lists. */
  function RuleTargets(rule: Rule): seq<Target> {
    IpTargets(rule.ips) + TagTargets(rule.tags) + VmTargets(rule.vms) + WildcardTargets(rule.wildcards)
  }

  /** The keys rulesByRVMs looks up: it ignores the value of a valued tag. */
  function KeyOf(t: Target): Target {
    match t
    case OnTag(tag) => OnTag(TagKey(tag.key))
    case _ => t
  }

  function RemoteTargets(rule: Rule): seq<Target> {
    TagTargets(rule.tags) + VmTargets(rule.vms) + WildcardTargets(rule.wildcards)
  }

  /** The rule names vm through one of its top-level lists, and the owners agree. */
  ghost predicate Touches(rule: Rule, vm: VM) {
    OwnerMatches(rule, vm) && exists t :: t in RuleTargets(rule) && Selects(t, vm)
  }

  ghost predicate TouchesSome(rule: Rule, vms: seq<VM>, listed: set<Uuid>) {
    exists vm :: vm in vms && vm.uuid in listed && Touches(rule, vm)
  }

  /** Some rule touches the VM of this uuid. */
  ghost predicate Touched(u: Uuid, rules: seq<Rule>, vms: seq<VM>, includeDisabled: bool) {
    exists r, vm :: r in rules && vm in vms && vm.uuid == u && Touches(r, vm) && (includeDisabled || vm.enabled)
  }

  ghost predicate TouchesRemote(rule: Rule, rvms: seq<VM>) {
    exists t, vm :: t in RemoteTargets(rule) && vm in rvms && Selects(KeyOf(t), vm) && OwnerMatches(rule, vm)
  }

  ghost function RulesTouching(rules: seq<Rule>, vms: seq<VM>, listed: set<Uuid>): seq<Rule> {
    if rules == [] then [] else
    var front := RulesTouching(rules[..|rules| - 1], vms, listed);
    var r := rules[|rules| - 1];
    if TouchesSome(r, vms, listed) then front + [r] else front
  }

  /** The rules that name one of these remote VMs, in their order */
  ghost function RulesReaching(rules: seq<Rule>, rvms: seq<VM>): seq<Rule> {
    if rules == [] then [] else
    var front := RulesReaching(rules[..|rules| - 1], rvms);
    var r := rules[|rules| - 1];
    if TouchesRemote(r, rvms) then front + [r] else front
  }

  function UuidsOf(rules: seq<Rule>): set<Uuid> {
    set i | 0 <= i < |rules| :: rules[i].uuid
  }

  function With(rules: seq<Rule>, uuids: set<Uuid>): seq<Rule> {
    if rules == [] then [] else
    var front := With(rules[..|rules| - 1], uuids);
    var r := rules[|rules| - 1];
    if r.uuid in uuids then front + [r] else front
  }

  function Without(rules: seq<Rule>, uuids: set<Uuid>): seq<Rule> {
    if rules == [] then [] else
    var front := Without(rules[..|rules| - 1], uuids);
    var r := rules[|rules| - 1];
    if r.uuid in uuids then front else front + [r]
  }

  function VMsWithout(vms: seq<VM>, uuids: set<Uuid>): seq<VM> {
    if vms == [] then [] else
    var front := VMsWithout(vms[..|vms| - 1], uuids);
    var vm := vms[|vms| - 1];
    if vm.uuid in uuids then front else front + [vm]
  }

  function VMsWith(vms: seq<VM>, uuids: set<Uuid>): seq<VM> {
    if vms == [] then [] else
    var front := VMsWith(vms[..|vms| - 1], uuids);
    var vm := vms[|vms| - 1];
    if vm.uuid in uuids then front + [vm] else front
  }

  /** The first rule of each uuid. */
  function Dedup(rules: seq<Rule>): seq<Rule> {
    if rules == [] then [] else
    var front := rules[..|rules| - 1];
    var r := rules[|rules| - 1];
    if r.uuid in UuidsOf(front) then Dedup(front) else Dedup(front) + [r]
  }

  // ---- the loops ----

  /** One rule's walk in rulesByVMs: stops at the first listed VM an entry holds under a matching owner. */
  method TouchesListed(store: VMStore, ghost vms: seq<VM>, listed: set<Uuid>, rule: Rule) returns (hit: bool)
    requires store.Indexes(vms)
    ensures hit <==> TouchesSome(rule, vms, listed)
  {
    hit := false;
    var targets := RuleTargets(rule);
    for k := 0 to |targets|
      invariant hit <==>
        exists t, vm :: t in targets[..k] && vm in vms && Selects(t, vm) && vm.uuid in listed && OwnerMatches(rule, vm)
    {
      TakeOneMore(targets, k);
      var vmList := store.Entry(targets[k]);
      InScan(vms, targets[k]);
      var found := false;
      for i := 0 to |vmList|
        invariant found <==> exists vm :: vm in vmList[..i] && vm.uuid in listed && OwnerMatches(rule, vm)
      {
        TakeOneMore(vmList, i);
        if vmList[i].uuid in listed && OwnerMatches(rule, vmList[i]) {
          found := true;
        }
      }
      TakeAll(vmList);
      hit := hit || found;
    }
    TakeAll(targets);
  }

  /** rulesByVMs */
  method RulesByVMs(store: VMStore, ghost vms: seq<VM>, listed: set<Uuid>, rules: seq<Rule>)
    returns (matching: seq<Rule>)
    requires store.Indexes(vms)
    requires DistinctRules(rules)
    ensures matching == RulesTouching(rules, vms, listed)
  {
    matching := [];
    var matchingUUIDs: set<Uuid> := {};
    for i := 0 to |rules|
      invariant matching == RulesTouching(rules[..i], vms, listed)
      invariant forall u :: u in matchingUUIDs ==> exists j :: 0 <= j < i && rules[j].uuid == u
    {
      TakeOneMore(rules, i);
      var hit := TouchesListed(store, vms, listed, rules[i]);
      if hit && rules[i].uuid !in matchingUUIDs {
        matching := matching + [rules[i]];
        matchingUUIDs := matchingUUIDs + {rules[i].uuid};
      }
    }
    TakeAll(rules);
  }

  /** vmsByRules */
  method VmsByRules(store: VMStore, ghost vms: seq<VM>, rules: seq<Rule>,
                    includeDisabled: bool) returns (matching: set<Uuid>)
    requires store.Indexes(vms)
    ensures forall u :: u in matching <==> Touched(u, rules, vms, includeDisabled)
  {
    matching := {};
    for i := 0 to |rules|
      invariant forall u :: u in matching <==> Touched(u, rules[..i], vms, includeDisabled)
    {
      TakeOneMore(rules, i);
      var touched := VmsOfRule(store, vms, rules[i], includeDisabled);
      matching := matching + touched;
    }
    TakeAll(rules);
  }

  ghost predicate OwnedIn(u: Uuid, found: seq<VM>, rule: Rule, includeDisabled: bool) {
    exists vm :: vm in found && vm.uuid == u && OwnerMatches(rule, vm) && (includeDisabled || vm.enabled)
  }

  method VmsOfRule(store: VMStore, ghost vms: seq<VM>, rule: Rule, includeDisabled: bool) returns (touched: set<Uuid>)
    requires store.Indexes(vms)
    ensures forall u :: u in touched <==>
      exists vm :: vm in vms && vm.uuid == u && Touches(rule, vm) && (includeDisabled || vm.enabled)
  {
    touched := {};
    var targets := RuleTargets(rule);
    for k := 0 to |targets|
      invariant forall u :: u in touched <==>
        exists t, vm :: t in targets[..k] && Selects(t, vm) && vm in vms && vm.uuid == u && OwnerMatches(rule, vm)
                        && (includeDisabled || vm.enabled)
    {
      TakeOneMore(targets, k);
      var vmList := store.Entry(targets[k]);
      InScan(vms, targets[k]);
      ghost var before := touched;
      for i := 0 to |vmList|
        invariant forall u :: u in touched <==> u in before || OwnedIn(u, vmList[..i], rule, includeDisabled)
      {
        TakeOneMore(vmList, i);
        if OwnerMatches(rule, vmList[i]) && (includeDisabled || vmList[i].enabled) {
          touched := touched + {vmList[i].uuid};
        }
      }
      TakeAll(vmList);
    }
    TakeAll(targets);
  }

  method TouchesRemoteStore(store: VMStore, ghost rvms: seq<VM>, rule: Rule) returns (hit: bool)
    requires store.Indexes(rvms)
    ensures hit <==> TouchesRemote(rule, rvms)
  {
    hit := false;
    var targets := RemoteTargets(rule);
    for k := 0 to |targets|
      invariant hit <==>
        exists t, vm :: t in targets[..k] && vm in rvms && Selects(KeyOf(t), vm) && OwnerMatches(rule, vm)
    {
      TakeOneMore(targets, k);
      var vmList := store.Entry(KeyOf(targets[k]));
      InScan(rvms, KeyOf(targets[k]));
      if rule.owner.None? {
        if vmList != [] {
          assert vmList[0] in vmList;
          hit := true;
        }
      } else {
        var found := false;
        for i := 0 to |vmList|
          invariant found <==> exists vm :: vm in vmList[..i] && OwnerMatches(rule, vm)
        {
          TakeOneMore(vmList, i);
          if OwnerMatches(rule, vmList[i]) {
            found := true;
          }
        }
        TakeAll(vmList);
        hit := hit || found;
      }
    }
    TakeAll(targets);
  }

  /** rulesByRVMs */
  method RulesByRVMs(store: VMStore, ghost rvms: seq<VM>, rules: seq<Rule>) returns (matching: seq<Rule>)
    requires store.Indexes(rvms)
    requires DistinctRules(rules)
    ensures matching == RulesReaching(rules, rvms)
  {
    matching := [];
    var matchingUUIDs: set<Uuid> := {};
    for i := 0 to |rules|
      invariant matching == RulesReaching(rules[..i], rvms)
      invariant forall u :: u in matchingUUIDs ==> exists j :: 0 <= j < i && rules[j].uuid == u
    {
      TakeOneMore(rules, i);
      var hit := TouchesRemoteStore(store, rvms, rules[i]);
      if hit && rules[i].uuid !in matchingUUIDs {
        matching := matching + [rules[i]];
        matchingUUIDs := matchingUUIDs + {rules[i].uuid};
      }
    }
    TakeAll(rules);
  }

  lemma {:induction false} ReachingMembers(rules: seq<Rule>, rvms: seq<VM>)
    ensures forall r :: r in RulesReaching(rules, rvms) <==> r in rules && TouchesRemote(r, rvms)
  {
    if rules != [] {
      var front, r := rules[..|rules| - 1], rules[|rules| - 1];
      assert rules == front + [r];
      ReachingMembers(front, rvms);
    }
  }

  /** rulesByUUIDs: a uuid is taken off the list when its rule is found. */
  method RulesByUUIDs(rules: seq<Rule>, uuids: set<Uuid>) returns (matching: seq<Rule>, notMatching: seq<Rule>)
    requires DistinctRules(rules)
    ensures matching == With(rules, uuids) && notMatching == Without(rules, uuids)
  {
    matching, notMatching := [], [];
    var uuidHash := uuids;
    for i := 0 to |rules|
      invariant matching == With(rules[..i], uuids) && notMatching == Without(rules[..i], uuids)
      invariant uuidHash == uuids - UuidsOf(rules[..i])
    {
      TakeOneMore(rules, i);
      UuidsOfSnoc(rules[..i], rules[i]);
      assert rules[i].uuid !in UuidsOf(rules[..i]);
      if rules[i].uuid in uuidHash {
        uuidHash := uuidHash - {rules[i].uuid};
        matching := matching + [rules[i]];
      } else {
        notMatching := notMatching + [rules[i]];
      }
    }
    TakeAll(rules);
  }

  /** rvmsByUUIDs: the table split in two. */
  method RvmsByUUIDs(rvms: seq<VM>, uuids: set<Uuid>) returns (matching: VMStore, notMatching: VMStore)
    requires DistinctVMs(rvms)
    ensures fresh(matching) && fresh(notMatching)
    ensures matching.Indexes(VMsWith(rvms, uuids)) && notMatching.Indexes(VMsWithout(rvms, uuids))
  {
    var inside, outside := [], [];
    for i := 0 to |rvms|
      invariant inside == VMsWith(rvms[..i], uuids) && outside == VMsWithout(rvms[..i], uuids)
    {
      TakeOneMore(rvms, i);
      if rvms[i].uuid in uuids {
        inside := inside + [rvms[i]];
      } else {
        outside := outside + [rvms[i]];
      }
    }
    TakeAll(rvms);
    SplitDistinct(rvms, uuids);
    matching := CreateLookup(Remote, inside);
    notMatching := CreateLookup(Remote, outside);
  }

  lemma {:induction false} SplitDistinct(vms: seq<VM>, uuids: set<Uuid>)
    requires DistinctVMs(vms)
    ensures forall vm :: vm in VMsWith(vms, uuids) <==> vm in vms && vm.uuid in uuids
    ensures forall vm :: vm in VMsWithout(vms, uuids) <==> vm in vms && vm.uuid !in uuids
    ensures DistinctVMs(VMsWith(vms, uuids)) && DistinctVMs(VMsWithout(vms, uuids))
  {
    if vms != [] {
      var front, vm := vms[..|vms| - 1], vms[|vms| - 1];
      SplitDistinct(front, uuids);
      assert vms == front + [vm];
      var a, b := VMsWith(front, uuids), VMsWithout(front, uuids);
      forall i | 0 <= i < |a| ensures a[i].uuid != vm.uuid { assert a[i] in front; }
      forall i | 0 <= i < |b| ensures b[i].uuid != vm.uuid { assert b[i] in front; }
    }
  }

  /** dedupRules */
  method DedupRules(list1: seq<Rule>, list2: seq<Rule>) returns (kept: seq<Rule>)
    ensures kept == Dedup(list1 + list2)
  {
    kept := [];
    var seenUUIDs: set<Uuid> := {};
    var list := list1 + list2;
    for i := 0 to |list|
      invariant kept == Dedup(list[..i])
      invariant seenUUIDs == UuidsOf(list[..i])
    {
      TakeOneMore(list, i);
      UuidsOfSnoc(list[..i], list[i]);
      if list[i].uuid !in seenUUIDs {
        kept := kept + [list[i]];
        seenUUIDs := seenUUIDs + {list[i].uuid};
      }
    }
    TakeAll(list);
  }

  lemma UuidsOfSnoc(rules: seq<Rule>, r: Rule)
    ensures UuidsOf(rules + [r]) == UuidsOf(rules) + {r.uuid}
  {
    var s := rules + [r];
    assert s[|rules|] == r;
    assert forall i :: 0 <= i < |rules| ==> s[i] == rules[i];
  }

  // ---- the tables agree with the sides of a rule ----

  lemma RuleTargetsMembers(rule: Rule)
    ensures forall t :: t in RuleTargets(rule) <==>
      match t
      case OnIp(ip) => ip in rule.ips
      case OnTag(tag) => tag in rule.tags
      case OnVm(u) => u in rule.vms
      case OnWildcard(w) => w in rule.wildcards
    ensures forall t :: t in RemoteTargets(rule) <==> t in RuleTargets(rule) && !t.OnIp?
  {
    TargetMembers(rule.ips, rule.tags, rule.vms, rule.wildcards);
  }

  /** Every target of a side is covered by the top-level lists. */
  lemma SideIsCovered(rule: Rule, dir: Direction, t: Target, vm: VM)
    requires ParsedRule(rule)
    requires t in SideTargets(rule.On(dir)) && Selects(t, vm)
    ensures exists k :: k in RemoteTargets(rule) && Selects(k, vm) && Selects(KeyOf(k), vm)
  {
    SideTargetsMembers(rule.On(dir));
    RuleTargetsMembers(rule);
    if t.OnTag? && t.tag !in rule.tags {
      assert OnTag(TagKey(t.tag.key)) in RemoteTargets(rule) && Selects(OnTag(TagKey(t.tag.key)), vm);
    } else {
      assert t in RemoteTargets(rule) && Selects(t, vm) && Selects(KeyOf(t), vm);
    }
  }

  lemma OnSideHasTarget(vm: VM, rule: Rule, dir: Direction) returns (t: Target)
    requires OnSide(vm, rule, dir)
    ensures t in SideTargets(rule.On(dir)) && Selects(t, vm)
  {
    var side := rule.On(dir);
    SideTargetsMembers(side);
    if vm.uuid in side.vms {
      t := OnVm(vm.uuid);
    } else if VmAll in side.wildcards {
      t := OnWildcard(VmAll);
    } else {
      var tag :| tag in side.tags && Selects(OnTag(tag), vm);
      t := OnTag(tag);
    }
  }

  /** A VM on either side of a rule is one the rule touches. */
  lemma OnSideTouches(vm: VM, rule: Rule, dir: Direction)
    requires ParsedRule(rule)
    requires OnSide(vm, rule, dir)
    ensures Touches(rule, vm)
  {
    var t := OnSideHasTarget(vm, rule, dir);
    SideIsCovered(rule, dir, t, vm);
    RuleTargetsMembers(rule);
  }

  /** vmsByRules([r]) holds v exactly when rulesByVMs({v}) holds r, and both cover
   *  whatever vmsOnSide finds on either side of r.
   */
  lemma IndexesAgree(vms: seq<VM>, rule: Rule, v: Uuid)
    requires ParsedRule(rule)
    ensures Touched(v, [rule], vms, true) <==> rule in RulesTouching([rule], vms, {v})
    ensures v in UuidsOnSide(vms, rule, From) || v in UuidsOnSide(vms, rule, To) ==> Touched(v, [rule], vms, true)
  {
    assert [rule][..0] == [];
    assert rule in [rule];
    UuidsOnSideIsScan(vms, rule, From, v);
    UuidsOnSideIsScan(vms, rule, To, v);
    forall vm, dir | OnSide(vm, rule, dir) ensures Touches(rule, vm) {
      OnSideTouches(vm, rule, dir);
    }
  }
}
