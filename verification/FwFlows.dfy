/** The data flow of del, and of add with remote VMs, ending in the files each writes. */
module FwFlows {
  import opened FwCompile
  import opened FwFilter
  import opened FwIncremental
  import opened FwLookup
  import opened FwPlan
  import opened FwReach
  import opened FwReadd
  import opened FwTypes
  import opened Options
  import opened Sequences

  // ---- del ----

  /** del finds v: a deleted rule, or a rule that names a deleted remote VM, touches it. */
  ghost predicate DeleteFinds(v: Uuid, disk: seq<Rule>, uuids: set<Uuid>, removed: seq<VM>, vms: seq<VM>) {
    || Touched(v, With(disk, uuids), vms, true)
    || exists r :: r in disk && TouchesRemote(r, removed) && TouchesUuid(r, vms, v)
  }

  /** An owned rule does not find a remote VM without an owner, although it writes lines for it. */
  predicate PassesOver(rule: Rule, vm: VM) {
    rule.owner.Some? && vm.owner.None?
  }

  ghost predicate ReachesUnowned(v: Uuid, rules: seq<Rule>, vms: seq<VM>, changed: seq<VM>) {
    exists r, dir, vm :: r in rules && vm in changed && PassesOver(r, vm) && WritesBecause(v, r, dir, vm, vms)
  }

  /** Every VM for which a kept, owned rule writes lines because of a deleted remote VM without an owner is
   *  found in some other way. */
  ghost predicate DeleteIsSound(disk: seq<Rule>, uuids: set<Uuid>, removed: seq<VM>, vms: seq<VM>) {
    forall v :: Enabled(vms, v) && ReachesUnowned(v, Without(disk, uuids), vms, removed) ==>
                  DeleteFinds(v, disk, uuids, removed, vms)
  }

  lemma ReachedVMTouchesRemote(rule: Rule, dir: Direction, t: Target, vm: VM, rvms: seq<VM>)
    requires ParsedRule(rule)
    requires t in OtherTargets(rule.On(Opposite(dir))) && Selects(t, vm)
    requires vm in rvms && !PassesOver(rule, vm) && OwnerCompatible(rule, vm)
    ensures TouchesRemote(rule, rvms)
  {
    SideTargetsMembers(rule.On(Opposite(dir)));
    SideIsCovered(rule, Opposite(dir), t, vm);
  }

  /** A rule that writes lines for v because of a remote VM that it does not pass over touches both. */
  lemma OwnedIsFound(v: Uuid, rule: Rule, dir: Direction, vm: VM, vms: seq<VM>, rvms: seq<VM>)
    requires ParsedRule(rule) && WritesBecause(v, rule, dir, vm, vms) && vm in rvms && !PassesOver(rule, vm)
    ensures TouchesRemote(rule, rvms) && TouchesUuid(rule, vms, v)
  {
    var t :| t in OtherTargets(rule.On(Opposite(dir))) && Selects(t, vm);
    ReachedVMTouchesRemote(rule, dir, t, vm, rvms);
    UuidsOnSideIsScan(vms, rule, dir, v);
    var local :| local in vms && local.uuid == v && OnSide(local, rule, dir);
    OnSideTouches(local, rule, dir);
  }

  /** del can only miss a VM for a remote VM without an owner. */
  lemma OnlyUnownedAreMissed(v: Uuid, disk: seq<Rule>, uuids: set<Uuid>, removed: seq<VM>, vms: seq<VM>)
    requires ParsedRules(disk) && !DeleteFinds(v, disk, uuids, removed, vms)
    ensures Reaches(v, Without(disk, uuids), vms, removed) <==> ReachesUnowned(v, Without(disk, uuids), vms, removed)
  {
    var kept := Without(disk, uuids);
    WithoutMembers(disk, uuids);
    hide WritesBecause;
    if Reaches(v, kept, vms, removed) {
      var r, dir, vm :| r in kept && vm in removed && WritesBecause(v, r, dir, vm, vms);
      if !PassesOver(r, vm) {
        OwnedIsFound(v, r, dir, vm, vms, removed);
      }
    }
  }

  /** The file of a VM that del does not find is right exactly when no kept rule wrote lines for it
   *  because of a deleted remote VM. */
  lemma UnfoundShows(v: Uuid, disk: seq<Rule>, uuids: set<Uuid>, gone: set<Uuid>, vms: seq<VM>, rvms: seq<VM>,
                     logger: bool)
    requires ParsedRules(disk) && !DeleteFinds(v, disk, uuids, VMsWith(rvms, gone), vms)
    ensures SameRebuild(v, Without(disk, uuids), disk, vms, VMsWithout(rvms, gone), rvms, logger)
       <==> !Reaches(v, Without(disk, uuids), vms, VMsWith(rvms, gone))
  {
    WithoutMembers(disk, uuids);
    forall r | r in disk && r.uuid in uuids ensures !TouchesUuid(r, vms, v) {
    }
    hide TouchesUuid, ParsedRule, Reaches;
    WithoutUntouched(v, disk, uuids, vms, Listed(rvms), logger);
    RemoteChangeShows(v, Without(disk, uuids), vms, Removed(rvms, gone), logger);
  }

  /** del: deletes rules and remote VMs. The files of the VMs that it finds are written, as a full rebuild
   *  would; that the others need not be holds exactly when none loses a line with a remote VM passed over. */
  method DeleteRules(disk: seq<Rule>, uuids: set<Uuid>, rvmUUIDs: set<Uuid>, vms: seq<VM>, rvms: seq<VM>, logger: bool)
    returns (kept: seq<Rule>, files: map<Uuid, Conf>)
    requires ParsedRules(disk) && DistinctRules(disk)
    requires DistinctVMs(vms) && DistinctVMs(rvms)
    ensures kept == Without(disk, uuids)
    ensures forall v :: v in files <==> Enabled(vms, v) && DeleteFinds(v, disk, uuids, VMsWith(rvms, rvmUUIDs), vms)
    ensures forall v :: v in files ==> files[v] == FullConf(v, kept, vms, VMsWithout(rvms, rvmUUIDs), logger)
    ensures (forall v :: Enabled(vms, v) && v !in files ==>
               SameRebuild(v, kept, disk, vms, VMsWithout(rvms, rvmUUIDs), rvms, logger))
            <==> DeleteIsSound(disk, uuids, VMsWith(rvms, rvmUUIDs), vms)
  {
    var local := CreateLookup(Local, vms);
    var removed, remaining := RvmsByUUIDs(rvms, rvmUUIDs);
    var remoteVMrules := RulesByRVMs(removed, VMsWith(rvms, rvmUUIDs), disk);
    ReachingMembers(disk, VMsWith(rvms, rvmUUIDs));
    var rvmVMs := VmsByRules(local, vms, remoteVMrules, true);
    var matching;
    matching, kept := RulesByUUIDs(disk, uuids);
    WithoutMembers(disk, uuids);
    var ruleVMs := VmsByRules(local, vms, matching, true);
    var affected := ruleVMs + rvmVMs;
    forall v ensures v in affected <==> DeleteFinds(v, disk, uuids, VMsWith(rvms, rvmUUIDs), vms) {
      FoundRemotely(v, disk, VMsWith(rvms, rvmUUIDs), vms);
    }
    var vmRules := RulesByVMs(local, vms, affected, kept);
    files := PrepareIpfData(local, remaining, vms, Listed(VMsWithout(rvms, rvmUUIDs)), vmRules, affected, logger);
    forall v | v in files ensures files[v] == FullConf(v, kept, vms, VMsWithout(rvms, rvmUUIDs), logger) {
      SliceGivesConf(kept, vms, Listed(VMsWithout(rvms, rvmUUIDs)), affected, v, logger);
    }
    UnfoundAreJudged(disk, uuids, rvmUUIDs, vms, rvms, logger);
  }

  lemma FoundRemotely(v: Uuid, rules: seq<Rule>, rvms: seq<VM>, vms: seq<VM>)
    ensures Touched(v, RulesReaching(rules, rvms), vms, true)
       <==> exists r :: r in rules && TouchesRemote(r, rvms) && TouchesUuid(r, vms, v)
  {
    hide TouchesRemote, Touches;
    ReachingMembers(rules, rvms);
    forall r | r in rules && TouchesRemote(r, rvms) && TouchesUuid(r, vms, v)
      ensures Touched(v, RulesReaching(rules, rvms), vms, true)
    {
      assert r in RulesReaching(rules, rvms);
    }
  }

  lemma UnfoundAreJudged(disk: seq<Rule>, uuids: set<Uuid>, gone: set<Uuid>, vms: seq<VM>, rvms: seq<VM>, logger: bool)
    requires ParsedRules(disk)
    ensures (forall v :: Enabled(vms, v) && !DeleteFinds(v, disk, uuids, VMsWith(rvms, gone), vms) ==>
               SameRebuild(v, Without(disk, uuids), disk, vms, VMsWithout(rvms, gone), rvms, logger))
            <==> DeleteIsSound(disk, uuids, VMsWith(rvms, gone), vms)
  {
    hide Reaches, ReachesUnowned, ParsedRule, DeleteFinds, Enabled;
    forall v | !DeleteFinds(v, disk, uuids, VMsWith(rvms, gone), vms)
      ensures SameRebuild(v, Without(disk, uuids), disk, vms, VMsWithout(rvms, gone), rvms, logger)
         <==> !ReachesUnowned(v, Without(disk, uuids), vms, VMsWith(rvms, gone))
    {
      UnfoundShows(v, disk, uuids, gone, vms, rvms, logger);
      OnlyUnownedAreMissed(v, disk, uuids, VMsWith(rvms, gone), vms);
    }
    hide SameRebuild;
  }

  // ---- add, with remote VMs only ----

  predicate NamesVMs(side: Side) {
    VmAll in side.wildcards || side.tags != [] || side.vms != []
  }

  /** getAffectedRules: whether new VMs on one side of a rule make the VMs of the other side change. */
  predicate IsAffected(rule: Rule, news: seq<VM>) {
    || (rule.action == Allow && UuidsOnSide(news, rule, From) != [] && NamesVMs(rule.destination))
    || (rule.action == Block && UuidsOnSide(news, rule, To) != [] && NamesVMs(rule.source))
  }

  function AffectedOf(rules: seq<Rule>, news: seq<VM>): seq<Rule> {
    if rules == [] then [] else
    var front, r := AffectedOf(rules[..|rules| - 1], news), rules[|rules| - 1];
    if IsAffected(r, news) then front + [r] else front
  }

  lemma {:induction false} AffectedMembers(rules: seq<Rule>, news: seq<VM>)
    ensures forall r :: r in AffectedOf(rules, news) <==> r in rules && IsAffected(r, news)
  {
    if rules != [] {
      hide IsAffected;
      var front, r := rules[..|rules| - 1], rules[|rules| - 1];
      assert rules == front + [r];
      AffectedMembers(front, news);
    }
  }

  /** getAffectedRules, as a filter */
  method AffectedRules(store: VMStore, ghost news: seq<VM>, rules: seq<Rule>) returns (affected: seq<Rule>)
    requires store.Indexes(news)
    ensures affected == AffectedOf(rules, news)
  {
    affected := [];
    for i := 0 to |rules|
      invariant affected == AffectedOf(rules[..i], news)
    {
      TakeOneMore(rules, i);
      var rule := rules[i];
      var sources := VmsOnSide(store, news, rule, From);
      var destinations := VmsOnSide(store, news, rule, To);
      if rule.action == Allow && |sources| > 0 {
        if VmAll in rule.destination.wildcards || |rule.destination.tags| > 0 || |rule.destination.vms| > 0 {
          affected := affected + [rule];
        }
      } else if rule.action == Block && |destinations| > 0 {
        if VmAll in rule.source.wildcards || |rule.source.tags| > 0 || |rule.source.vms| > 0 {
          affected := affected + [rule];
        }
      }
    }
    TakeAll(rules);
  }

  /** add finds v: an affected rule that names a new remote VM touches it. */
  ghost predicate AddFinds(v: Uuid, disk: seq<Rule>, news: seq<VM>, vms: seq<VM>) {
    exists r :: r in disk && TouchesRemote(r, news) && IsAffected(r, news) && TouchesUuid(r, vms, v)
  }

  /** In this direction the rule says what holds by default, so that only a priority has it written. */
  predicate RestatesDefault(dir: Direction, rule: Rule) {
    rule.action == if dir == To then Block else Allow
  }

  ghost predicate ReachesUnnoticed(v: Uuid, rules: seq<Rule>, vms: seq<VM>, changed: seq<VM>) {
    exists r, dir, vm :: r in rules && vm in changed && (PassesOver(r, vm) || RestatesDefault(dir, r))
                         && WritesBecause(v, r, dir, vm, vms)
  }

  /** Every VM for which a rule wrote lines because of a stored remote VM that changes is found, and every
   *  one for which an owned rule writes lines because of a new remote VM without an owner, or a rule that
   *  restates the default because of any. */
  ghost predicate AddIsSound(disk: seq<Rule>, rvms: seq<VM>, news: seq<VM>, vms: seq<VM>) {
    forall v :: Enabled(vms, v)
                && (Reaches(v, disk, vms, Outdated(rvms, news))
                    || ReachesUnnoticed(v, disk, vms, Renewed(rvms, news))) ==>
                  AddFinds(v, disk, news, vms)
  }

  /** A rule that writes lines for v because of a new VM is affected, unless one of the two holds. */
  lemma NewVMIsNoticed(v: Uuid, rule: Rule, dir: Direction, vm: VM, vms: seq<VM>, news: seq<VM>)
    requires ParsedRule(rule) && WritesBecause(v, rule, dir, vm, vms)
    requires vm in news && !PassesOver(rule, vm) && !RestatesDefault(dir, rule)
    ensures IsAffected(rule, news)
  {
    var other := Opposite(dir);
    var t :| t in OtherTargets(rule.On(other)) && Selects(t, vm);
    SideTargetsMembers(rule.On(other));
    assert OnSide(vm, rule, other);
    UuidsOnSideIsScan(news, rule, other, vm.uuid);
    assert vm.uuid in UuidsOnSide(news, rule, other);
    UuidsOnSideIsScan(vms, rule, dir, v);
    var local :| local in vms && local.uuid == v && OnSide(local, rule, dir);
  }

  /** Apart from those two, add finds every VM for which a rule writes because of a new remote VM. */
  lemma OnlyUnnoticedAreMissed(v: Uuid, disk: seq<Rule>, rvms: seq<VM>, news: seq<VM>, vms: seq<VM>)
    requires ParsedRules(disk) && !AddFinds(v, disk, news, vms)
    ensures Reaches(v, disk, vms, Renewed(rvms, news)) <==> ReachesUnnoticed(v, disk, vms, Renewed(rvms, news))
  {
    WithoutVMsMembers(news, Renewing(rvms, news));
    hide WritesBecause, IsAffected, Renewing;
    if Reaches(v, disk, vms, Renewed(rvms, news)) {
      var r, dir, vm :| r in disk && vm in Renewed(rvms, news) && WritesBecause(v, r, dir, vm, vms);
      if !PassesOver(r, vm) && !RestatesDefault(dir, r) {
        OwnedIsFound(v, r, dir, vm, vms, news);
        NewVMIsNoticed(v, r, dir, vm, vms, news);
      }
    }
  }

  /** Some VM that add does not find had lines because of a stored VM that changes, and has lines because of
   *  one that is added. */
  ghost predicate TradesUnfound(disk: seq<Rule>, rvms: seq<VM>, news: seq<VM>, vms: seq<VM>) {
    exists v :: Enabled(vms, v) && !AddFinds(v, disk, news, vms)
                && Reaches(v, disk, vms, Outdated(rvms, news)) && Reaches(v, disk, vms, Renewed(rvms, news))
  }

  /** add with a payload of remote VMs, stored before or not. The files of the VMs that it finds are
   *  written, from the table of the stored and the added ones; that is as a full rebuild would, if no stored
   *  VM loses or gains a tag. That the others need not be written holds, unless one of them trades lines,
   *  exactly when none of them had lines because of a stored VM that changes, and none has lines unnoticed
   *  because of one that is added. */
  method AddRemoteVMs(disk: seq<Rule>, vms: seq<VM>, rvms: seq<VM>, news: seq<VM>, logger: bool)
    returns (files: map<Uuid, Conf>)
    requires ParsedRules(disk) && DistinctRules(disk)
    requires DistinctVMs(vms) && DistinctVMs(rvms) && DistinctVMs(news)
    ensures forall v :: v in files <==> Enabled(vms, v) && AddFinds(v, disk, news, vms)
    ensures forall v :: v in files ==> files[v] == ConfFrom(v, disk, vms, Tabled(rvms + news), logger)
    ensures SameTags(rvms, news) ==>
      forall v :: v in files ==> files[v] == FullConf(v, disk, vms, Stored(rvms, news), logger)
    ensures !TradesUnfound(disk, rvms, news, vms) ==>
      ((forall v :: Enabled(vms, v) && v !in files ==>
          SameRebuild(v, disk, disk, vms, Stored(rvms, news), rvms, logger))
       <==> AddIsSound(disk, rvms, news, vms))
  {
    hide TradesUnfound, AddIsSound, SameTags, Stored, FullConf, ConfFrom, SameRebuild, AddFinds, ParsedRule;
    hide VMStore.Holds, VMStore.Reads, VMStore.Indexes, Touched, Dedup, RulesTouching;
    var local := CreateLookup(Local, vms);
    var remoteVMs := CreateLookup(Remote, news);
    var allRemoteVMs := CreateLookup(Remote, rvms + news);
    var remoteVMrules := RulesByRVMs(remoteVMs, news, disk);
    var localVMrules := RulesByVMs(local, vms, {}, disk);
    NoListedVMs(disk, vms);
    assert [] + remoteVMrules == remoteVMrules;
    var candidates := DedupRules(localVMrules, remoteVMrules);
    ReachingAreDistinct(disk, news);
    var affectedRules := AffectedRules(remoteVMs, news, candidates);
    var mergedVMs := VmsByRules(local, vms, affectedRules, true);
    forall v ensures v in mergedVMs <==> AddFinds(v, disk, news, vms) {
      FoundByAdd(v, disk, news, vms);
    }
    var vmRules := RulesByVMs(local, vms, mergedVMs, disk);
    files := PrepareIpfData(local, allRemoteVMs, vms, Tabled(rvms + news), vmRules, mergedVMs, logger);
    forall v | v in files ensures files[v] == ConfFrom(v, disk, vms, Tabled(rvms + news), logger) {
      SliceGivesConf(disk, vms, Tabled(rvms + news), mergedVMs, v, logger);
    }
    WrittenAreJudged(files, disk, vms, rvms, news, logger);
    UnnoticedAreJudged(disk, vms, rvms, news, logger);
  }

  lemma WrittenAreJudged(files: map<Uuid, Conf>, disk: seq<Rule>, vms: seq<VM>, rvms: seq<VM>, news: seq<VM>,
                         logger: bool)
    requires DistinctVMs(rvms) && DistinctVMs(news)
    requires forall v :: v in files ==> files[v] == ConfFrom(v, disk, vms, Tabled(rvms + news), logger)
    ensures SameTags(rvms, news) ==>
      forall v :: v in files ==> files[v] == FullConf(v, disk, vms, Stored(rvms, news), logger)
  {
    hide ConfFrom, FullConf, DistinctVMs, Stored, SameTags;
    ghost var stored := Stored(rvms, news);
    forall v | v in files && SameTags(rvms, news) ensures files[v] == FullConf(v, disk, vms, stored, logger) {
      AddedGivesStored(v, disk, vms, rvms, news, logger);
    }
  }

  lemma UnnoticedAreJudged(disk: seq<Rule>, vms: seq<VM>, rvms: seq<VM>, news: seq<VM>, logger: bool)
    requires ParsedRules(disk) && DistinctVMs(rvms) && DistinctVMs(news)
    ensures !TradesUnfound(disk, rvms, news, vms) ==>
      ((forall v :: Enabled(vms, v) && !AddFinds(v, disk, news, vms) ==>
          SameRebuild(v, disk, disk, vms, Stored(rvms, news), rvms, logger))
       <==> AddIsSound(disk, rvms, news, vms))
  {
    hide Reaches, ReachesUnnoticed, AddFinds, Enabled, ParsedRule, Stored, Outdated, Renewed, DistinctVMs;
    forall v | !TradesUnfound(disk, rvms, news, vms) && Enabled(vms, v) && !AddFinds(v, disk, news, vms)
      ensures SameRebuild(v, disk, disk, vms, Stored(rvms, news), rvms, logger) <==>
        !Reaches(v, disk, vms, Outdated(rvms, news)) && !ReachesUnnoticed(v, disk, vms, Renewed(rvms, news))
    {
      ReaddingShows(v, disk, vms, rvms, news, logger);
      OnlyUnnoticedAreMissed(v, disk, rvms, news, vms);
    }
    hide SameRebuild;
  }

  lemma FoundByAdd(v: Uuid, disk: seq<Rule>, news: seq<VM>, vms: seq<VM>)
    ensures Touched(v, AffectedOf(RulesReaching(disk, news), news), vms, true) <==> AddFinds(v, disk, news, vms)
  {
    hide TouchesRemote, Touches, IsAffected;
    var affected := AffectedOf(RulesReaching(disk, news), news);
    ReachingMembers(disk, news);
    AffectedMembers(RulesReaching(disk, news), news);
    forall r | r in disk && TouchesRemote(r, news) && IsAffected(r, news) && TouchesUuid(r, vms, v)
      ensures Touched(v, affected, vms, true)
    {
      assert r in affected;
    }
  }

  lemma {:induction false} NoListedVMs(rules: seq<Rule>, vms: seq<VM>)
    ensures RulesTouching(rules, vms, {}) == []
  {
    if rules != [] { NoListedVMs(rules[..|rules| - 1], vms); }
  }

  /** Rules of distinct uuids are not thinned out by deduplication. */
  lemma {:induction false} ReachingAreDistinct(rules: seq<Rule>, news: seq<VM>)
    requires DistinctRules(rules)
    ensures Dedup(RulesReaching(rules, news)) == RulesReaching(rules, news)
    ensures UuidsOf(RulesReaching(rules, news)) <= UuidsOf(rules)
  {
    if rules != [] {
      hide TouchesRemote;
      var front, r := rules[..|rules| - 1], rules[|rules| - 1];
      assert rules == front + [r];
      ReachingAreDistinct(front, news);
      UuidsOfSnoc(front, r);
      UuidsOfSnoc(RulesReaching(front, news), r);
      var reaching := RulesReaching(front, news);
      assert (reaching + [r])[..|reaching|] == reaching;
    }
  }
}
