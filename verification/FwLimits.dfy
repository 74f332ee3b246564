/** Where the incremental paths stop matching a full rebuild: a remote VM without an owner, a rule with a
 *  priority, a remote VM that is added again, and a payload that names a rule twice, each with a small
 *  configuration that shows it.
 */
module FwLimits {
  import opened FwCompile
  import opened FwFilter
  import opened FwFlows
  import opened FwIncremental
  import opened FwLookup
  import FwOrder
  import opened FwPlan
  import opened FwReach
  import opened FwReadd
  import FwSemantics
  import opened FwTypes
  import opened FwUpdate
  import opened Options

  const LOCAL := VM("l", true, [V4(1)], Some("o"), map[])

  function RemoteVM(owner: Option<Uuid>): VM {
    VM("r", true, [V4(2)], owner, map[])
  }

  const FROM_REMOTE := Side([], [], [], ["r"], [])
  const TO_LOCAL := Side([], [], [], ["l"], [])

  /** A rule from the remote VM to the local one */
  function RemoteToLocal(action: Action, priority: nat): Rule {
    Rule("u", "1", true, false, action, priority, Tcp, [Port(80)], Some("o"), FROM_REMOTE, TO_LOCAL,
         [], [], ["r", "l"], [])
  }

  lemma IsParsed(action: Action, priority: nat)
    ensures ParsedRule(RemoteToLocal(action, priority))
  {
  }

  /** The rule writes for the local VM because of the remote one, unless it restates the default. */
  lemma RuleReachesLocal(action: Action, priority: nat, remote: VM)
    requires var rule := RemoteToLocal(action, priority); !NoRulesNeeded(To, rule) && OwnerCompatible(rule, remote)
    requires remote.uuid == "r" && remote.ips != []
    ensures WritesBecause("l", RemoteToLocal(action, priority), To, remote, [LOCAL])
  {
    var rule := RemoteToLocal(action, priority);
    UuidsOnSideIsScan([LOCAL], rule, To, "l");
    assert LOCAL in [LOCAL] && OnSide(LOCAL, rule, To);
    assert OtherTargets(FROM_REMOTE) == [OnVm("r")];
    assert OnVm("r") in OtherTargets(rule.On(From)) && Selects(OnVm("r"), remote);
  }

  lemma LocalIsReached(action: Action, priority: nat, remote: VM)
    requires WritesBecause("l", RemoteToLocal(action, priority), To, remote, [LOCAL])
    ensures Reaches("l", [RemoteToLocal(action, priority)], [LOCAL], [remote])
    ensures Enabled([LOCAL], "l")
  {
    hide WritesBecause;
    var rule := RemoteToLocal(action, priority);
    assert rule in [rule] && remote in [remote] && LOCAL in [LOCAL];
  }

  /** A new remote VM that a block rule of priority 1 names as its source: getAffectedRules passes the
   *  rule over, yet the local VM's file should change. */
  lemma PriorityBreaksAdd(logger: bool)
    ensures var rule, news := RemoteToLocal(Block, 1), [RemoteVM(Some("o"))];
            && ParsedRule(rule) && !PassesOver(rule, news[0])
            && !AddIsSound([rule], [], news, [LOCAL])
            && !SameRebuild("l", [rule], [rule], [LOCAL], [], [] + news, logger)
  {
    hide SameRebuild, Reaches, ParsedRule, AddIsSound, WritesBecause, IsAffected, Enabled;
    var rule, remote := RemoteToLocal(Block, 1), RemoteVM(Some("o"));
    IsParsed(Block, 1);
    RuleReachesLocal(Block, 1, remote);
    LocalIsReached(Block, 1, remote);
    PassedOver(rule, remote);
    assert [] + [remote] == [remote];
    RemoteChangeShows("l", [rule], [LOCAL], Added([], [remote]), logger);
    AffectsNobody(rule, remote);
  }

  lemma PassedOver(rule: Rule, remote: VM)
    requires rule.destination == TO_LOCAL && remote.uuid != "l" && rule.action == Block
    ensures !IsAffected(rule, [remote])
  {
    NotDestination(rule, remote);
    hide UuidsOnSide;
  }

  lemma AffectsNobody(rule: Rule, remote: VM)
    requires !IsAffected(rule, [remote]) && Enabled([LOCAL], "l")
    requires RestatesDefault(To, rule) && WritesBecause("l", rule, To, remote, [LOCAL])
    ensures !AddIsSound([rule], [], [remote], [LOCAL])
  {
    assert remote in [remote] && rule in [rule] && Renewing([], [remote]) == {remote.uuid};
    WithoutVMsMembers([remote], Renewing([], [remote]));
    hide IsAffected, Reaches, TouchesRemote, TouchesUuid, Enabled, WritesBecause, Renewing;
    assert !AddFinds("l", [rule], [remote], [LOCAL]);
  }

  lemma NotDestination(rule: Rule, remote: VM)
    requires rule.destination == TO_LOCAL && remote.uuid != "l"
    ensures UuidsOnSide([remote], rule, To) == []
  {
    var uuids := UuidsOnSide([remote], rule, To);
    FirstIn(uuids);
    forall u ensures u !in uuids {
      UuidsOnSideIsScan([remote], rule, To, u);
    }
  }

  /** A remote VM without an owner that an owned rule names: the rule writes lines for it, but is not
   *  found when the remote VM is deleted, so the local VM keeps a file that should change. */
  lemma OwnerlessBreaksDelete(logger: bool)
    ensures var rule, rvms := RemoteToLocal(Allow, 0), [RemoteVM(None)];
            && ParsedRule(rule) && DistinctVMs(rvms) && VMsWith(rvms, {"r"}) == rvms
            && !DeleteIsSound([rule], {}, rvms, [LOCAL])
            && !SameRebuild("l", [rule], [rule], [LOCAL], VMsWithout(rvms, {"r"}), rvms, logger)
  {
    hide ParsedRule, TouchesRemote, WritesBecause, SameRebuild, Enabled, Reaches, DeleteIsSound, VMsWith, VMsWithout;
    hide Without;
    var rule, remote := RemoteToLocal(Allow, 0), RemoteVM(None);
    IsParsed(Allow, 0);
    RuleReachesLocal(Allow, 0, remote);
    LocalIsReached(Allow, 0, remote);
    OnlyRemote(remote);
    OwnerlessIsMissed(rule, remote);
    NothingDeleted(rule, remote);
    RemoteChangeShows("l", [rule], [LOCAL], Removed([remote], {"r"}), logger);
  }

  lemma OnlyRemote(remote: VM)
    requires remote.uuid == "r"
    ensures VMsWith([remote], {"r"}) == [remote]
  {
    assert [remote][..0] == [];
  }

  lemma OwnerlessIsMissed(rule: Rule, remote: VM)
    requires rule.owner.Some? && remote.owner.None?
    ensures !TouchesRemote(rule, [remote])
  {
    hide RemoteTargets;
  }

  lemma NothingDeleted(rule: Rule, remote: VM)
    requires !TouchesRemote(rule, [remote]) && Enabled([LOCAL], "l")
    requires PassesOver(rule, remote) && WritesBecause("l", rule, To, remote, [LOCAL])
    ensures !DeleteIsSound([rule], {}, [remote], [LOCAL]) && Without([rule], {}) == [rule]
  {
    hide TouchesRemote, TouchesUuid, WritesBecause, Enabled, With, Without, DeleteFinds;
    assert remote in [remote] && rule in [rule];
    DropNothing([rule]);
    NothingFound(rule, remote);
    assert ReachesUnowned("l", [rule], [LOCAL], [remote]);
  }

  lemma NothingFound(rule: Rule, remote: VM)
    requires !TouchesRemote(rule, [remote])
    ensures !DeleteFinds("l", [rule], {}, [remote], [LOCAL])
  {
    hide TouchesRemote, TouchesUuid, Touches;
    assert [rule][..0] == [];
    assert With([rule], {}) == [];
  }

  /** A remote VM as it is stored, and as it is added again: without its tag, at another address */
  const STORED := VM("r", true, [V4(2)], Some("o"), map["t" := "x"])
  const ADDED := VM("r", true, [V4(3)], Some("o"), map[])

  const TAG := OnTag(TagKey("t"))

  /** A rule from the VMs with that tag to the local one */
  function TagToLocal(): Rule {
    RemoteToLocal(Allow, 0).(uuid := "t", source := Side([], [], [TagKey("t")], [], []), tags := [TagKey("t")],
                             vms := ["l"])
  }

  lemma TagFinds()
    ensures Tabled([STORED] + [ADDED]).Find(TAG) == [STORED] && Listed(Stored([STORED], [ADDED])).Find(TAG) == []
    ensures Tabled([STORED] + [ADDED]).Find(OnVm("r")) == Listed(Stored([STORED], [ADDED])).Find(OnVm("r"))
  {
    hide Table, Scan, Stored;
    ReplacedInPlace();
    TwoSteps(TAG);
    TwoSteps(OnVm("r"));
    ScanOne(ADDED, TAG);
    ScanOne(ADDED, OnVm("r"));
  }

  lemma ReplacedInPlace()
    ensures Stored([STORED], [ADDED]) == [ADDED]
  {
    assert [ADDED][..0] == [];
  }

  lemma TwoSteps(t: Target)
    ensures Table(Remote, [STORED] + [ADDED], t) == Step(Remote, t, Step(Remote, t, [], STORED), ADDED)
  {
    TableSnoc(Remote, [STORED], ADDED, t);
    TableSnoc(Remote, [], STORED, t);
    assert [] + [STORED] == [STORED];
  }

  /** A rule whose other side names VMs in one way only */
  lemma OneTarget(rule: Rule, t: Target, remotes: Remotes, logger: bool)
    requires rule.source.ips == [] && rule.source.subnets == [] && rule.source.wildcards == []
    requires OtherTargets(rule.source) == [t] && Scan([LOCAL], t) == []
    ensures OtherSideObjs(rule, To, [LOCAL], remotes, logger) == VmObjs(rule, To, remotes.Find(t), OriginOf(t), logger)
  {
    assert [t][..0] == [];
    hide Scan, OtherTargets;
    assert NamedObjs(rule, To, [t], [LOCAL], remotes, logger)
        == [] + [] + VmObjs(rule, To, remotes.Find(t), OriginOf(t), logger);
  }

  /** The local VM is on the destination's side only. */
  lemma ToLocalOnly(rule: Rule)
    requires rule.destination == TO_LOCAL && "l" !in rule.source.vms && OwnerMatches(rule, LOCAL)
    requires rule.source.ips == [] && rule.source.wildcards == []
    ensures "l" in UuidsOnSide([LOCAL], rule, To) && "l" !in UuidsOnSide([LOCAL], rule, From)
  {
    UuidsOnSideIsScan([LOCAL], rule, To, "l");
    assert LOCAL in [LOCAL] && OnSide(LOCAL, rule, To);
    UuidsOnSideIsScan([LOCAL], rule, From, "l");
    assert !OnSide(LOCAL, rule, From);
  }

  /** What an enabled allow rule to the local VM contributes to its file */
  lemma ContributesOther(rule: Rule, remotes: Remotes, logger: bool)
    requires rule.enabled && rule.action == Allow && rule.priority == 0
    requires "l" in UuidsOnSide([LOCAL], rule, To) && "l" !in UuidsOnSide([LOCAL], rule, From)
    ensures var n := Count(UuidsOnSide([LOCAL], rule, To), "l");
            n > 0 && Contribution("l", rule, [LOCAL], remotes, logger)
                     == Repeat(OtherSideObjs(rule, To, [LOCAL], remotes, logger), n)
  {
    hide UuidsOnSide, OtherSideObjs, Repeat;
    CountZero(UuidsOnSide([LOCAL], rule, To), "l");
    assert NoRulesNeeded(From, rule);
    var objs := Contribution("l", rule, [LOCAL], remotes, logger);
    assert objs == [] + DirObjs("l", rule, To, [LOCAL], remotes, logger);
  }

  lemma TwoRules(a: Rule, b: Rule, remotes: Remotes, logger: bool)
    ensures ConfObjs("l", [a, b], [LOCAL], remotes, logger)
         == Contribution("l", a, [LOCAL], remotes, logger) + Contribution("l", b, [LOCAL], remotes, logger)
  {
    hide Contribution;
    assert [a, b][..1] == [a] && [a][..0] == [];
    assert ConfObjs("l", [a], [LOCAL], remotes, logger) == [] + Contribution("l", a, [LOCAL], remotes, logger);
  }

  function OldObj(logger: bool): FwOrder.SortObj {
    RuleObj(TagToLocal(), To, Hosts(STORED.ips), OriginOf(TAG), logger)
  }

  /** What the rule for the tag contributes: the old address in the table, nothing from the stored VMs */
  lemma TagContributes(logger: bool)
    ensures OldObj(logger) in Contribution("l", TagToLocal(), [LOCAL], Tabled([STORED] + [ADDED]), logger)
    ensures Contribution("l", TagToLocal(), [LOCAL], Listed(Stored([STORED], [ADDED])), logger) == []
  {
    hide Stored, Contribution, Repeat, Count, UuidsOnSide, Scan, OtherSideObjs, RuleObj;
    var rule := TagToLocal();
    var table, list := Tabled([STORED] + [ADDED]), Listed(Stored([STORED], [ADDED]));
    TagFinds();
    ToLocalOnly(rule);
    ScanOne(LOCAL, TAG);
    assert OtherTargets(rule.source) == [TAG];
    OneTarget(rule, TAG, table, logger);
    OneTarget(rule, TAG, list, logger);
    ContributesOther(rule, table, logger);
    ContributesOther(rule, list, logger);
    assert [STORED][..0] == [];
    assert OtherSideObjs(rule, To, [LOCAL], table, logger) == [] + [OldObj(logger)];
    var n := Count(UuidsOnSide([LOCAL], rule, To), "l");
    FwSemantics.RepeatMembers(OtherSideObjs(rule, To, [LOCAL], table, logger), n);
    RepeatNothing(n);
  }

  lemma {:induction false} RepeatNothing(n: nat)
    ensures Repeat([], n) == []
  {
    if n > 0 {
      RepeatNothing(n - 1);
    }
  }

  lemma NameContributes(logger: bool)
    ensures var rule := RemoteToLocal(Allow, 0);
            Contribution("l", rule, [LOCAL], Tabled([STORED] + [ADDED]), logger)
            == Contribution("l", rule, [LOCAL], Listed(Stored([STORED], [ADDED])), logger)
  {
    hide Stored, Contribution, Repeat, Count, UuidsOnSide, Scan, OtherSideObjs, VmObjs;
    var rule := RemoteToLocal(Allow, 0);
    TagFinds();
    ToLocalOnly(rule);
    ScanOne(LOCAL, OnVm("r"));
    assert OtherTargets(rule.source) == [OnVm("r")];
    OneTarget(rule, OnVm("r"), Tabled([STORED] + [ADDED]), logger);
    OneTarget(rule, OnVm("r"), Listed(Stored([STORED], [ADDED])), logger);
    ContributesOther(rule, Tabled([STORED] + [ADDED]), logger);
    ContributesOther(rule, Listed(Stored([STORED], [ADDED])), logger);
  }

  /** add finds the local VM, by the rule that names the remote one. */
  lemma LocalIsFound()
    ensures var disk := [TagToLocal(), RemoteToLocal(Allow, 0)];
            ParsedRules(disk) && Enabled([LOCAL], "l") && AddFinds("l", disk, [ADDED], [LOCAL])
  {
    hide ParsedRule, WritesBecause, IsAffected, TouchesRemote, TouchesUuid, RemoteToLocal, TagToLocal, PassesOver;
    var rule := RemoteToLocal(Allow, 0);
    IsParsed(Allow, 0);
    TagIsParsed();
    assert LOCAL in [LOCAL] && ADDED in [ADDED] && rule in [TagToLocal(), rule];
    NameIsNoticed();
    OwnedIsFound("l", rule, To, ADDED, [LOCAL], [ADDED]);
    NewVMIsNoticed("l", rule, To, ADDED, [LOCAL], [ADDED]);
  }

  lemma TagIsParsed()
    ensures ParsedRule(TagToLocal())
  {
  }

  lemma NameIsNoticed()
    ensures var rule := RemoteToLocal(Allow, 0);
            !PassesOver(rule, ADDED) && !RestatesDefault(To, rule) && WritesBecause("l", rule, To, ADDED, [LOCAL])
  {
    RuleReachesLocal(Allow, 0, ADDED);
    hide WritesBecause;
  }

  /** A remote VM is added again without its tag. The local VM's file is written, and has a line for the old
   *  address, which a rebuild from the stored VMs has not. */
  lemma ReaddKeepsOldAddress(logger: bool)
    ensures var disk, rvms, news := [TagToLocal(), RemoteToLocal(Allow, 0)], [STORED], [ADDED];
            && ParsedRules(disk) && Enabled([LOCAL], "l") && AddFinds("l", disk, news, [LOCAL])
            && OldObj(logger).targets == Hosts(STORED.ips)
            && OldObj(logger) in ConfObjs("l", disk, [LOCAL], Tabled(rvms + news), logger)
            && ConfFrom("l", disk, [LOCAL], Tabled(rvms + news), logger)
               != FullConf("l", disk, [LOCAL], Stored(rvms, news), logger)
  {
    LocalIsFound();
    TagContributes(logger);
    NameContributes(logger);
    hide ParsedRule, Enabled, AddFinds, Stored, Contribution, ConfObjs, ConfOf, InboundState;
    var table, list := Tabled([STORED] + [ADDED]), Listed(Stored([STORED], [ADDED]));
    var byTag, byName := TagToLocal(), RemoteToLocal(Allow, 0);
    TwoRules(byTag, byName, table, logger);
    TwoRules(byTag, byName, list, logger);
    var iks := InboundState("l", [byTag, byName], [LOCAL]);
    if ConfFrom("l", [byTag, byName], [LOCAL], table, logger) == ConfFrom("l", [byTag, byName], [LOCAL], list, logger) {
      SameLength(ConfObjs("l", [byTag, byName], [LOCAL], table, logger), iks,
                 ConfObjs("l", [byTag, byName], [LOCAL], list, logger), iks);
    }
  }

  /** A rule that the remote and the local VM have no part in */
  function Elsewhere(): Rule {
    var side := Side([], [], [], ["x"], []);
    RemoteToLocal(Allow, 0).(source := side, destination := side, vms := ["x"])
  }

  /** One payload entry that leaves the stored rule as it is and one that moves it elsewhere, in either
   *  order */
  function Twice(changedFirst: bool): seq<RuleUpdate> {
    var left := RuleUpdate("u", true, RemoteToLocal(Allow, 0), true, true, RemoteToLocal(Allow, 0), true);
    var changed := RuleUpdate("u", true, Elsewhere(), true, false, Elsewhere(), true);
    if changedFirst then [changed, left] else [left, changed]
  }

  /** A uuid that a payload names twice, once without a change: whether the stored rule is taken off the
   *  originals before or after it is updated, the VMs that only the stored rule touches keep a file that
   *  should change. */
  lemma DuplicateBreaksUpdate(changedFirst: bool, logger: bool)
    ensures var disk, payload := [RemoteToLocal(Allow, 0)], Twice(changedFirst);
            && ParsedRules(disk) && ValidPayload(payload)
            && Applied(OriginalsOf(disk, payload), payload) == ([Elsewhere()], map[])
            && !UpdateIsSound(disk, payload, [LOCAL], [RemoteVM(Some("o"))], logger)
  {
    hide Elsewhere, Twice, ParsedRule, UpdateFinds, WritesFor, Enabled, Reaches, WritesBecause, StateShows, Clashing;
    hide Applied, OriginalsOf, SomeWrites;
    var stored, payload, remote := RemoteToLocal(Allow, 0), Twice(changedFirst), RemoteVM(Some("o"));
    IsParsed(Allow, 0);
    PayloadIsValid(changedFirst);
    TwiceApplied(changedFirst);
    RuleReachesLocal(Allow, 0, remote);
    LocalIsReached(Allow, 0, remote);
    StoredWrites(stored, remote, logger);
    ElsewhereIsNotFound(payload);
    StoredClashes(changedFirst, [LOCAL], [remote], logger);
  }

  lemma StoredClashes(changedFirst: bool, vms: seq<VM>, rvms: seq<VM>, logger: bool)
    requires WritesFor("l", RemoteToLocal(Allow, 0), vms, rvms, logger)
    ensures var disk := [RemoteToLocal(Allow, 0)];
            SomeWrites("l", disk, Clashing(disk, Twice(changedFirst)), vms, rvms, logger)
  {
    hide WritesFor;
    var stored, payload := RemoteToLocal(Allow, 0), Twice(changedFirst);
    assert payload[0].uuid == payload[1].uuid == "u";
    assert Clashes(payload, "u");
    hide Clashes, Twice;
    assert stored in [stored] && "u" in Clashing([stored], payload);
  }

  lemma ElsewhereIsNotFound(payload: seq<RuleUpdate>)
    requires Applied(OriginalsOf([RemoteToLocal(Allow, 0)], payload), payload) == ([Elsewhere()], map[])
    ensures !UpdateFinds("l", [RemoteToLocal(Allow, 0)], payload, [LOCAL])
  {
    assert RuleTargets(Elsewhere()) == [OnVm("x")];
    hide Applied, OriginalsOf, RuleTargets;
    assert !Touches(Elsewhere(), LOCAL);
    hide Touches, Elsewhere;
  }

  lemma PayloadIsValid(changedFirst: bool)
    ensures ValidPayload(Twice(changedFirst))
  {
    IsParsed(Allow, 0);
    assert ParsedRule(Elsewhere());
    hide ParsedRule;
  }

  lemma TwiceApplied(changedFirst: bool)
    ensures var disk, payload := [RemoteToLocal(Allow, 0)], Twice(changedFirst);
            Applied(OriginalsOf(disk, payload), payload) == ([Elsewhere()], map[])
  {
    hide Elsewhere;
    var payload := Twice(changedFirst);
    var originals := OriginalsOf([RemoteToLocal(Allow, 0)], payload);
    var first := payload[..1];
    assert payload[0] in payload && payload[0].uuid == "u";
    UuidsOfSnoc([], RemoteToLocal(Allow, 0));
    assert [] + [RemoteToLocal(Allow, 0)] == [RemoteToLocal(Allow, 0)];
    assert originals.Keys == {"u"};
    assert first == [payload[0]] && first[..0] == [] && payload[..|payload| - 1] == first;
    assert Applied(originals, first[..0]) == ([], originals);
    assert originals - {"u"} == map[];
    assert [] + [Elsewhere()] == [Elsewhere()];
    if changedFirst {
      assert Applied(originals, first) == ([Elsewhere()], originals);
    } else {
      assert Applied(originals, first) == ([], map[]);
    }
  }

  lemma StoredWrites(rule: Rule, remote: VM, logger: bool)
    requires Reaches("l", [rule], [LOCAL], [remote])
    ensures WritesFor("l", rule, [LOCAL], [remote], logger)
  {
    hide RuleReaches, Reaches, Contribution;
    SomeReachesIsReaches("l", [rule], [LOCAL], [remote]);
    RuleGains("l", rule, [LOCAL], Added([], [remote]), logger);
    assert [] + [remote] == [remote];
  }
}
