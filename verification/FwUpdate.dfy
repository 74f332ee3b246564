/** The data flow of update with a payload of rules, ending in the files it writes. */
module FwUpdate {
  import opened FwCompile
  import opened FwFilter
  import opened FwIncremental
  import opened FwLookup
  import opened FwPlan
  import opened FwReach
  import opened FwTypes
  import opened Sequences

  /** One payload entry: `named` says that it has a uuid, `merged` is the rule created from the payload
   *  over the stored rule, `same` says shallowObjEqual found them equal, `created` is the rule created
   *  from the payload alone; `merges` and `creates` say whether these two can be created. */
  datatype RuleUpdate = RuleUpdate(uuid: Uuid, named: bool, merged: Rule, merges: bool, same: bool, created: Rule,
                                   creates: bool)

  ghost predicate ValidPayload(payload: seq<RuleUpdate>) {
    forall p :: p in payload ==>
      && p.merged.uuid == p.uuid && p.created.uuid == p.uuid
      && (p.merges ==> ParsedRule(p.merged)) && (p.creates ==> ParsedRule(p.created))
  }

  // ---- finding the stored rules ----

  datatype Found = Found(rules: map<Uuid, Rule>) | UnknownRules

  function RuleOf(rules: seq<Rule>, u: Uuid): Rule
    requires u in UuidsOf(rules)
  {
    var last := rules[|rules| - 1];
    if last.uuid == u then last else RuleOf(rules[..|rules| - 1], u)
  }

  /** disk.rulesByUUID */
  method IndexRules(rules: seq<Rule>) returns (byUuid: map<Uuid, Rule>)
    ensures byUuid.Keys == UuidsOf(rules) && forall u :: u in byUuid ==> byUuid[u] == RuleOf(rules, u)
  {
    byUuid := map[];
    for i := 0 to |rules|
      invariant byUuid.Keys == UuidsOf(rules[..i]) && forall u :: u in byUuid ==> byUuid[u] == RuleOf(rules[..i], u)
    {
      TakeOneMore(rules, i);
      UuidsOfSnoc(rules[..i], rules[i]);
      byUuid := byUuid[rules[i].uuid := rules[i]];
    }
    TakeAll(rules);
  }

  /** Whether findRules refuses the payload */
  predicate Refused(known: set<Uuid>, allowAdds: bool, payload: seq<RuleUpdate>) {
    exists p :: p in payload && (!p.named || (!allowAdds && p.uuid !in known))
  }

  /** The stored rules that the payload names */
  function OriginalsOf(disk: seq<Rule>, payload: seq<RuleUpdate>): map<Uuid, Rule> {
    map u | u in UuidsOf(disk) && (exists p :: p in payload && p.uuid == u) :: RuleOf(disk, u)
  }

  /** findRules */
  method FindRules(allRules: map<Uuid, Rule>, allowAdds: bool, payload: seq<RuleUpdate>) returns (res: Found)
    ensures res.UnknownRules? <==> Refused(allRules.Keys, allowAdds, payload)
    ensures res.Found? ==>
      res.rules == map u | u in allRules && (exists p :: p in payload && p.uuid == u) :: allRules[u]
  {
    var found: map<Uuid, Rule>, missing: set<Uuid>, unnamed := map[], {}, false;
    for i := 0 to |payload|
      invariant unnamed <==> exists p :: p in payload[..i] && !p.named
      invariant forall u :: u in found <==> u in allRules && exists p :: p in payload[..i] && p.named && p.uuid == u
      invariant forall u :: u in found ==> found[u] == allRules[u]
      invariant forall u :: u in missing <==> u !in allRules && exists p :: p in payload[..i] && p.named && p.uuid == u
    {
      TakeOneMore(payload, i);
      var u := payload[i].uuid;
      if !payload[i].named {
        unnamed := true;
        continue;
      }
      if u in allRules {
        found := found[u := allRules[u]];
      } else {
        missing := missing + {u};
      }
    }
    TakeAll(payload);
    if unnamed {
      return UnknownRules;
    }
    if !allowAdds && missing != {} {
      var u :| u in missing;
      return UnknownRules;
    }
    return Found(found);
  }

  // ---- the updated rules ----

  /** The updated rules and the originals left when the payload has been gone through: a rule that does
   *  not change is taken off the originals, and a uuid that is not there (any more) makes a new rule. */
  function Applied(originals: map<Uuid, Rule>, payload: seq<RuleUpdate>): (seq<Rule>, map<Uuid, Rule>) {
    if payload == [] then ([], originals) else
    var (updated, remaining) := Applied(originals, payload[..|payload| - 1]);
    var p := payload[|payload| - 1];
    if p.uuid !in remaining then (updated + [p.created], remaining)
    else if p.same then (updated, remaining - {p.uuid})
    else (updated + [p.merged], remaining)
  }

  /** All the rules that the payload makes, by changing a rule or adding one, can be created. */
  predicate Accepted(originals: map<Uuid, Rule>, payload: seq<RuleUpdate>) {
    payload == [] ||
    var front, p := payload[..|payload| - 1], payload[|payload| - 1];
    Accepted(originals, front) && if p.uuid in Applied(originals, front).1 then p.same || p.merges else p.creates
  }

  /** createUpdatedRules: the rules are created at the end, all of them or none. */
  method CreateUpdatedRules(originals: map<Uuid, Rule>, payload: seq<RuleUpdate>)
    returns (ok: bool, updated: seq<Rule>, remaining: map<Uuid, Rule>)
    ensures (updated, remaining) == Applied(originals, payload) && (ok <==> Accepted(originals, payload))
  {
    ok, updated, remaining := true, [], originals;
    for i := 0 to |payload|
      invariant (updated, remaining) == Applied(originals, payload[..i]) && (ok <==> Accepted(originals, payload[..i]))
    {
      TakeOneMore(payload, i);
      var p := payload[i];
      if p.uuid in remaining {
        if p.same {
          remaining := remaining - {p.uuid};
        } else {
          updated := updated + [p.merged];
          ok := ok && p.merges;
        }
      } else {
        updated := updated + [p.created];
        ok := ok && p.creates;
      }
    }
    TakeAll(payload);
  }

  ghost predicate Named(payload: seq<RuleUpdate>, u: Uuid) {
    exists k :: 0 <= k < |payload| && payload[k].uuid == u
  }

  /** Some entry for u changes nothing. */
  ghost predicate LeftAlone(payload: seq<RuleUpdate>, u: Uuid) {
    exists k :: 0 <= k < |payload| && payload[k].uuid == u && payload[k].same
  }

  /** Of several entries for u, some one changes nothing. */
  ghost predicate Clashes(payload: seq<RuleUpdate>, u: Uuid) {
    exists i, j :: 0 <= i < |payload| && 0 <= j < |payload| && i != j
      && payload[i].uuid == u && payload[j].uuid == u && payload[i].same
  }

  lemma NamedSnoc(payload: seq<RuleUpdate>, p: RuleUpdate, u: Uuid)
    ensures Named(payload + [p], u) <==> Named(payload, u) || p.uuid == u
    ensures LeftAlone(payload + [p], u) <==> LeftAlone(payload, u) || (p.uuid == u && p.same)
  {
    var all := payload + [p];
    assert all[|payload|] == p;
    forall k | 0 <= k < |payload| ensures all[k] == payload[k] {
    }
    if Named(payload, u) {
      var k :| 0 <= k < |payload| && payload[k].uuid == u;
      assert all[k].uuid == u;
    }
    if LeftAlone(payload, u) {
      var k :| 0 <= k < |payload| && payload[k].uuid == u && payload[k].same;
      assert all[k].uuid == u && all[k].same;
    }
  }

  lemma ClashesSnoc(payload: seq<RuleUpdate>, p: RuleUpdate, u: Uuid)
    ensures Clashes(payload + [p], u) <==>
      Clashes(payload, u) || (p.uuid == u && (LeftAlone(payload, u) || (p.same && Named(payload, u))))
  {
    var all, n := payload + [p], |payload|;
    assert all[n] == p;
    forall k | 0 <= k < n ensures all[k] == payload[k] {
    }
    if Clashes(payload, u) {
      var i, j :| 0 <= i < n && 0 <= j < n && i != j && payload[i].uuid == u && payload[j].uuid == u && payload[i].same;
      assert all[i].uuid == u && all[j].uuid == u && all[i].same;
    }
    if p.uuid == u && LeftAlone(payload, u) {
      var i :| 0 <= i < n && payload[i].uuid == u && payload[i].same;
      assert all[i].uuid == u && all[n].uuid == u && all[i].same;
    }
    if p.uuid == u && p.same && Named(payload, u) {
      var j :| 0 <= j < n && payload[j].uuid == u;
      assert all[n].uuid == u && all[j].uuid == u && all[n].same;
    }
  }

  lemma {:induction false} ShapeAt(originals: map<Uuid, Rule>, payload: seq<RuleUpdate>, u: Uuid)
    requires ValidPayload(payload)
    ensures var (updated, remaining) := Applied(originals, payload);
            && (u in remaining <==> u in originals && !LeftAlone(payload, u))
            && (u in remaining ==> remaining[u] == originals[u])
            && (u in UuidsOf(updated) <==>
                  Named(payload, u) && (u in originals ==> Clashes(payload, u) || !LeftAlone(payload, u)))
  {
    if payload != [] {
      hide ParsedRule, Named, LeftAlone, Clashes, UuidsOf;
      var front, p := payload[..|payload| - 1], payload[|payload| - 1];
      assert payload == front + [p] && p in payload;
      ShapeAt(originals, front, u);
      UuidsOfSnoc(Applied(originals, front).0, p.created);
      UuidsOfSnoc(Applied(originals, front).0, p.merged);
      NamedSnoc(front, p, u);
      ClashesSnoc(front, p, u);
      NothingNamed(front);
    }
  }

  /** What becomes of each uuid: it leaves the originals when an entry changes nothing, and it is updated
   *  unless its only entry changes nothing. */
  lemma AppliedShape(originals: map<Uuid, Rule>, payload: seq<RuleUpdate>)
    requires ValidPayload(payload)
    ensures var (updated, remaining) := Applied(originals, payload);
            && (forall u :: u in remaining <==> u in originals && !LeftAlone(payload, u))
            && (forall u :: u in remaining ==> remaining[u] == originals[u])
            && (forall u :: u in UuidsOf(updated) <==>
                  Named(payload, u) && (u in originals ==> Clashes(payload, u) || !LeftAlone(payload, u)))
  {
    hide Applied, ValidPayload, Named, LeftAlone, Clashes, UuidsOf;
    forall u {
      ShapeAt(originals, payload, u);
    }
  }

  lemma {:induction false} AppliedAreParsed(originals: map<Uuid, Rule>, payload: seq<RuleUpdate>)
    requires ValidPayload(payload) && Accepted(originals, payload)
    ensures ParsedRules(Applied(originals, payload).0)
  {
    if payload != [] {
      hide ParsedRule;
      AppliedAreParsed(originals, payload[..|payload| - 1]);
    }
  }

  lemma NothingNamed(payload: seq<RuleUpdate>)
    ensures forall u :: LeftAlone(payload, u) ==> Named(payload, u)
    ensures forall u :: Clashes(payload, u) ==> LeftAlone(payload, u)
  {
  }

  /** Every stored rule with an updated uuid stays among the originals exactly when no stored uuid has
   *  several entries of which one changes nothing. */
  lemma OriginalsStay(originals: map<Uuid, Rule>, payload: seq<RuleUpdate>)
    requires ValidPayload(payload)
    ensures var (updated, remaining) := Applied(originals, payload);
            (forall u :: u in originals && u in UuidsOf(updated) ==> u in remaining)
            <==> !exists u :: u in originals && Clashes(payload, u)
  {
    AppliedShape(originals, payload);
    NothingNamed(payload);
    hide Clashes, LeftAlone, Named, Applied;
  }

  /** The rules that a payload changes or adds, in its order: a known rule counts unless the payload
   *  leaves it as it was. */
  function ChangedRules(known: set<Uuid>, payload: seq<RuleUpdate>): seq<Rule> {
    if payload == [] then [] else
    var rest, p := ChangedRules(known, payload[..|payload| - 1]), payload[|payload| - 1];
    if p.uuid !in known then rest + [p.created]
    else if p.same then rest
    else rest + [p.merged]
  }

  /** Without a clash the updated rules are those the payload means to change or add. */
  lemma {:induction false} AppliedChanges(originals: map<Uuid, Rule>, payload: seq<RuleUpdate>)
    requires ValidPayload(payload) && !exists u :: u in originals && Clashes(payload, u)
    ensures Applied(originals, payload).0 == ChangedRules(originals.Keys, payload)
  {
    if payload != [] {
      hide ParsedRule;
      var front, p := payload[..|payload| - 1], payload[|payload| - 1];
      assert payload == front + [p];
      forall u | u in originals ensures !Clashes(front, u) && (u == p.uuid ==> !LeftAlone(front, u)) {
        ClashesSnoc(front, p, u);
      }
      AppliedChanges(originals, front);
      AppliedShape(originals, front);
    }
  }

  // ---- which files are written, and whether they are enough ----

  /** update finds v: an updated rule, or an original that is left, touches it. */
  ghost predicate UpdateFinds(v: Uuid, disk: seq<Rule>, payload: seq<RuleUpdate>, vms: seq<VM>) {
    var (updated, remaining) := Applied(OriginalsOf(disk, payload), payload);
    Touched(v, updated, vms, true) || exists u :: u in remaining && TouchesUuid(remaining[u], vms, v)
  }

  /** The stored rules whose entries clash */
  ghost function Clashing(disk: seq<Rule>, payload: seq<RuleUpdate>): set<Uuid> {
    set u | u in UuidsOf(disk) && Clashes(payload, u)
  }

  /** No VM that update does not find loses lines, or the keeping of state, with a rule whose entries
   *  clash. */
  ghost predicate UpdateIsSound(disk: seq<Rule>, payload: seq<RuleUpdate>, vms: seq<VM>, rvms: seq<VM>, logger: bool) {
    forall v :: Enabled(vms, v) && !UpdateFinds(v, disk, payload, vms) ==>
      && !SomeWrites(v, disk, Clashing(disk, payload), vms, rvms, logger)
      && !StateShows(v, Without(disk, Clashing(disk, payload)), disk, vms, rvms, logger)
  }

  lemma NoClashIsSound(disk: seq<Rule>, payload: seq<RuleUpdate>, vms: seq<VM>, rvms: seq<VM>, logger: bool)
    requires Clashing(disk, payload) == {}
    ensures UpdateIsSound(disk, payload, vms, rvms, logger)
  {
    DropNothing(disk);
  }

  lemma {:induction false} DropNothing(rules: seq<Rule>)
    ensures Without(rules, {}) == rules
  {
    if rules != [] {
      DropNothing(rules[..|rules| - 1]);
    }
  }

  /** Dropping some rules and then more of them */
  lemma {:induction false} DropTwice(rules: seq<Rule>, some: set<Uuid>, more: set<Uuid>)
    requires some <= more
    ensures Without(Without(rules, some), more) == Without(rules, more)
  {
    if rules != [] {
      var front, r := rules[..|rules| - 1], rules[|rules| - 1];
      DropTwice(front, some, more);
      var kept := Without(front, some);
      assert (kept + [r])[..|kept|] == kept;
    }
  }

  lemma {:induction false} InOriginals(rules: seq<Rule>, r: Rule)
    requires DistinctRules(rules) && r in rules
    ensures r.uuid in UuidsOf(rules) && RuleOf(rules, r.uuid) == r
  {
    var front, last := rules[..|rules| - 1], rules[|rules| - 1];
    var i :| 0 <= i < |rules| && rules[i] == r;
    assert rules[i].uuid == r.uuid;
    if i < |rules| - 1 {
      assert front[i] == r;
      InOriginals(front, r);
    }
  }

  /** The stored rules that are updated, as far as update does not find v: only those whose entries clash
   *  may touch it. */
  lemma OnlyClashesTouch(v: Uuid, disk: seq<Rule>, payload: seq<RuleUpdate>, vms: seq<VM>, r: Rule)
    requires DistinctRules(disk) && ValidPayload(payload) && !UpdateFinds(v, disk, payload, vms) && r in disk
    requires r.uuid in UuidsOf(Applied(OriginalsOf(disk, payload), payload).0) && r.uuid !in Clashing(disk, payload)
    ensures !TouchesUuid(r, vms, v)
  {
    var originals := OriginalsOf(disk, payload);
    InOriginals(disk, r);
    AppliedShape(originals, payload);
    var k :| 0 <= k < |payload| && payload[k].uuid == r.uuid;
    assert payload[k] in payload;
    assert r.uuid in originals && originals[r.uuid] == r;
  }

  /** A file that update does not write is right exactly when no rule whose entries clash shows in it. */
  lemma UnwrittenShows(v: Uuid, disk: seq<Rule>, payload: seq<RuleUpdate>, vms: seq<VM>, rvms: seq<VM>, logger: bool)
    requires ParsedRules(disk) && DistinctRules(disk) && ValidPayload(payload) && !UpdateFinds(v, disk, payload, vms)
    requires Accepted(OriginalsOf(disk, payload), payload)
    ensures var updated := Applied(OriginalsOf(disk, payload), payload).0;
            SameRebuild(v, Dedup(updated) + Without(disk, UuidsOf(updated)), disk, vms, rvms, rvms, logger) <==>
              && !SomeWrites(v, disk, Clashing(disk, payload), vms, rvms, logger)
              && !StateShows(v, Without(disk, Clashing(disk, payload)), disk, vms, rvms, logger)
  {
    var originals := OriginalsOf(disk, payload);
    var updated := Applied(originals, payload).0;
    var clashing, kept := Clashing(disk, payload), Without(disk, UuidsOf(updated));
    AppliedAreParsed(originals, payload);
    ClashesAreUpdated(disk, payload);
    NewRulesAreIdle(v, updated, kept, vms, rvms, logger);
    StepByStep(v, disk, clashing, UuidsOf(updated), payload, vms, rvms, logger);
    DroppedRulesShow(v, disk, clashing, vms, rvms, logger);
  }

  lemma ClashesAreUpdated(disk: seq<Rule>, payload: seq<RuleUpdate>)
    requires ValidPayload(payload)
    ensures Clashing(disk, payload) <= UuidsOf(Applied(OriginalsOf(disk, payload), payload).0)
  {
    AppliedShape(OriginalsOf(disk, payload), payload);
    NothingNamed(payload);
  }

  lemma UntouchedOneByOne(v: Uuid, rules: seq<Rule>, vms: seq<VM>)
    requires !Touched(v, rules, vms, true)
    ensures forall r :: r in rules ==> !TouchesUuid(r, vms, v)
  {
    hide Touches;
  }

  /** Updated rules that do not touch v add nothing to its file. */
  lemma NewRulesAreIdle(v: Uuid, updated: seq<Rule>, kept: seq<Rule>, vms: seq<VM>, rvms: seq<VM>, logger: bool)
    requires ParsedRules(updated) && !Touched(v, updated, vms, true)
    ensures FullConf(v, Dedup(updated) + kept, vms, rvms, logger) == FullConf(v, kept, vms, rvms, logger)
  {
    hide ParsedRule, Dedup, Contribution, InboundState, ConfOf;
    DedupIsClean(updated);
    UntouchedOneByOne(v, updated, vms);
    hide TouchesUuid, Touched;
    UntouchedRulesWriteNothing(v, Dedup(updated), vms, Listed(rvms), logger);
    ConfObjsConcat(v, Dedup(updated), kept, vms, Listed(rvms), logger);
    InboundStateConcat(v, Dedup(updated), kept, vms);
    assert [] + ConfObjs(v, kept, vms, Listed(rvms), logger) == ConfObjs(v, kept, vms, Listed(rvms), logger);
    assert {} + InboundState(v, kept, vms) == InboundState(v, kept, vms);
  }

  /** Dropping all updated stored rules shows as little as dropping those whose entries clash. */
  lemma StepByStep(v: Uuid, disk: seq<Rule>, clashing: set<Uuid>, uuids: set<Uuid>, payload: seq<RuleUpdate>,
                   vms: seq<VM>, rvms: seq<VM>, logger: bool)
    requires ParsedRules(disk) && DistinctRules(disk) && ValidPayload(payload) && !UpdateFinds(v, disk, payload, vms)
    requires clashing == Clashing(disk, payload) <= uuids == UuidsOf(Applied(OriginalsOf(disk, payload), payload).0)
    ensures FullConf(v, Without(disk, uuids), vms, rvms, logger) ==
      FullConf(v, Without(disk, clashing), vms, rvms, logger)
  {
    hide UpdateFinds, Clashing, Applied, OriginalsOf, TouchesUuid, ParsedRule;
    var rest := Without(disk, clashing);
    WithoutMembers(disk, clashing);
    forall r | r in rest && r.uuid in uuids ensures !TouchesUuid(r, vms, v) {
      OnlyClashesTouch(v, disk, payload, vms, r);
    }
    DropTwice(disk, clashing, uuids);
    WithoutUntouched(v, rest, uuids, vms, Listed(rvms), logger);
  }

  /** Deduplication gives distinct rules, all of them from the list. */
  lemma {:induction false} DedupIsClean(rules: seq<Rule>)
    ensures DistinctRules(Dedup(rules)) && UuidsOf(Dedup(rules)) == UuidsOf(rules)
    ensures forall r :: r in Dedup(rules) ==> r in rules
  {
    if rules != [] {
      var front, r := rules[..|rules| - 1], rules[|rules| - 1];
      assert rules == front + [r];
      DedupIsClean(front);
      UuidsOfSnoc(front, r);
      UuidsOfSnoc(Dedup(front), r);
      if r.uuid !in UuidsOf(front) {
        DistinctSnoc(Dedup(front), r);
      }
    }
  }

  lemma DistinctSnoc(rules: seq<Rule>, r: Rule)
    requires DistinctRules(rules) && r.uuid !in UuidsOf(rules)
    ensures DistinctRules(rules + [r])
  {
    forall i | 0 <= i < |rules| ensures rules[i].uuid != r.uuid {
      assert rules[i].uuid in UuidsOf(rules);
    }
  }

  method MapValues(m: map<Uuid, Rule>) returns (rules: seq<Rule>)
    ensures forall r :: r in rules <==> exists u :: u in m && m[u] == r
  {
    rules := [];
    var todo := m.Keys;
    while todo != {}
      invariant todo <= m.Keys
      invariant forall r :: r in rules <==> exists u :: u in m && u !in todo && m[u] == r
      decreases todo
    {
      var u :| u in todo;
      rules := rules + [m[u]];
      todo := todo - {u};
    }
  }

  // ---- update ----

  datatype UpdateOutcome = Updated(rules: seq<Rule>, files: map<Uuid, Conf>) | UpdateFailed

  /** The rules that the files are made from: of the updated ones the first for each uuid, before the stored
   *  ones that they do not replace */
  function RulesAfter(disk: seq<Rule>, payload: seq<RuleUpdate>): seq<Rule> {
    var updated := Applied(OriginalsOf(disk, payload), payload).0;
    Dedup(updated) + Without(disk, UuidsOf(updated))
  }

  /** update with a payload of rules only. The files of the VMs that it finds are written, as a full
   *  rebuild would; that the others need not be holds exactly when no clash in the payload shows. */
  method UpdateRules(disk: seq<Rule>, payload: seq<RuleUpdate>, allowAdds: bool, vms: seq<VM>, rvms: seq<VM>,
                     logger: bool)
    returns (res: UpdateOutcome)
    requires ParsedRules(disk) && DistinctRules(disk) && ValidPayload(payload)
    requires DistinctVMs(vms) && DistinctVMs(rvms)
    ensures res.UpdateFailed? <==>
      Refused(UuidsOf(disk), allowAdds, payload) || !Accepted(OriginalsOf(disk, payload), payload)
    ensures res.Updated? ==> res.rules == RulesAfter(disk, payload)
    ensures res.Updated? ==> forall v :: v in res.files <==> Enabled(vms, v) && UpdateFinds(v, disk, payload, vms)
    ensures res.Updated? ==> forall v :: v in res.files ==> res.files[v] == FullConf(v, res.rules, vms, rvms, logger)
    ensures res.Updated? ==>
      ((forall v :: Enabled(vms, v) && v !in res.files ==> SameRebuild(v, res.rules, disk, vms, rvms, rvms, logger))
       <==> UpdateIsSound(disk, payload, vms, rvms, logger))
  {
    var rulesByUUID := IndexRules(disk);
    var found := FindRules(rulesByUUID, allowAdds, payload);
    if found.UnknownRules? {
      return UpdateFailed;
    }
    assert found.rules == OriginalsOf(disk, payload);
    var ok, updated, remaining := CreateUpdatedRules(found.rules, payload);
    if !ok {
      return UpdateFailed;
    }
    var replacedRules := MapValues(remaining);
    var local := CreateLookup(Local, vms);
    var remote := CreateLookup(Remote, rvms);
    var originalVMs := VmsByRules(local, vms, replacedRules, true);
    var matchingVMs := VmsByRules(local, vms, updated, true);
    var updatedRules := DedupRules(updated, disk);
    DedupReplaces(updated, disk);
    ResultIsClean(disk, payload);
    var mergedVMs := originalVMs + matchingVMs;
    forall v ensures v in mergedVMs <==> UpdateFinds(v, disk, payload, vms) {
      FoundByValues(v, remaining, replacedRules, vms);
    }
    var vmRules := RulesByVMs(local, vms, mergedVMs, updatedRules);
    var files := PrepareIpfData(local, remote, vms, Listed(rvms), vmRules, mergedVMs, logger);
    forall v | v in files ensures files[v] == FullConf(v, updatedRules, vms, rvms, logger) {
      SliceGivesConf(updatedRules, vms, Listed(rvms), mergedVMs, v, logger);
    }
    UnwrittenAreJudged(disk, payload, vms, rvms, logger);
    return Updated(updatedRules, files);
  }

  lemma UnwrittenAreJudged(disk: seq<Rule>, payload: seq<RuleUpdate>, vms: seq<VM>, rvms: seq<VM>, logger: bool)
    requires ParsedRules(disk) && DistinctRules(disk) && ValidPayload(payload)
    requires Accepted(OriginalsOf(disk, payload), payload)
    ensures (forall v :: Enabled(vms, v) && !UpdateFinds(v, disk, payload, vms) ==>
               SameRebuild(v, RulesAfter(disk, payload), disk, vms, rvms, rvms, logger))
            <==> UpdateIsSound(disk, payload, vms, rvms, logger)
  {
    hide SomeWrites, StateShows, Clashing, ParsedRule, UpdateFinds, Applied, Accepted, Enabled;
    forall v | !UpdateFinds(v, disk, payload, vms)
      ensures SameRebuild(v, RulesAfter(disk, payload), disk, vms, rvms, rvms, logger) <==>
                && !SomeWrites(v, disk, Clashing(disk, payload), vms, rvms, logger)
                && !StateShows(v, Without(disk, Clashing(disk, payload)), disk, vms, rvms, logger)
    {
      UnwrittenShows(v, disk, payload, vms, rvms, logger);
    }
    hide SameRebuild;
  }

  lemma FoundByValues(v: Uuid, remaining: map<Uuid, Rule>, replaced: seq<Rule>, vms: seq<VM>)
    requires forall r :: r in replaced <==> exists u :: u in remaining && remaining[u] == r
    ensures Touched(v, replaced, vms, true) <==> exists u :: u in remaining && TouchesUuid(remaining[u], vms, v)
  {
    forall u | u in remaining && TouchesUuid(remaining[u], vms, v) ensures Touched(v, replaced, vms, true) {
      assert remaining[u] in replaced;
    }
    hide Touches;
  }

  lemma ResultIsClean(disk: seq<Rule>, payload: seq<RuleUpdate>)
    requires ParsedRules(disk) && DistinctRules(disk) && ValidPayload(payload)
    requires Accepted(OriginalsOf(disk, payload), payload)
    ensures ParsedRules(RulesAfter(disk, payload)) && DistinctRules(RulesAfter(disk, payload))
  {
    var updated := Applied(OriginalsOf(disk, payload), payload).0;
    AppliedAreParsed(OriginalsOf(disk, payload), payload);
    hide ParsedRule, Applied, OriginalsOf;
    DedupReplaces(updated, disk);
    DedupIsClean(updated + disk);
    forall r | r in Dedup(updated + disk) ensures ParsedRule(r) {
      assert r in updated + disk;
      assert r in updated || r in disk;
    }
  }
}
