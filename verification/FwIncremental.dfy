/** Incremental equals full rebuild: update, del and add rewrite only the VMs they believe are
 *  affected, from a slice of the rules.  Each of those gets what a rebuild from all rules gives,
 *  and a rebuild would change no other VM.
 */
module FwIncremental {
  import opened FwCompile
  import opened FwFilter
  import opened FwLookup
  import opened FwPlan
  import opened FwTypes
  import opened Sequences

  // ---- rules that do not touch a VM write nothing for it ----

  ghost predicate TouchesUuid(rule: Rule, vms: seq<VM>, v: Uuid) {
    exists vm :: vm in vms && vm.uuid == v && Touches(rule, vm)
  }

  lemma UntouchedIsOnNoSide(rule: Rule, vms: seq<VM>, v: Uuid)
    requires ParsedRule(rule) && !TouchesUuid(rule, vms, v)
    ensures forall dir :: v !in UuidsOnSide(vms, rule, dir)
  {
    forall dir ensures v !in UuidsOnSide(vms, rule, dir) {
      UuidsOnSideIsScan(vms, rule, dir, v);
      if v in UuidsOnSide(vms, rule, dir) {
        var vm :| vm in vms && vm.uuid == v && OnSide(vm, rule, dir);
        OnSideTouches(vm, rule, dir);
      }
    }
  }

  lemma UntouchedWritesNothing(rule: Rule, vms: seq<VM>, remotes: Remotes, v: Uuid, logger: bool)
    requires ParsedRule(rule) && !TouchesUuid(rule, vms, v)
    ensures Contribution(v, rule, vms, remotes, logger) == []
  {
    hide UuidsOnSide, OtherSideObjs, ParsedRule, TouchesUuid;
    UntouchedIsOnNoSide(rule, vms, v);
    CountZero(UuidsOnSide(vms, rule, From), v);
    CountZero(UuidsOnSide(vms, rule, To), v);
  }

  /** The slice of rules for a set of VMs compiles, for each of them, to what all rules compile to. */
  lemma {:induction false} SliceIsEnough(rules: seq<Rule>, vms: seq<VM>, remotes: Remotes, listed: set<Uuid>, v: Uuid,
                              logger: bool)
    requires ParsedRules(rules) && v in listed
    ensures ConfObjs(v, RulesTouching(rules, vms, listed), vms, remotes, logger) ==
      ConfObjs(v, rules, vms, remotes, logger)
    ensures InboundState(v, RulesTouching(rules, vms, listed), vms) == InboundState(v, rules, vms)
  {
    if rules != [] {
      var front, r := rules[..|rules| - 1], rules[|rules| - 1];
      assert ParsedRule(r);
      SliceIsEnough(front, vms, remotes, listed, v, logger);
      if TouchesSome(r, vms, listed) {
        var slice := RulesTouching(front, vms, listed);
        assert (slice + [r])[..|slice|] == slice;
      } else {
        UntouchedWritesNothing(r, vms, remotes, v, logger);
        UntouchedIsOnNoSide(r, vms, v);
      }
    }
  }

  lemma SliceGivesConf(rules: seq<Rule>, vms: seq<VM>, remotes: Remotes, listed: set<Uuid>, v: Uuid, logger: bool)
    requires ParsedRules(rules) && v in listed
    ensures ConfFrom(v, RulesTouching(rules, vms, listed), vms, remotes, logger) ==
      ConfFrom(v, rules, vms, remotes, logger)
  {
    SliceIsEnough(rules, vms, remotes, listed, v, logger);
  }

  lemma ConfObjsSnoc(v: Uuid, a: seq<Rule>, r: Rule, vms: seq<VM>, remotes: Remotes, logger: bool)
    ensures ConfObjs(v, a + [r], vms, remotes, logger) ==
      ConfObjs(v, a, vms, remotes, logger) + Contribution(v, r, vms, remotes, logger)
  {
    assert (a + [r])[..|a|] == a;
  }

  lemma {:induction false} ConfObjsConcat(v: Uuid, a: seq<Rule>, b: seq<Rule>, vms: seq<VM>, remotes: Remotes,
                                          logger: bool)
    ensures ConfObjs(v, a + b, vms, remotes, logger) ==
      ConfObjs(v, a, vms, remotes, logger) + ConfObjs(v, b, vms, remotes, logger)
  {
    if b == [] {
      assert a + b == a;
    } else {
      var front, r := b[..|b| - 1], b[|b| - 1];
      assert a + b == (a + front) + [r] && b == front + [r];
      ConfObjsConcat(v, a, front, vms, remotes, logger);
      ConfObjsSnoc(v, a + front, r, vms, remotes, logger);
      ConfObjsSnoc(v, front, r, vms, remotes, logger);
      Assoc(ConfObjs(v, a, vms, remotes, logger), ConfObjs(v, front, vms, remotes, logger),
            Contribution(v, r, vms, remotes, logger));
    }
  }

  lemma {:induction false} InboundStateConcat(v: Uuid, a: seq<Rule>, b: seq<Rule>, vms: seq<VM>)
    ensures InboundState(v, a + b, vms) == InboundState(v, a, vms) + InboundState(v, b, vms)
  {
    if b == [] {
      assert a + b == a;
    } else {
      var front := b[..|b| - 1];
      assert (a + b)[..|a + b| - 1] == a + front;
      InboundStateConcat(v, a, front, vms);
    }
  }

  lemma {:induction false} UntouchedRulesWriteNothing(v: Uuid, rules: seq<Rule>, vms: seq<VM>, remotes: Remotes,
                                                      logger: bool)
    requires ParsedRules(rules)
    requires forall r :: r in rules ==> !TouchesUuid(r, vms, v)
    ensures ConfObjs(v, rules, vms, remotes, logger) == []
    ensures InboundState(v, rules, vms) == {}
  {
    if rules != [] {
      var r := rules[|rules| - 1];
      assert r in rules;
      UntouchedRulesWriteNothing(v, rules[..|rules| - 1], vms, remotes, logger);
      UntouchedWritesNothing(r, vms, remotes, v, logger);
      UntouchedIsOnNoSide(r, vms, v);
    }
  }

  /** Dropping rules that do not touch v changes nothing for v. */
  lemma {:induction false} WithoutUntouched(v: Uuid, rules: seq<Rule>, uuids: set<Uuid>, vms: seq<VM>, remotes: Remotes,
                              logger: bool)
    requires ParsedRules(rules)
    requires forall r :: r in rules && r.uuid in uuids ==> !TouchesUuid(r, vms, v)
    ensures ConfObjs(v, Without(rules, uuids), vms, remotes, logger) == ConfObjs(v, rules, vms, remotes, logger)
    ensures InboundState(v, Without(rules, uuids), vms) == InboundState(v, rules, vms)
  {
    if rules != [] {
      var front, r := rules[..|rules| - 1], rules[|rules| - 1];
      assert r in rules;
      WithoutUntouched(v, front, uuids, vms, remotes, logger);
      if r.uuid in uuids {
        UntouchedWritesNothing(r, vms, remotes, v, logger);
        UntouchedIsOnNoSide(r, vms, v);
      } else {
        var kept := Without(front, uuids);
        assert (kept + [r])[..|kept|] == kept;
      }
    }
  }

  lemma {:induction false} WithoutMembers(rules: seq<Rule>, uuids: set<Uuid>)
    ensures forall r :: r in Without(rules, uuids) <==> r in rules && r.uuid !in uuids
    ensures forall r :: r in With(rules, uuids) <==> r in rules && r.uuid in uuids
    ensures DistinctRules(rules) ==> DistinctRules(Without(rules, uuids))
  {
    if rules != [] {
      var front, r := rules[..|rules| - 1], rules[|rules| - 1];
      WithoutMembers(front, uuids);
      assert rules == front + [r];
      var kept := Without(front, uuids);
      if DistinctRules(rules) {
        forall i | 0 <= i < |kept| ensures kept[i].uuid != r.uuid { assert kept[i] in front; }
      }
    }
  }

  /** Deduplicating new rules before old ones keeps the first new one of each uuid, and the old ones
   *  that no new one replaces. */
  lemma {:induction false} DedupReplaces(news: seq<Rule>, olds: seq<Rule>)
    requires DistinctRules(olds)
    ensures Dedup(news + olds) == Dedup(news) + Without(olds, UuidsOf(news))
  {
    if olds == [] {
      assert news + olds == news;
    } else {
      var front, r := olds[..|olds| - 1], olds[|olds| - 1];
      assert (news + olds)[..|news + olds| - 1] == news + front;
      DedupReplaces(news, front);
      UuidsOfConcat(news, front);
      assert r.uuid !in UuidsOf(front);
      Assoc(Dedup(news), Without(front, UuidsOf(news)), [r]);
    }
  }

  lemma UuidsOfConcat(a: seq<Rule>, b: seq<Rule>)
    ensures UuidsOf(a + b) == UuidsOf(a) + UuidsOf(b)
  {
    forall u | u in UuidsOf(b) ensures u in UuidsOf(a + b) {
      var i :| 0 <= i < |b| && b[i].uuid == u;
      assert (a + b)[|a| + i].uuid == u;
    }
    forall u | u in UuidsOf(a) ensures u in UuidsOf(a + b) {
      var i :| 0 <= i < |a| && a[i].uuid == u;
      assert (a + b)[i].uuid == u;
    }
  }
}
