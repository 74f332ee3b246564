/** Remote VMs that are added while they are stored already: what the lookup table holds of the old and
 *  the new ones, and what that means for a file.
 */
module FwReadd {
  import opened FwFilter
  import opened FwLookup
  import opened FwOrder
  import opened FwPlan
  import opened FwReach
  import opened FwTypes

  function VMUuids(vms: seq<VM>): set<Uuid> {
    set vm | vm in vms :: vm.uuid
  }

  /** The stored VMs that are not added again, and the added ones */
  function Current(rvms: seq<VM>, news: seq<VM>): seq<VM> {
    VMsWithout(rvms, VMUuids(news)) + news
  }

  ghost predicate Replaces(added: VM, stored: VM, rvms: seq<VM>, news: seq<VM>) {
    stored in rvms && added in news && stored.uuid == added.uuid
  }

  /** Every tag is still there, with its value. */
  predicate TagsKept(stored: VM, added: VM) {
    forall k :: k in stored.tags ==> k in added.tags && added.tags[k] == stored.tags[k]
  }

  // ---- the members of an entry ----

  lemma {:induction false} AssignMembers(d: seq<VM>, vm: VM, x: VM)
    requires DistinctVMs(d)
    ensures x in Assign(d, vm) <==> x == vm || (x in d && x.uuid != vm.uuid)
  {
    if d != [] {
      assert d == [d[0]] + d[1..];
      if d[0].uuid == vm.uuid {
        assert forall i :: 0 < i < |d| ==> d[i].uuid != vm.uuid;
      } else {
        AssignMembers(d[1..], vm, x);
      }
    }
  }

  lemma {:induction false} EntriesAreDistinct(list: seq<VM>, t: Target)
    ensures DistinctVMs(Table(Remote, list, t))
  {
    if list != [] {
      EntriesAreDistinct(list[..|list| - 1], t);
      AssignKeepsDistinct(Table(Remote, list[..|list| - 1], t), list[|list| - 1]);
    }
  }

  /** Whether the entry of a target holds x: an address keeps the first VM under a uuid, a name takes the
   *  last one that it selects. */
  ghost predicate Held(rvms: seq<VM>, news: seq<VM>, t: Target, x: VM) {
    && Selects(t, x)
    && if t.OnIp? then x in rvms || (x in news && !exists o :: o in rvms && o.uuid == x.uuid && Selects(t, o))
       else x in news || (x in rvms && !exists n :: n in news && n.uuid == x.uuid && Selects(t, n))
  }

  lemma HasUuidMembers(d: seq<VM>, u: Uuid)
    ensures HasUuid(d, u) <==> exists y :: y in d && y.uuid == u
  {
    if y :| y in d && y.uuid == u {
      var i :| 0 <= i < |d| && d[i] == y;
      assert d[i].uuid == u;
    }
  }

  /** A VM's own entry starts again, which is to replace what it holds. */
  lemma StepMembers(t: Target, d: seq<VM>, vm: VM, x: VM)
    requires DistinctVMs(d) && Selects(t, vm) && forall y :: y in d ==> Selects(t, y)
    ensures x in Step(Remote, t, d, vm) <==>
      if t.OnIp? then x in d || (x == vm && !HasUuid(d, vm.uuid)) else x == vm || (x in d && x.uuid != vm.uuid)
  {
    AssignMembers(d, vm, x);
  }

  lemma {:induction false} EntryMembers(rvms: seq<VM>, news: seq<VM>, t: Target)
    requires DistinctVMs(rvms) && DistinctVMs(news)
    ensures forall x :: x in Table(Remote, rvms + news, t) <==> Held(rvms, news, t, x)
  {
    if news == [] {
      assert rvms + news == rvms;
      DistinctIsScan(Remote, rvms, t);
      InScan(rvms, t);
    } else {
      var front, n := news[..|news| - 1], news[|news| - 1];
      assert rvms + news == (rvms + front) + [n] && news == front + [n];
      EntryMembers(rvms, front, t);
      EntriesAreDistinct(rvms + front, t);
      TableSnoc(Remote, rvms + front, n, t);
      assert forall f :: f in front ==> f.uuid != n.uuid;
      hide Table, Step, DistinctVMs;
      if Selects(t, n) {
        HasUuidMembers(Table(Remote, rvms + front, t), n.uuid);
        forall x ensures x in Table(Remote, rvms + news, t) <==> Held(rvms, news, t, x) {
          StepMembers(t, Table(Remote, rvms + front, t), n, x);
          OneMoreHeld(rvms, front, n, t, x);
        }
      } else {
        forall x ensures Held(rvms, news, t, x) <==> Held(rvms, front, t, x) {
          NotSelected(rvms, front, n, t, x);
        }
        assert Step(Remote, t, Table(Remote, rvms + front, t), n) == Table(Remote, rvms + front, t) by {
          SkippedStep(t, Table(Remote, rvms + front, t), n);
        }
      }
    }
  }

  lemma SkippedStep(t: Target, d: seq<VM>, vm: VM)
    requires !Selects(t, vm)
    ensures Step(Remote, t, d, vm) == d
  {
  }

  lemma NotSelected(rvms: seq<VM>, front: seq<VM>, n: VM, t: Target, x: VM)
    requires !Selects(t, n)
    ensures Held(rvms, front + [n], t, x) <==> Held(rvms, front, t, x)
  {
    hide Selects;
  }

  lemma OneMoreHeld(rvms: seq<VM>, front: seq<VM>, n: VM, t: Target, x: VM)
    requires Selects(t, n) && forall f :: f in front ==> f.uuid != n.uuid
    ensures Held(rvms, front + [n], t, x) <==>
      if t.OnIp? then Held(rvms, front, t, x) || (x == n && !exists y :: Held(rvms, front, t, y) && y.uuid == n.uuid)
      else x == n || (Held(rvms, front, t, x) && x.uuid != n.uuid)
  {
    hide Selects;
    assert n in front + [n];
    forall o | o in rvms && o.uuid == n.uuid && Selects(t, o) && t.OnIp? ensures Held(rvms, front, t, o) {
    }
  }

  // ---- the entries against the VMs that are stored afterwards ----

  lemma CurrentMembers(rvms: seq<VM>, news: seq<VM>, x: VM)
    ensures x in Current(rvms, news) <==> x in news || (x in rvms && !exists n :: n in news && n.uuid == x.uuid)
  {
    WithoutVMsMembers(rvms, VMUuids(news));
    assert x.uuid in VMUuids(news) <==> exists n :: n in news && n.uuid == x.uuid;
  }

  lemma {:induction false} WithoutVMsMembers(vms: seq<VM>, uuids: set<Uuid>)
    ensures forall x :: x in VMsWithout(vms, uuids) <==> x in vms && x.uuid !in uuids
    ensures forall x :: x in VMsWith(vms, uuids) <==> x in vms && x.uuid in uuids
  {
    if vms != [] {
      WithoutVMsMembers(vms[..|vms| - 1], uuids);
      assert vms == vms[..|vms| - 1] + [vms[|vms| - 1]];
    }
  }

  /** The entry holds what a scan of the VMs that are stored afterwards selects. */
  ghost predicate Selecting(rvms: seq<VM>, news: seq<VM>, t: Target) {
    forall x :: x in Table(Remote, rvms + news, t) <==> x in Scan(Current(rvms, news), t)
  }

  lemma SelectingMeans(rvms: seq<VM>, news: seq<VM>, t: Target)
    requires DistinctVMs(rvms) && DistinctVMs(news)
    ensures Selecting(rvms, news, t) <==>
      forall stored, added :: Replaces(added, stored, rvms, news) && Selects(t, stored) ==>
        if t.OnIp? then stored == added else Selects(t, added)
  {
    EntryMembers(rvms, news, t);
    InScan(Current(rvms, news), t);
    forall x ensures x in Scan(Current(rvms, news), t) <==>
      Selects(t, x) && (x in news || (x in rvms && !exists n :: n in news && n.uuid == x.uuid))
    {
      CurrentMembers(rvms, news, x);
    }
    OnlyOne(news);
    hide Table, Scan, Current, Selects, DistinctVMs;
    if Selecting(rvms, news, t) {
      forall stored, added | Replaces(added, stored, rvms, news) && Selects(t, stored)
        ensures if t.OnIp? then stored == added else Selects(t, added)
      {
        assert stored in Scan(Current(rvms, news), t) <==> Held(rvms, news, t, stored);
      }
    }
  }

  lemma OnlyOne(vms: seq<VM>)
    requires DistinctVMs(vms)
    ensures forall x, y :: x in vms && y in vms && x.uuid == y.uuid ==> x == y
  {
  }

  /** Every name, tag and tag value selects the VMs that are stored afterwards exactly when no stored VM
   *  loses a tag, or its value, by being added again. */
  lemma NamesSelectCurrent(rvms: seq<VM>, news: seq<VM>)
    requires DistinctVMs(rvms) && DistinctVMs(news)
    ensures (forall t: Target :: !t.OnIp? ==> Selecting(rvms, news, t))
       <==> forall stored, added :: Replaces(added, stored, rvms, news) ==> TagsKept(stored, added)
  {
    hide Selecting;
    forall t: Target {
      SelectingMeans(rvms, news, t);
    }
    if forall t: Target :: !t.OnIp? ==> Selecting(rvms, news, t) {
      forall stored, added | Replaces(added, stored, rvms, news) ensures TagsKept(stored, added) {
        forall k | k in stored.tags ensures k in added.tags && added.tags[k] == stored.tags[k] {
          assert Selecting(rvms, news, OnTag(TagPair(k, stored.tags[k])));
          assert Selects(OnTag(TagPair(k, stored.tags[k])), stored);
        }
      }
    }
  }

  /** An address, too, selects them exactly when in addition no stored VM that has addresses changes: the
   *  entry keeps the VM as it was. */
  lemma EntriesSelectCurrent(rvms: seq<VM>, news: seq<VM>)
    requires DistinctVMs(rvms) && DistinctVMs(news)
    ensures (forall t :: Selecting(rvms, news, t))
       <==> forall stored, added :: Replaces(added, stored, rvms, news) ==>
              TagsKept(stored, added) && (stored.ips == [] || stored == added)
  {
    NamesSelectCurrent(rvms, news);
    hide Selecting, TagsKept;
    forall t: Target {
      SelectingMeans(rvms, news, t);
    }
    if forall t :: Selecting(rvms, news, t) {
      forall stored, added | Replaces(added, stored, rvms, news) ensures stored.ips == [] || stored == added {
        if stored.ips != [] {
          assert Selecting(rvms, news, OnIp(stored.ips[0]));
          assert Selects(OnIp(stored.ips[0]), stored);
        }
      }
    }
  }

  // ---- the file ----

  /** The stored VMs afterwards: a VM that is added again takes the place of the one before. */
  function Stored(rvms: seq<VM>, news: seq<VM>): seq<VM> {
    if news == [] then rvms else Assign(Stored(rvms, news[..|news| - 1]), news[|news| - 1])
  }

  lemma {:induction false} StoredAreDistinct(rvms: seq<VM>, news: seq<VM>)
    requires DistinctVMs(rvms)
    ensures DistinctVMs(Stored(rvms, news))
  {
    if news != [] {
      StoredAreDistinct(rvms, news[..|news| - 1]);
      AssignKeepsDistinct(Stored(rvms, news[..|news| - 1]), news[|news| - 1]);
    }
  }

  lemma {:induction false} StoredMembers(rvms: seq<VM>, news: seq<VM>)
    requires DistinctVMs(rvms) && DistinctVMs(news)
    ensures forall x :: x in Stored(rvms, news) <==> x in Current(rvms, news)
  {
    forall x ensures x in Stored(rvms, news) <==> x in Current(rvms, news) {
      StoredMember(rvms, news, x);
      CurrentMembers(rvms, news, x);
    }
  }

  lemma {:induction false} StoredMember(rvms: seq<VM>, news: seq<VM>, x: VM)
    requires DistinctVMs(rvms) && DistinctVMs(news)
    ensures x in Stored(rvms, news) <==> x in news || (x in rvms && !exists n :: n in news && n.uuid == x.uuid)
  {
    if news != [] {
      var front, n := news[..|news| - 1], news[|news| - 1];
      assert news == front + [n];
      StoredMember(rvms, front, x);
      StoredAreDistinct(rvms, front);
      AssignMembers(Stored(rvms, front), n, x);
      assert forall f :: f in front ==> f.uuid != n.uuid;
    }
  }

  /** Every stored VM that is added again has the tags that it had. */
  ghost predicate SameTags(rvms: seq<VM>, news: seq<VM>) {
    forall stored, added :: Replaces(added, stored, rvms, news) ==> stored.tags == added.tags
  }

  /** Assigning in the list, and in what a scan of it finds */
  lemma {:induction false} ScanAssign(d: seq<VM>, vm: VM, t: Target)
    requires !t.OnIp? && forall o :: o in d && o.uuid == vm.uuid ==> o.tags == vm.tags
    ensures Scan(Assign(d, vm), t) == if Selects(t, vm) then Assign(Scan(d, t), vm) else Scan(d, t)
  {
    if d == [] {
      ScanSnoc([], vm, t);
      assert [] + [vm] == [vm];
    } else {
      var first, rest := d[0], d[1..];
      assert d == [first] + rest;
      ScanConcat([first], rest, t);
      ScanOne(first, t);
      ScanOne(vm, t);
      AssignBehind(first, Scan(rest, t), vm);
      hide Scan;
      if first.uuid == vm.uuid {
        ScanConcat([vm], rest, t);
      } else {
        ScanConcat([first], Assign(rest, vm), t);
        ScanAssign(rest, vm, t);
      }
      NothingBefore(Scan(rest, t));
      NothingBefore(Scan(Assign(rest, vm), t));
    }
  }

  lemma NothingBefore(s: seq<VM>)
    ensures [] + s == s
  {
  }

  lemma AssignBehind(first: VM, s: seq<VM>, vm: VM)
    ensures Assign([first] + s, vm) == if first.uuid == vm.uuid then [vm] + s else [first] + Assign(s, vm)
  {
    assert ([first] + s)[1..] == s;
  }

  lemma ScanOne(vm: VM, t: Target)
    ensures Scan([vm], t) == if Selects(t, vm) then [vm] else []
  {
    ScanSnoc([], vm, t);
    assert [] + [vm] == [vm];
  }

  lemma OwnEntry(d: seq<VM>, vm: VM, t: Target)
    requires DistinctVMs(d) && !t.OnIp?
    ensures Selects(t, vm) ==> Step(Remote, t, Scan(d, t), vm) == Assign(Scan(d, t), vm)
  {
    if t.OnVm? && Selects(t, vm) {
      InScan(d, t);
      var s := Scan(d, t);
      ScanIsDistinct(d, t);
      assert forall i :: 0 <= i < |s| ==> s[i] in s;
      assert |s| > 1 ==> s[0].uuid != s[1].uuid;
    }
  }

  lemma {:induction false} ScanIsDistinct(vms: seq<VM>, t: Target)
    requires DistinctVMs(vms)
    ensures DistinctVMs(Scan(vms, t))
  {
    if vms != [] {
      var front, vm := vms[..|vms| - 1], vms[|vms| - 1];
      ScanIsDistinct(front, t);
      FreshInScan(front, vm, t);
      assert forall i :: 0 <= i < |Scan(front, t)| ==> Scan(front, t)[i].uuid != vm.uuid;
    }
  }

  lemma SameTagsBefore(rvms: seq<VM>, front: seq<VM>, n: VM)
    requires DistinctVMs(rvms) && DistinctVMs(front + [n]) && SameTags(rvms, front + [n])
    ensures SameTags(rvms, front)
    ensures forall o :: o in Stored(rvms, front) && o.uuid == n.uuid ==> o.tags == n.tags
  {
    var news := front + [n];
    assert news[|front|] == n;
    forall i | 0 <= i < |front| ensures front[i] == news[i] && front[i].uuid != n.uuid {
    }
    assert forall f :: f in front ==> f in news;
    forall o | o in Stored(rvms, front) && o.uuid == n.uuid ensures o.tags == n.tags {
      StoredMember(rvms, front, o);
      assert Replaces(n, o, rvms, news);
    }
  }

  /** With the same tags a name finds what it finds among the stored VMs, in their order. */
  lemma {:induction false} NamesFindStored(rvms: seq<VM>, news: seq<VM>, t: Target)
    requires DistinctVMs(rvms) && DistinctVMs(news) && SameTags(rvms, news) && !t.OnIp?
    ensures Tabled(rvms + news).Find(t) == Listed(Stored(rvms, news)).Find(t)
  {
    if news == [] {
      assert rvms + news == rvms;
      DistinctIsScan(Remote, rvms, t);
    } else {
      var front, n := news[..|news| - 1], news[|news| - 1];
      assert rvms + news == (rvms + front) + [n] && news == front + [n] && n in news;
      SameTagsBefore(rvms, front, n);
      NamesFindStored(rvms, front, t);
      TableSnoc(Remote, rvms + front, n, t);
      StoredAreDistinct(rvms, front);
      ScanAssign(Stored(rvms, front), n, t);
      OwnEntry(Stored(rvms, front), n, t);
      hide Table, Scan, Assign, Selects, Stored, DistinctVMs;
      if !Selects(t, n) {
        SkippedStep(t, Scan(Stored(rvms, front), t), n);
      }
    }
  }

  /** Files do not depend on how the remote VMs are read, as long as every name finds the same. */
  lemma SameNamesSameConf(v: Uuid, rules: seq<Rule>, vms: seq<VM>, a: Remotes, b: Remotes, logger: bool)
    requires forall t: Target :: !t.OnIp? ==> a.Find(t) == b.Find(t)
    ensures ConfFrom(v, rules, vms, a, logger) == ConfFrom(v, rules, vms, b, logger)
  {
    SameConfObjs(v, rules, vms, a, b, logger);
  }

  lemma {:induction false} SameConfObjs(v: Uuid, rules: seq<Rule>, vms: seq<VM>, a: Remotes, b: Remotes, logger: bool)
    requires forall t: Target :: !t.OnIp? ==> a.Find(t) == b.Find(t)
    ensures ConfObjs(v, rules, vms, a, logger) == ConfObjs(v, rules, vms, b, logger)
  {
    if rules != [] {
      var rule := rules[|rules| - 1];
      SameConfObjs(v, rules[..|rules| - 1], vms, a, b, logger);
      SameOtherSide(rule, From, vms, a, b, logger);
      SameOtherSide(rule, To, vms, a, b, logger);
    }
  }

  lemma SameOtherSide(rule: Rule, dir: Direction, vms: seq<VM>, a: Remotes, b: Remotes, logger: bool)
    requires forall t: Target :: !t.OnIp? ==> a.Find(t) == b.Find(t)
    ensures OtherSideObjs(rule, dir, vms, a, logger) == OtherSideObjs(rule, dir, vms, b, logger)
  {
    var other := rule.On(Opposite(dir));
    NoAddresses(other);
    SameNamedObjs(rule, dir, OtherTargets(other), vms, a, b, logger);
  }

  lemma NoAddresses(side: Side)
    ensures forall t :: t in OtherTargets(side) ==> !t.OnIp?
  {
  }

  lemma {:induction false} SameNamedObjs(rule: Rule, dir: Direction, targets: seq<Target>, vms: seq<VM>, a: Remotes,
                                         b: Remotes, logger: bool)
    requires forall t: Target :: !t.OnIp? ==> a.Find(t) == b.Find(t)
    requires forall t :: t in targets ==> !t.OnIp?
    ensures NamedObjs(rule, dir, targets, vms, a, logger) == NamedObjs(rule, dir, targets, vms, b, logger)
  {
    if targets != [] {
      assert targets[|targets| - 1] in targets;
      SameNamedObjs(rule, dir, targets[..|targets| - 1], vms, a, b, logger);
    }
  }

  /** What add writes is what a rebuild from the stored VMs writes, if none loses or gains a tag. */
  lemma AddedGivesStored(v: Uuid, rules: seq<Rule>, vms: seq<VM>, rvms: seq<VM>, news: seq<VM>, logger: bool)
    requires DistinctVMs(rvms) && DistinctVMs(news) && SameTags(rvms, news)
    ensures ConfFrom(v, rules, vms, Tabled(rvms + news), logger)
         == FullConf(v, rules, vms, Stored(rvms, news), logger)
  {
    forall t: Target | !t.OnIp? ensures Tabled(rvms + news).Find(t) == Listed(Stored(rvms, news)).Find(t) {
      NamesFindStored(rvms, news, t);
    }
    SameNamesSameConf(v, rules, vms, Tabled(rvms + news), Listed(Stored(rvms, news)), logger);
  }

  // ---- which files change ----

  /** The uuids under which a VM is added that was not stored as it is */
  function Renewing(rvms: seq<VM>, news: seq<VM>): set<Uuid> {
    set n | n in news && n !in rvms :: n.uuid
  }

  /** The stored VMs that change */
  function Outdated(rvms: seq<VM>, news: seq<VM>): seq<VM> {
    VMsWith(rvms, Renewing(rvms, news))
  }

  /** The added VMs that are new, or not as they were */
  function Renewed(rvms: seq<VM>, news: seq<VM>): seq<VM> {
    VMsWith(news, Renewing(rvms, news))
  }

  lemma {:induction false} AssignThenDrop(d: seq<VM>, vm: VM, uuids: set<Uuid>)
    requires vm.uuid in uuids || (vm in d && DistinctVMs(d))
    ensures VMsWithout(Assign(d, vm), uuids) == VMsWithout(d, uuids)
  {
    if vm.uuid in uuids {
      AssignDropped(d, vm, uuids);
    } else {
      AssignAgain(d, vm);
    }
  }

  lemma AssignAgain(d: seq<VM>, vm: VM)
    requires vm in d && DistinctVMs(d)
    ensures Assign(d, vm) == d
  {
    var i :| 0 <= i < |d| && d[i] == vm;
    AssignAt(d, i);
  }

  lemma {:induction false} AssignAt(d: seq<VM>, i: nat)
    requires i < |d| && DistinctVMs(d)
    ensures Assign(d, d[i]) == d
  {
    if i > 0 {
      var rest := d[1..];
      assert d[0].uuid != d[i].uuid && rest[i - 1] == d[i];
      AssignAt(rest, i - 1);
      assert [d[0]] + rest == d;
    }
  }

  lemma {:induction false} WithoutConcat(a: seq<VM>, b: seq<VM>, uuids: set<Uuid>)
    ensures VMsWithout(a + b, uuids) == VMsWithout(a, uuids) + VMsWithout(b, uuids)
  {
    if b == [] {
      assert a + b == a;
    } else {
      assert (a + b)[..|a + b| - 1] == a + b[..|b| - 1];
      WithoutConcat(a, b[..|b| - 1], uuids);
    }
  }

  lemma {:induction false} AssignDropped(d: seq<VM>, vm: VM, uuids: set<Uuid>)
    requires vm.uuid in uuids
    ensures VMsWithout(Assign(d, vm), uuids) == VMsWithout(d, uuids)
  {
    WithoutOne(vm, uuids);
    if d != [] {
      var first, rest := d[0], d[1..];
      assert d == [first] + rest;
      WithoutConcat([first], rest, uuids);
      if first.uuid == vm.uuid {
        WithoutOne(first, uuids);
        WithoutConcat([vm], rest, uuids);
      } else {
        AssignDropped(rest, vm, uuids);
        WithoutConcat([first], Assign(rest, vm), uuids);
      }
    }
  }

  lemma WithoutOne(vm: VM, uuids: set<Uuid>)
    ensures VMsWithout([vm], uuids) == if vm.uuid in uuids then [] else [vm]
  {
    assert [vm][..0] == [];
  }

  /** Apart from the VMs that are renewed the stored ones stay as they are, in their order. */
  lemma {:induction false} StoredWithout(rvms: seq<VM>, news: seq<VM>, uuids: set<Uuid>)
    requires DistinctVMs(rvms) && DistinctVMs(news) && forall n :: n in news && n !in rvms ==> n.uuid in uuids
    ensures VMsWithout(Stored(rvms, news), uuids) == VMsWithout(rvms, uuids)
  {
    if news != [] {
      var front, n := news[..|news| - 1], news[|news| - 1];
      assert news == front + [n] && n in news;
      StoredWithout(rvms, front, uuids);
      StoredAreDistinct(rvms, front);
      if n.uuid !in uuids {
        assert forall f :: f in front ==> f.uuid != n.uuid;
        StoredMember(rvms, front, n);
      }
      AssignThenDrop(Stored(rvms, front), n, uuids);
    }
  }

  lemma ReachesMembers(v: Uuid, rules: seq<Rule>, vms: seq<VM>, a: seq<VM>, b: seq<VM>)
    requires forall x :: x in a <==> x in b
    ensures Reaches(v, rules, vms, a) <==> Reaches(v, rules, vms, b)
  {
    hide WritesBecause;
  }

  lemma RenewedMembers(rvms: seq<VM>, news: seq<VM>)
    requires DistinctVMs(rvms) && DistinctVMs(news)
    ensures forall x :: x in VMsWith(Stored(rvms, news), Renewing(rvms, news)) <==> x in Renewed(rvms, news)
  {
    var uuids := Renewing(rvms, news);
    WithoutVMsMembers(news, uuids);
    WithoutVMsMembers(Stored(rvms, news), uuids);
    forall x ensures x in Stored(rvms, news) && x.uuid in uuids <==> x in news && x.uuid in uuids {
      StoredMember(rvms, news, x);
    }
  }

  /** A file that a renewed VM did not write for before, or does not write for now, changes exactly when
   *  some rule writes lines for it because of the other one. */
  lemma ReaddingShows(v: Uuid, rules: seq<Rule>, vms: seq<VM>, rvms: seq<VM>, news: seq<VM>, logger: bool)
    requires DistinctVMs(rvms) && DistinctVMs(news)
    requires !Reaches(v, rules, vms, Outdated(rvms, news)) || !Reaches(v, rules, vms, Renewed(rvms, news))
    ensures SameRebuild(v, rules, rules, vms, Stored(rvms, news), rvms, logger) <==>
      !Reaches(v, rules, vms, Outdated(rvms, news)) && !Reaches(v, rules, vms, Renewed(rvms, news))
  {
    var uuids, stored := Renewing(rvms, news), Stored(rvms, news);
    StoredWithout(rvms, news, uuids);
    RenewedMembers(rvms, news);
    hide Reaches, Stored, Renewing, Renewed, FullConf, VMsWith, VMsWithout, DistinctVMs;
    ReachesMembers(v, rules, vms, VMsWith(stored, uuids), Renewed(rvms, news));
    RemoteChangeShows(v, rules, vms, Removed(rvms, uuids), logger);
    RemoteChangeShows(v, rules, vms, Removed(stored, uuids), logger);
  }
}
