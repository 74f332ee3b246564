/** VM lookup tables: the tables built by createVMlookup and by the remote VM createLookup,
 *  and the proof that reading one entry is the same as scanning the VM list.
 */
module FwLookup {
  import opened FwTypes

  // ---- the plain scan ----

  /** The VMs of a list that a target names, in list order. */
  function Scan(vms: seq<VM>, t: Target): seq<VM> {
    if vms == [] then [] else
    var rest := Scan(vms[..|vms| - 1], t);
    var last := vms[|vms| - 1];
    if Selects(t, last) then rest + [last] else rest
  }

  lemma {:induction false} InScan(vms: seq<VM>, t: Target)
    ensures forall vm :: vm in Scan(vms, t) <==> vm in vms && Selects(t, vm)
  {
    if vms != [] {
      InScan(vms[..|vms| - 1], t);
      assert vms == vms[..|vms| - 1] + [vms[|vms| - 1]];
    }
  }

  lemma ScanSnoc(vms: seq<VM>, vm: VM, t: Target)
    ensures Scan(vms + [vm], t) == if Selects(t, vm) then Scan(vms, t) + [vm] else Scan(vms, t)
  {
    assert (vms + [vm])[..|vms|] == vms;
  }

  lemma {:induction false} ScanConcat(a: seq<VM>, b: seq<VM>, t: Target)
    ensures Scan(a + b, t) == Scan(a, t) + Scan(b, t)
  {
    if b == [] {
      assert a + b == a;
    } else {
      var b' := b[..|b| - 1];
      assert a + b == (a + b') + [b[|b| - 1]];
      assert b == b' + [b[|b| - 1]];
      ScanConcat(a, b', t);
      ScanSnoc(a + b', b[|b| - 1], t);
    }
  }

  predicate HasUuid(d: seq<VM>, uuid: Uuid) {
    exists i :: 0 <= i < |d| && d[i].uuid == uuid
  }

  /** Assigning d[vm.uuid] = vm on an object that keeps its keys in insertion order. */
  function Assign(d: seq<VM>, vm: VM): seq<VM> {
    if d == [] then [vm]
    else if d[0].uuid == vm.uuid then [vm] + d[1..]
    else [d[0]] + Assign(d[1..], vm)
  }

  /** Adding to an object only where the key is missing. */
  function KeepFirst(d: seq<VM>, vm: VM): seq<VM> {
    if HasUuid(d, vm.uuid) then d else d + [vm]
  }

  lemma {:induction false} AssignFresh(d: seq<VM>, vm: VM)
    requires !HasUuid(d, vm.uuid)
    ensures Assign(d, vm) == d + [vm]
  {
    if d != [] {
      assert !HasUuid(d[1..], vm.uuid) by {
        assert forall i :: 0 <= i < |d[1..]| ==> d[1..][i] == d[i + 1];
      }
      AssignFresh(d[1..], vm);
      assert [d[0]] + (d[1..] + [vm]) == d + [vm];
    }
  }

  lemma KeepFirstTwice(d: seq<VM>, vm: VM)
    ensures KeepFirst(KeepFirst(d, vm), vm) == KeepFirst(d, vm)
  {
    assert (d + [vm])[|d|] == vm;
  }

  // ---- what the entries hold ----

  /** The two tables: mergeIntoLookup keeps the VM it has under a uuid, createLookup over remote VMs
   *  starts that entry again. */
  datatype Kind = Local | Remote

  /** What becomes of one entry when a VM is merged. */
  function Step(kind: Kind, t: Target, d: seq<VM>, vm: VM): seq<VM> {
    if !Selects(t, vm) then d else
    match t
    case OnIp(_) => KeepFirst(d, vm)
    case OnVm(_) => if kind == Remote then [vm] else KeepFirst(d, vm)
    case _ => Assign(d, vm)
  }

  function Table(kind: Kind, list: seq<VM>, t: Target): seq<VM> {
    if list == [] then [] else Step(kind, t, Table(kind, list[..|list| - 1], t), list[|list| - 1])
  }

  lemma TableSnoc(kind: Kind, list: seq<VM>, vm: VM, t: Target)
    ensures Table(kind, list + [vm], t) == Step(kind, t, Table(kind, list, t), vm)
  {
    assert (list + [vm])[..|list|] == list;
  }

  lemma FreshInScan(vms: seq<VM>, vm: VM, t: Target)
    requires !HasUuid(vms, vm.uuid)
    ensures !HasUuid(Scan(vms, t), vm.uuid)
  {
    InScan(vms, t);
    forall i | 0 <= i < |Scan(vms, t)| ensures Scan(vms, t)[i].uuid != vm.uuid {
      assert Scan(vms, t)[i] in vms;
    }
  }

  lemma OnlyOneUuid(vms: seq<VM>, vm: VM, t: Target)
    requires t.OnVm? && Selects(t, vm) && !HasUuid(vms, vm.uuid)
    ensures Scan(vms, t) == []
  {
    FreshInScan(vms, vm, t);
    InScan(vms, t);
    FirstIn(Scan(vms, t));
  }

  lemma FirstIn<T>(s: seq<T>)
    ensures s != [] ==> s[0] in s
  {
  }

  lemma {:induction false} DistinctIsScan(kind: Kind, list: seq<VM>, t: Target)
    requires DistinctVMs(list)
    ensures Table(kind, list, t) == Scan(list, t)
  {
    if list != [] {
      var front, vm := list[..|list| - 1], list[|list| - 1];
      DistinctIsScan(kind, front, t);
      FreshInScan(front, vm, t);
      AssignFresh(Scan(front, t), vm);
      if t.OnVm? && Selects(t, vm) {
        OnlyOneUuid(front, vm, t);
      }
    }
  }

  lemma {:induction false} AssignKeepsDistinct(d: seq<VM>, vm: VM)
    requires DistinctVMs(d)
    ensures DistinctVMs(Assign(d, vm))
    ensures forall u :: HasUuid(Assign(d, vm), u) ==> HasUuid(d, u) || u == vm.uuid
  {
    if d != [] {
      AssignKeepsDistinct(d[1..], vm);
      var rest := Assign(d[1..], vm);
      forall u | HasUuid(d[1..], u) ensures HasUuid(d, u) {
        var i :| 0 <= i < |d[1..]| && d[1..][i].uuid == u;
        assert d[i + 1].uuid == u;
      }
      if d[0].uuid == vm.uuid {
        assert forall i :: 0 < i < |d| ==> ([vm] + d[1..])[i] == d[i];
      } else {
        assert !HasUuid(d[1..], d[0].uuid);
        assert forall i :: 0 <= i < |rest| ==> HasUuid(rest, rest[i].uuid);
      }
    }
  }

  lemma {:induction false} AllAreDistinct(kind: Kind, list: seq<VM>)
    ensures DistinctVMs(Table(kind, list, OnWildcard(VmAll)))
  {
    if list != [] {
      AllAreDistinct(kind, list[..|list| - 1]);
      AssignKeepsDistinct(Table(kind, list[..|list| - 1], OnWildcard(VmAll)), list[|list| - 1]);
    }
  }

  lemma {:induction false} ScanAll(list: seq<VM>)
    ensures Scan(list, OnWildcard(VmAll)) == list
  {
    if list != [] {
      ScanAll(list[..|list| - 1]);
    }
  }

  /** Reading the table is scanning the list exactly when no uuid is listed twice. */
  lemma TableIsScan(kind: Kind, list: seq<VM>)
    ensures (forall t :: Table(kind, list, t) == Scan(list, t)) <==> DistinctVMs(list)
  {
    if DistinctVMs(list) {
      forall t ensures Table(kind, list, t) == Scan(list, t) {
        DistinctIsScan(kind, list, t);
      }
    } else {
      AllAreDistinct(kind, list);
      ScanAll(list);
    }
  }

  /** What a reader of remote VMs finds under a target: by a scan of a list, or in the table after the list
   *  was merged into it. */
  datatype Remotes = Listed(vms: seq<VM>) | Tabled(vms: seq<VM>)
  {
    function Find(t: Target): seq<VM> {
      match this
      case Listed(_) => Scan(vms, t)
      case Tabled(_) => Table(Remote, vms, t)
    }
  }

  // ---- the table ----

  class VMStore {
    var all: seq<VM>
    var vms: map<Uuid, seq<VM>>
    var tags: map<string, seq<VM>>
    var tagValues: map<string, map<string, seq<VM>>>
    var ips: map<Addr, seq<VM>>

    constructor ()
      ensures forall t :: Entry(t) == []
    {
      all, vms, tags, tagValues, ips := [], map[], map[], map[], map[];
    }

    /** What a reader finds under a target: nothing when any key on the way is missing. */
    function Entry(t: Target): seq<VM>
      reads this
    {
      match t
      case OnIp(ip) => if ip in ips then ips[ip] else []
      case OnTag(TagKey(key)) => if key in tags then tags[key] else []
      case OnTag(TagPair(key, value)) =>
        if key in tagValues && value in tagValues[key] then tagValues[key][value] else []
      case OnVm(uuid) => if uuid in vms then vms[uuid] else []
      case OnWildcard(Any) => []
      case OnWildcard(VmAll) => all
    }

    ghost predicate Holds(kind: Kind, list: seq<VM>)
      reads this
    {
      forall t :: Entry(t) == Table(kind, list, t)
    }

    /** The table agrees with a scan of the list, for every target. */
    ghost predicate Indexes(list: seq<VM>)
      reads this
    {
      all == list && forall t :: Entry(t) == Scan(list, t)
    }

    ghost predicate Reads(remotes: Remotes)
      reads this
    {
      forall t :: Entry(t) == remotes.Find(t)
    }

    /** createSubObjects(tags, tag, uuid, vm) */
    method AddTag(key: string, vm: VM)
      modifies this`tags
      ensures forall t :: Entry(t) == if t == OnTag(TagKey(key)) then Assign(old(Entry(t)), vm) else old(Entry(t))
    {
      if key !in tags {
        tags := tags[key := []];
      }
      tags := tags[key := Assign(tags[key], vm)];
    }

    /** createSubObjects(tagValues, tag, val, uuid, vm) */
    method AddTagValue(key: string, value: string, vm: VM)
      modifies this`tagValues
      ensures forall t ::
        Entry(t) == if t == OnTag(TagPair(key, value)) then Assign(old(Entry(t)), vm) else old(Entry(t))
    {
      if key !in tagValues {
        tagValues := tagValues[key := map[]];
      }
      if value !in tagValues[key] {
        tagValues := tagValues[key := tagValues[key][value := []]];
      }
      tagValues := tagValues[key := tagValues[key][value := Assign(tagValues[key][value], vm)]];
    }

    /** addToObj3(store, 'ips', ip, uuid, vm): the first object stored under a uuid stays. */
    method AddIp(ip: Addr, vm: VM)
      modifies this`ips
      ensures forall t :: Entry(t) == if t == OnIp(ip) then KeepFirst(old(Entry(t)), vm) else old(Entry(t))
    {
      if ip !in ips {
        ips := ips[ip := []];
      }
      if !HasUuid(ips[ip], vm.uuid) {
        ips := ips[ip := ips[ip] + [vm]];
      }
    }

    /** Every entry is as in the table for `list`, taken one step on where vm was already merged. */
    ghost predicate Partial(kind: Kind, list: seq<VM>, vm: VM, keys: set<string>, addrs: set<Addr>)
      reads this
    {
      forall t ::
        Entry(t) == var d := Table(kind, list, t); if Merged(t, vm, keys, addrs) then Step(kind, t, d, vm) else d
    }

    method MergeTags(kind: Kind, ghost list: seq<VM>, vm: VM)
      requires Partial(kind, list, vm, {}, {})
      modifies this`tags, this`tagValues
      ensures Partial(kind, list, vm, vm.tags.Keys, {})
    {
      var todo := vm.tags.Keys;
      while todo != {}
        invariant todo <= vm.tags.Keys
        invariant Partial(kind, list, vm, vm.tags.Keys - todo, {})
        decreases todo
      {
        var key :| key in todo;
        AddTag(key, vm);
        AddTagValue(key, vm.tags[key], vm);
        todo := todo - {key};
      }
      assert vm.tags.Keys - todo == vm.tags.Keys;
    }

    method MergeIps(kind: Kind, ghost list: seq<VM>, vm: VM)
      requires Partial(kind, list, vm, vm.tags.Keys, {})
      modifies this`ips
      ensures Partial(kind, list, vm, vm.tags.Keys, Elements(vm.ips))
    {
      for i := 0 to |vm.ips|
        invariant Partial(kind, list, vm, vm.tags.Keys, Elements(vm.ips[..i]))
      {
        var ip := vm.ips[i];
        KeepFirstTwice(Table(kind, list, OnIp(ip)), vm);
        AddIp(ip, vm);
        assert Elements(vm.ips[..i + 1]) == Elements(vm.ips[..i]) + {ip};
      }
      assert vm.ips[..|vm.ips|] == vm.ips;
    }

    /** vms[uuid][uuid] */
    method MergeVm(kind: Kind, vm: VM)
      modifies this`vms
      ensures forall t :: Entry(t) == if t == OnVm(vm.uuid) then Step(kind, t, old(Entry(t)), vm) else old(Entry(t))
    {
      match kind {
        case Local =>
          if vm.uuid !in vms {
            vms := vms[vm.uuid := []];
          }
          if !HasUuid(vms[vm.uuid], vm.uuid) {
            vms := vms[vm.uuid := vms[vm.uuid] + [vm]];
          }
        case Remote =>
          vms := vms[vm.uuid := [vm]];
      }
    }

    /** The entries every VM gets */
    method MergeUuid(kind: Kind, ghost list: seq<VM>, vm: VM)
      requires Holds(kind, list)
      modifies this`all, this`vms
      ensures Partial(kind, list, vm, {}, {})
    {
      all := Assign(all, vm);
      assert forall t :: Entry(t) == if t == OnWildcard(VmAll) then Assign(old(Entry(t)), vm) else old(Entry(t));
      MergeVm(kind, vm);
    }

    /** mergeIntoLookup, and the loop body of createLookup over remote VMs */
    method MergeIntoLookup(kind: Kind, ghost list: seq<VM>, vm: VM)
      requires Holds(kind, list)
      modifies this
      ensures Holds(kind, list + [vm])
    {
      MergeUuid(kind, list, vm);
      MergeTags(kind, list, vm);
      MergeIps(kind, list, vm);
      forall t ensures Entry(t) == Table(kind, list + [vm], t) {
        TableSnoc(kind, list, vm, t);
      }
    }
  }

  function Elements<T>(s: seq<T>): set<T> {
    set x | x in s
  }

  /** Whether the entry of a target already saw vm after these tags and addresses were merged. */
  ghost predicate Merged(t: Target, vm: VM, tags: set<string>, ips: set<Addr>) {
    match t
    case OnIp(ip) => ip in ips
    case OnTag(TagKey(key)) => key in tags
    case OnTag(TagPair(key, value)) => key in tags && key in vm.tags && vm.tags[key] == value
    case OnVm(uuid) => uuid == vm.uuid
    case OnWildcard(w) => w == VmAll
  }

  /** createVMlookup, and createLookup over remote VMs: the table indexes the list exactly when no uuid
   *  is listed twice. */
  method CreateLookup(kind: Kind, list: seq<VM>) returns (store: VMStore)
    ensures fresh(store) && store.Holds(kind, list)
    ensures store.Indexes(list) <==> DistinctVMs(list)
    ensures kind == Remote ==> store.Reads(Tabled(list))
  {
    store := new VMStore();
    for i := 0 to |list|
      invariant fresh(store) && store.Holds(kind, list[..i])
    {
      store.MergeIntoLookup(kind, list[..i], list[i]);
      assert list[..i + 1] == list[..i] + [list[i]];
    }
    assert list[..|list|] == list;
    HeldIsIndex(kind, list, store);
  }

  lemma HeldIsIndex(kind: Kind, list: seq<VM>, store: VMStore)
    requires store.Holds(kind, list)
    ensures store.Indexes(list) <==> DistinctVMs(list)
  {
    ScanAll(list);
    TableIsScan(kind, list);
    hide Table, Scan, DistinctVMs;
    var all := OnWildcard(VmAll);
    assert store.Entry(all) == store.all && store.Entry(all) == Table(kind, list, all);
    if DistinctVMs(list) {
      assert Table(kind, list, all) == Scan(list, all);
      forall t ensures store.Entry(t) == Scan(list, t) {
        assert store.Entry(t) == Table(kind, list, t) && Table(kind, list, t) == Scan(list, t);
      }
    }
  }
}
