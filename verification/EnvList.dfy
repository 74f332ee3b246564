/** The command's environment: a list of name=value strings that behaves as a map. */
module EnvList {
  import opened Json
  import opened Options
  import opened Strlist

  const DEFAULT_TERM := "xterm"
  const DEFAULT_PATH := "/usr/local/sbin:/usr/local/bin:/usr/sbin:/usr/bin:/sbin:/bin"

  datatype Split = Ignore | Entry(name: string, value: string)

  /** The position of the first equals sign, or the length of the string. */
  function FirstEquals(s: string): (n: nat)
    ensures n <= |s|
  {
    if s == "" || s[0] == '=' then 0 else 1 + FirstEquals(s[1..])
  }

  /** splitEnvEntry */
  function SplitEnvEntry(input: string): Split {
    var eq := FirstEquals(input);
    if eq == |input| || eq == 0 then Ignore else Entry(input[..eq], input[eq + 1..])
  }

  /** A name that an entry can carry. */
  predicate IsName(name: string) {
    name != "" && '=' !in name
  }

  lemma {:induction false} FirstEqualsAfter(name: string, value: string)
    ensures '=' !in name ==> FirstEquals(name + "=" + value) == |name|
    ensures FirstEquals(name + "=" + value) < |name + "=" + value|
    ensures FirstEquals(name + "=" + value) == |name| ==> '=' !in name
  {
    var s := name + "=" + value;
    if name != "" {
      assert s[1..] == name[1..] + "=" + value && name == [name[0]] + name[1..];
      FirstEqualsAfter(name[1..], value);
    }
  }

  /** An entry splits back into its name and value exactly when the name can be carried. */
  lemma EntryRoundTrip(name: string, value: string)
    ensures SplitEnvEntry(name + "=" + value) == Entry(name, value) <==> IsName(name)
  {
    FirstEqualsAfter(name, value);
    var s := name + "=" + value;
    if IsName(name) {
      assert s[..|name|] == name && s[|name| + 1..] == value;
    }
  }

  // ---- the list as a map ----

  /** Every string is an entry, and no name occurs twice. */
  predicate IsEnv(xs: seq<string>) {
    && (forall i :: 0 <= i < |xs| ==> SplitEnvEntry(xs[i]).Entry?)
    && (forall i, j :: 0 <= i < j < |xs| ==> SplitEnvEntry(xs[i]).name != SplitEnvEntry(xs[j]).name)
  }

  function AsMap(xs: seq<string>): map<string, string>
    requires IsEnv(xs)
  {
    map i | 0 <= i < |xs| :: SplitEnvEntry(xs[i]).name := SplitEnvEntry(xs[i]).value
  }

  /** Where a name stands in the list, or the length of the list. */
  function Find(xs: seq<string>, name: string, i: nat): (k: nat)
    requires i <= |xs|
    ensures i <= k <= |xs|
    decreases |xs| - i
  {
    if i == |xs| || (SplitEnvEntry(xs[i]).Entry? && SplitEnvEntry(xs[i]).name == name) then i else Find(xs, name, i + 1)
  }

  lemma {:induction false} FindFinds(xs: seq<string>, name: string, i: nat)
    requires i <= |xs|
    ensures var k := Find(xs, name, i);
            && (k < |xs| ==> SplitEnvEntry(xs[k]).Entry? && SplitEnvEntry(xs[k]).name == name)
            && (forall j :: i <= j < k ==> SplitEnvEntry(xs[j]).Ignore? || SplitEnvEntry(xs[j]).name != name)
    decreases |xs| - i
  {
    if !(i == |xs| || (SplitEnvEntry(xs[i]).Entry? && SplitEnvEntry(xs[i]).name == name)) {
      FindFinds(xs, name, i + 1);
    }
  }

  function Inserted(xs: seq<string>, name: string, value: string): seq<string> {
    var k := Find(xs, name, 0);
    if k < |xs| then xs[k := name + "=" + value] else xs + [name + "=" + value]
  }

  /** ys is xs with its string at k set to the only entry of that name. */
  predicate SetAt(xs: seq<string>, ys: seq<string>, k: nat, name: string, value: string) {
    && k < |ys| && |ys| == (if k < |xs| then |xs| else |xs| + 1)
    && SplitEnvEntry(ys[k]) == Entry(name, value)
    && (forall i :: 0 <= i < |xs| && i != k ==>
          ys[i] == xs[i] && SplitEnvEntry(xs[i]).Entry? && SplitEnvEntry(xs[i]).name != name)
  }

  lemma SetIsEnv(xs: seq<string>, ys: seq<string>, k: nat, name: string, value: string)
    requires IsEnv(xs) && SetAt(xs, ys, k, name, value)
    ensures IsEnv(ys)
  {
    hide SplitEnvEntry;
    forall i | 0 <= i < |ys| ensures SplitEnvEntry(ys[i]).Entry? {
      assert i != k ==> ys[i] == xs[i];
    }
    forall i, j | 0 <= i < j < |ys| ensures SplitEnvEntry(ys[i]).name != SplitEnvEntry(ys[j]).name {
      assert i != k ==> ys[i] == xs[i];
      assert j != k ==> ys[j] == xs[j];
    }
  }

  /** What the map with the entry holds, the list holds */
  lemma SetHas(xs: seq<string>, ys: seq<string>, k: nat, name: string, value: string, n: string)
    requires IsEnv(xs) && IsEnv(ys) && SetAt(xs, ys, k, name, value)
    requires k < |xs| ==> SplitEnvEntry(xs[k]).name == name
    requires n in AsMap(xs)[name := value]
    ensures n in AsMap(ys) && AsMap(ys)[n] == AsMap(xs)[name := value][n]
  {
    hide SplitEnvEntry;
    if n != name {
      var i :| 0 <= i < |xs| && SplitEnvEntry(xs[i]).name == n;
      assert ys[i] == xs[i];
    } else {
      assert SplitEnvEntry(ys[k]).name == name;
    }
  }

  /** The list holds no more. */
  lemma SetHasOnly(xs: seq<string>, ys: seq<string>, k: nat, name: string, value: string, n: string)
    requires IsEnv(xs) && IsEnv(ys) && SetAt(xs, ys, k, name, value) && n in AsMap(ys)
    ensures n in AsMap(xs)[name := value]
  {
    hide SplitEnvEntry;
    var i :| 0 <= i < |ys| && SplitEnvEntry(ys[i]).name == n;
    assert i != k ==> ys[i] == xs[i];
  }

  lemma SetIsUpdate(xs: seq<string>, ys: seq<string>, k: nat, name: string, value: string)
    requires IsEnv(xs) && IsEnv(ys) && SetAt(xs, ys, k, name, value)
    requires k < |xs| ==> SplitEnvEntry(xs[k]).name == name
    ensures AsMap(ys) == AsMap(xs)[name := value]
  {
    hide AsMap, IsEnv, SetAt, SplitEnvEntry;
    var m := AsMap(xs)[name := value];
    forall n | n in m ensures n in AsMap(ys) && AsMap(ys)[n] == m[n] {
      SetHas(xs, ys, k, name, value, n);
    }
    forall n | n in AsMap(ys) ensures n in m {
      SetHasOnly(xs, ys, k, name, value, n);
    }
  }

  /** Inserting or replacing is the update of the map, and keeps the names unique. */
  lemma InsertedIsUpdate(xs: seq<string>, name: string, value: string)
    requires IsEnv(xs) && IsName(name)
    ensures IsEnv(Inserted(xs, name, value))
    ensures AsMap(Inserted(xs, name, value)) == AsMap(xs)[name := value]
  {
    FindFinds(xs, name, 0);
    EntryRoundTrip(name, value);
    hide SplitEnvEntry;
    var k, ys := Find(xs, name, 0), Inserted(xs, name, value);
    forall i | 0 <= i < |xs| && i != k
      ensures ys[i] == xs[i] && SplitEnvEntry(xs[i]).Entry? && SplitEnvEntry(xs[i]).name != name
    {
      assert k < i ==> SplitEnvEntry(xs[k]).name != SplitEnvEntry(xs[i]).name;
    }
    SetIsEnv(xs, ys, k, name, value);
    SetIsUpdate(xs, ys, k, name, value);
  }

  /** insertOrReplaceEnv */
  method InsertOrReplaceEnv(sl: StringList, name: string, value: string, ghost xs: seq<string>)
    requires sl.Holds(xs)
    modifies sl, sl.strings
    ensures sl.Holds(Inserted(xs, name, value)) && (sl.strings == old(sl.strings) || fresh(sl.strings))
  {
    var found, idx := false, 0;
    while sl.Get(idx) != Null
      invariant !found && idx <= |xs| && Find(xs, name, 0) == Find(xs, name, idx)
      invariant sl.Holds(xs)
      decreases |xs| - idx
    {
      var entry := SplitEnvEntry(sl.Get(idx).text);
      if entry == Ignore {
        idx := idx + 1;
        continue;
      }
      if entry.name == name {
        found := true;
      }
      if found {
        break;
      }
      idx := idx + 1;
    }
    var insval := name + "=" + value;
    if found {
      sl.Replace(idx, insval, xs);
    } else {
      sl.SetTail(insval, xs);
    }
  }

  // ---- building the environment ----

  /** The entries of an array applied to a map in order; what is no entry is skipped. */
  function Overlay(m: map<string, string>, entries: seq<string>): map<string, string> {
    if entries == [] then m else
    var rest := Overlay(m, entries[..|entries| - 1]);
    match SplitEnvEntry(entries[|entries| - 1])
    case Ignore => rest
    case Entry(name, value) => rest[name := value]
  }

  /** The position of the last entry with a name, or -1 */
  function LastNamed(entries: seq<string>, name: string): int {
    if entries == [] then -1 else
    var last := SplitEnvEntry(entries[|entries| - 1]);
    if last.Entry? && last.name == name then |entries| - 1 else LastNamed(entries[..|entries| - 1], name)
  }

  /** After an overlay a name has the value of its last entry, or the value it had before. */
  lemma {:induction false} LastEntryWins(m: map<string, string>, entries: seq<string>, name: string)
    ensures var k := LastNamed(entries, name);
            if k < 0 then
              && (name in Overlay(m, entries) <==> name in m)
              && (name in m ==> Overlay(m, entries)[name] == m[name])
            else
              && k < |entries| && SplitEnvEntry(entries[k]).Entry? && SplitEnvEntry(entries[k]).name == name
              && name in Overlay(m, entries) && Overlay(m, entries)[name] == SplitEnvEntry(entries[k]).value
  {
    if entries != [] {
      LastEntryWins(m, entries[..|entries| - 1], name);
    }
  }

  lemma SplitName(s: string)
    ensures SplitEnvEntry(s).Entry? ==> IsName(SplitEnvEntry(s).name)
  {
    NoEqualsBefore(s);
  }

  lemma {:induction false} NoEqualsBefore(s: string)
    ensures '=' !in s[..FirstEquals(s)]
  {
    if s != "" && s[0] != '=' {
      NoEqualsBefore(s[1..]);
      assert s[..FirstEquals(s)] == [s[0]] + s[1..][..FirstEquals(s[1..])];
    }
  }

  /** A list as an array of strings is read: it has a length, and a string under every index. */
  predicate IsStringArray(nvl: map<string, Nv>) {
    && "length" in nvl && nvl["length"].NvUint?
    && forall i :: 0 <= i < nvl["length"].count ==> HasString(nvl, i)
  }

  predicate HasString(nvl: map<string, Nv>, i: nat) {
    IndexKey(i) in nvl && nvl[IndexKey(i)].NvString?
  }

  function ArrayStrings(nvl: map<string, Nv>): seq<string>
    requires IsStringArray(nvl)
  {
    seq(nvl["length"].count, i requires 0 <= i < nvl["length"].count =>
      if HasString(nvl, i) then nvl[IndexKey(i)].text else "")
  }

  /** cbEachEnvEntry */
  method AddEntry(sl: StringList, val: string, ghost xs: seq<string>) returns (ghost ys: seq<string>)
    requires sl.Holds(xs) && IsEnv(xs)
    modifies sl, sl.strings
    ensures sl.Holds(ys) && IsEnv(ys) && (sl.strings == old(sl.strings) || fresh(sl.strings))
    ensures AsMap(ys) == Overlay(AsMap(xs), [val])
  {
    assert [val][..0] == [];
    ys := xs;
    match SplitEnvEntry(val)
    case Ignore =>
    case Entry(name, value) =>
      SplitName(val);
      InsertedIsUpdate(xs, name, value);
      InsertOrReplaceEnv(sl, name, value, xs);
      ys := Inserted(xs, name, value);
  }

  lemma OverlaySnoc(m: map<string, string>, entries: seq<string>, entry: string)
    ensures Overlay(m, entries + [entry]) == Overlay(Overlay(m, entries), [entry])
  {
    assert (entries + [entry])[..|entries|] == entries && [entry][..0] == [];
  }

  /** forEachStringInArray with cbEachEnvEntry; an array without a length or without one of its
   *  strings is fatal. */
  method AddEntries(sl: StringList, nvl: map<string, Nv>, ghost xs: seq<string>)
    returns (ok: bool, ghost ys: seq<string>)
    requires sl.Holds(xs) && IsEnv(xs)
    modifies sl, sl.strings
    ensures ok == IsStringArray(nvl)
    ensures sl.Holds(ys) && IsEnv(ys) && (sl.strings == old(sl.strings) || fresh(sl.strings))
    ensures ok ==> AsMap(ys) == Overlay(AsMap(xs), ArrayStrings(nvl))
  {
    ys := xs;
    if "length" !in nvl || !nvl["length"].NvUint? {
      return false, ys;
    }
    ghost var read: seq<string> := [];
    for i := 0 to nvl["length"].count
      invariant sl.Holds(ys) && IsEnv(ys) && (sl.strings == old(sl.strings) || fresh(sl.strings))
      invariant |read| == i && forall j :: 0 <= j < i ==> HasString(nvl, j) && read[j] == nvl[IndexKey(j)].text
      invariant AsMap(ys) == Overlay(AsMap(xs), read)
    {
      var idx := IndexKey(i);
      if idx !in nvl || !nvl[idx].NvString? {
        assert !HasString(nvl, i);
        return false, ys;
      }
      OverlaySnoc(AsMap(xs), read, nvl[idx].text);
      ys := AddEntry(sl, nvl[idx].text, ys);
      read := read + [nvl[idx].text];
    }
    assert read == ArrayStrings(nvl);
    return true, ys;
  }

  /** The entries every command starts with */
  function Defaults(home: string, hostname: Option<string>): map<string, string> {
    var m := map["TERM" := DEFAULT_TERM, "HOME" := home, "PATH" := DEFAULT_PATH];
    if hostname.Some? then m["HOSTNAME" := hostname.value] else m
  }

  method InsertName(sl: StringList, name: string, value: string, ghost xs: seq<string>) returns (ghost ys: seq<string>)
    requires sl.Holds(xs) && IsEnv(xs) && IsName(name)
    modifies sl, sl.strings
    ensures sl.Holds(ys) && IsEnv(ys) && (sl.strings == old(sl.strings) || fresh(sl.strings))
    ensures AsMap(ys) == AsMap(xs)[name := value]
  {
    InsertOrReplaceEnv(sl, name, value, xs);
    InsertedIsUpdate(xs, name, value);
    ys := Inserted(xs, name, value);
  }

  /** buildCmdEnv: docker:env overrides docker:linkEnv, which overrides the defaults. */
  method BuildCmdEnv(env: StringList, passwdHome: Option<string>, hostname: Option<string>,
                     linkEnv: map<string, Nv>, dockerEnv: map<string, Nv>)
    returns (ok: bool, ghost ys: seq<string>)
    requires env.Holds([])
    modifies env, env.strings
    ensures ok == (IsStringArray(linkEnv) && IsStringArray(dockerEnv))
    ensures ok ==> env.Holds(ys) && IsEnv(ys)
    ensures ok ==> AsMap(ys) == Overlay(Overlay(Defaults(if passwdHome.Some? then passwdHome.value else "/", hostname),
                                                ArrayStrings(linkEnv)), ArrayStrings(dockerEnv))
  {
    var home := if passwdHome.Some? then passwdHome.value else "/";
    ys := AddDefaults(env, home, hostname);
    ok, ys := AddEntries(env, linkEnv, ys);
    if !ok {
      return;
    }
    ok, ys := AddEntries(env, dockerEnv, ys);
  }

  method AddDefaults(env: StringList, home: string, hostname: Option<string>) returns (ghost ys: seq<string>)
    requires env.Holds([])
    modifies env, env.strings
    ensures env.Holds(ys) && IsEnv(ys) && (env.strings == old(env.strings) || fresh(env.strings))
    ensures AsMap(ys) == Defaults(home, hostname)
  {
    ys := [];
    ys := InsertName(env, "TERM", DEFAULT_TERM, ys);
    ys := InsertName(env, "HOME", home, ys);
    ys := InsertName(env, "PATH", DEFAULT_PATH, ys);
    if hostname.Some? {
      ys := InsertName(env, "HOSTNAME", hostname.value, ys);
    }
  }

  /** What a name holds once the environment is built. */
  function Effective(m: map<string, string>, linkEnv: seq<string>, dockerEnv: seq<string>,
                     name: string): Option<string> {
    var j, k := LastNamed(linkEnv, name), LastNamed(dockerEnv, name);
    if 0 <= k < |dockerEnv| && SplitEnvEntry(dockerEnv[k]).Entry? then Some(SplitEnvEntry(dockerEnv[k]).value)
    else if 0 <= j < |linkEnv| && SplitEnvEntry(linkEnv[j]).Entry? then Some(SplitEnvEntry(linkEnv[j]).value)
    else if name in m then Some(m[name])
    else None
  }

  lemma BuiltEnvironment(m: map<string, string>, linkEnv: seq<string>, dockerEnv: seq<string>, name: string)
    ensures var built := Overlay(Overlay(m, linkEnv), dockerEnv);
            Effective(m, linkEnv, dockerEnv, name) == if name in built then Some(built[name]) else None
  {
    LastEntryWins(Overlay(m, linkEnv), dockerEnv, name);
    LastEntryWins(m, linkEnv, name);
  }
}
