/** Paths as lists of components: appending one path to another, and the directories that PATH names. */
module SearchPath {
  import opened Strlist
  import EnvList

  // ---- splitting and joining ----

  /** The fields of a string between separators; there is always one more than there are separators. */
  function Fields(s: string, sep: char): (f: seq<string>)
    ensures |f| > 0
  {
    if s == "" then [""] else
    var f, c := Fields(s[..|s| - 1], sep), s[|s| - 1];
    if c == sep then f + [""] else f[|f| - 1 := f[|f| - 1] + [c]]
  }

  function NonEmpty(f: seq<string>): seq<string> {
    if f == [] then [] else
    var rest, last := NonEmpty(f[..|f| - 1]), f[|f| - 1];
    if last == "" then rest else rest + [last]
  }

  /** The components of a path: its fields between slashes that are not empty. */
  function Components(s: string): seq<string> {
    NonEmpty(Fields(s, '/'))
  }

  function Join(cs: seq<string>): string {
    if cs == [] then ""
    else if |cs| == 1 then cs[0]
    else Join(cs[..|cs| - 1]) + ("/" + cs[|cs| - 1])
  }

  predicate EndsInSlash(s: string) {
    s != "" && s[|s| - 1] == '/'
  }

  predicate NoDoubleSlash(s: string) {
    forall i :: 0 <= i < |s| - 1 ==> !(s[i] == '/' && s[i + 1] == '/')
  }

  /** Whether the last field is empty */
  predicate FieldIsOpen(s: string) {
    s == "" || EndsInSlash(s)
  }

  function LastField(s: string, sep: char): string {
    Fields(s, sep)[|Fields(s, sep)| - 1]
  }

  lemma FieldsSnoc(s: string, c: char, sep: char)
    ensures var f := Fields(s, sep);
            Fields(s + [c], sep) == if c == sep then f + [""] else f[|f| - 1 := f[|f| - 1] + [c]]
  {
    assert (s + [c])[..|s|] == s;
  }

  lemma OpenField(s: string)
    ensures FieldIsOpen(s) <==> LastField(s, '/') == ""
  {
    if s != "" {
      FieldsSnoc(s[..|s| - 1], s[|s| - 1], '/');
      assert s[..|s| - 1] + [s[|s| - 1]] == s;
    }
  }

  /** One more character of a path: a slash, the start of a component, or more of the last one. */
  lemma ComponentsSnoc(s: string, c: char)
    ensures var cs := Components(s);
            && (c == '/' ==> Components(s + [c]) == cs)
            && (c != '/' && FieldIsOpen(s) ==> Components(s + [c]) == cs + [[c]])
            && (c != '/' && !FieldIsOpen(s) ==> cs != [] && Components(s + [c]) == cs[|cs| - 1 := cs[|cs| - 1] + [c]])
  {
    OpenField(s);
    FieldsSnoc(s, c, '/');
    var f := Fields(s, '/');
    var g := Fields(s + [c], '/');
    if c == '/' {
      assert g[..|g| - 1] == f;
    } else {
      assert g[..|g| - 1] == f[..|f| - 1];
      assert f[|f| - 1] == "" ==> "" + [c] == [c];
    }
  }

  lemma JoinSnoc(cs: seq<string>, d: string)
    ensures Join(cs + [d]) == if cs == [] then d else Join(cs) + ("/" + d)
  {
    assert (cs + [d])[..|cs|] == cs;
  }

  lemma JoinExtend(cs: seq<string>, c: char)
    requires cs != []
    ensures Join(cs[|cs| - 1 := cs[|cs| - 1] + [c]]) == Join(cs) + [c]
  {
    var init, last := cs[..|cs| - 1], cs[|cs| - 1];
    var longer := cs[|cs| - 1 := last + [c]];
    assert longer[..|longer| - 1] == init;
    assert Join(init) + ("/" + (last + [c])) == (Join(init) + ("/" + last)) + [c];
  }

  lemma NextCharacter(s: string, i: nat)
    requires i < |s|
    ensures s[..i + 1] == s[..i] + [s[i]]
    ensures FieldIsOpen(s[..i + 1]) <==> s[i] == '/'
    ensures s[i] == '/' ==> Components(s[..i + 1]) == Components(s[..i])
    ensures s[i] != '/' ==> Components(s[..i + 1]) != []
  {
    assert s[..i + 1] == s[..i] + [s[i]];
    ComponentsSnoc(s[..i], s[i]);
  }

  /** What a character that is no slash adds to the joined components */
  lemma NextJoin(s: string, i: nat, base: string)
    requires i < |s| && s[i] != '/'
    ensures var cs := Components(s[..i]);
            base + Join(Components(s[..i + 1]))
            == (if cs != [] && FieldIsOpen(s[..i]) then base + Join(cs) + "/" else base + Join(cs)) + [s[i]]
  {
    var cs, c := Components(s[..i]), s[i];
    assert s[..i + 1] == s[..i] + [c];
    ComponentsSnoc(s[..i], c);
    if FieldIsOpen(s[..i]) {
      JoinSnoc(cs, [c]);
      assert base + (Join(cs) + ("/" + [c])) == base + Join(cs) + "/" + [c];
    } else {
      JoinExtend(cs, c);
      assert base + (Join(cs) + [c]) == base + Join(cs) + [c];
    }
  }

  lemma EmptyParts()
    ensures Components("") == [] && Join([]) == ""
  {
  }

  // ---- strpath_append ----

  /** custr_t, as far as paths use it */
  class Custr {
    var text: string

    constructor ()
      ensures text == ""
    {
      text := "";
    }

    /** custr_appendc */
    method AppendC(c: char)
      modifies this
      ensures text == old(text) + [c]
    {
      text := text + [c];
    }

    /** custr_reset */
    method Reset()
      modifies this
      ensures text == ""
    {
      text := "";
    }
  }

  /** What the input's components are put after */
  function Base(path: string, inp: string): string {
    if path != "" then if EndsInSlash(path) then path else path + "/"
    else if inp != "" && inp[0] == '/' then "/"
    else ""
  }

  /** What strpath_append leaves: the input's components follow the path, one slash apart and with none
   *  at the end */
  function Appended(path: string, inp: string): string {
    Base(path, inp) + Join(Components(inp))
  }

  /** strpath_append */
  method StrpathAppend(path: Custr, inp: string)
    modifies path
    ensures path.text == Appended(old(path.text), inp)
  {
    hide Components, Join;
    EmptyParts();
    if |path.text| > 0 {
      if path.text[|path.text| - 1] != '/' {
        path.AppendC('/');
      }
    } else if inp != "" && inp[0] == '/' {
      path.AppendC('/');
    }
    ghost var base := path.text;
    assert base == Base(old(path.text), inp);
    var i := 0;
    while true
      invariant i <= |inp| && Components(inp[..i]) == [] && FieldIsOpen(inp[..i]) && path.text == base
      decreases |inp| - i
    {
      if i == |inp| {
        assert inp[..i] == inp;
        return;
      } else if inp[i] != '/' {
        break;
      }
      NextCharacter(inp, i);
      i := i + 1;
    }
    var slashCount := 0;
    while true
      invariant i <= |inp| && path.text == base + Join(Components(inp[..i]))
      invariant slashCount >= 0 && (slashCount > 0 <==> FieldIsOpen(inp[..i]) && Components(inp[..i]) != [])
      invariant Components(inp[..i]) != [] || (i < |inp| && inp[i] != '/')
      decreases |inp| - i
    {
      if i == |inp| {
        assert inp[..i] == inp;
        return;
      }
      var c := inp[i];
      NextCharacter(inp, i);
      if c == '/' {
        slashCount := slashCount + 1;
      } else {
        NextJoin(inp, i, base);
        if slashCount > 0 {
          path.AppendC('/');
        }
        slashCount := 0;
        path.AppendC(c);
      }
      i := i + 1;
    }
  }

  // ---- appending is concatenation of components ----

  predicate IsComponent(c: string) {
    c != "" && '/' !in c
  }

  lemma {:induction false} ComponentsAreComponents(s: string)
    ensures forall i :: 0 <= i < |Components(s)| ==> IsComponent(Components(s)[i])
  {
    if s != "" {
      ComponentsAreComponents(s[..|s| - 1]);
      ComponentsSnoc(s[..|s| - 1], s[|s| - 1]);
      assert s[..|s| - 1] + [s[|s| - 1]] == s;
    }
  }

  /** Behind a path that is empty or ends in a slash, components simply follow. */
  lemma {:induction false} ComponentsConcat(p: string, q: string)
    requires FieldIsOpen(p)
    ensures Components(p + q) == Components(p) + Components(q)
    ensures FieldIsOpen(p + q) <==> FieldIsOpen(q)
  {
    EmptyParts();
    hide Components;
    if q == "" {
      assert p + q == p;
    } else {
      var r, c := q[..|q| - 1], q[|q| - 1];
      ComponentsConcat(p, r);
      assert q == r + [c] && p + q == (p + r) + [c];
      ComponentsSnoc(r, c);
      ComponentsSnoc(p + r, c);
    }
  }

  lemma {:induction false} OneComponent(c: string)
    requires '/' !in c
    ensures Components(c) == if c == "" then [] else [c]
    ensures FieldIsOpen(c) <==> c == ""
  {
    if c != "" {
      var d, x := c[..|c| - 1], c[|c| - 1];
      OneComponent(d);
      assert c == d + [x];
      ComponentsSnoc(d, x);
    }
  }

  lemma {:induction false} JoinedComponents(cs: seq<string>)
    requires forall i :: 0 <= i < |cs| ==> IsComponent(cs[i])
    ensures Components(Join(cs)) == cs
    ensures Join(cs) == "" <==> cs == []
  {
    hide Components, Join;
    EmptyParts();
    if cs != [] {
      var init, last := cs[..|cs| - 1], cs[|cs| - 1];
      assert cs == init + [last];
      OneComponent(last);
      JoinSnoc(init, last);
      if init != [] {
        JoinedComponents(init);
        var front := Join(init) + "/";
        ComponentsSnoc(Join(init), '/');
        ComponentsConcat(front, last);
        assert Join(cs) == front + last;
      }
    }
  }

  lemma SlashAlone()
    ensures Components("/") == []
  {
    ComponentsSnoc("", '/');
    assert "" + ['/'] == "/";
  }

  lemma BaseKeepsComponents(path: string, inp: string)
    ensures Components(Base(path, inp)) == Components(path) && FieldIsOpen(Base(path, inp))
  {
    SlashAlone();
    if path != "" && !EndsInSlash(path) {
      ComponentsSnoc(path, '/');
    }
  }

  /** strpath_append concatenates component lists. */
  lemma AppendConcatenates(path: string, inp: string)
    ensures Components(Appended(path, inp)) == Components(path) + Components(inp)
  {
    BaseKeepsComponents(path, inp);
    ComponentsAreComponents(inp);
    JoinedComponents(Components(inp));
    ComponentsConcat(Base(path, inp), Join(Components(inp)));
  }

  lemma PlainText(c: string)
    requires IsComponent(c)
    ensures NoDoubleSlash(c) && !EndsInSlash(c) && c[0] != '/'
  {
    assert c[0] in c;
    assert c[|c| - 1] in c;
    forall i | 0 <= i < |c| - 1 ensures !(c[i] == '/' && c[i + 1] == '/') {
      assert c[i] in c;
    }
  }

  lemma NoDoubleConcat(a: string, b: string)
    requires NoDoubleSlash(a) && NoDoubleSlash(b) && (EndsInSlash(a) ==> b == "" || b[0] != '/')
    ensures NoDoubleSlash(a + b)
  {
    forall i | 0 <= i < |a + b| - 1 ensures !((a + b)[i] == '/' && (a + b)[i + 1] == '/') {
      if i >= |a| {
        assert (a + b)[i] == b[i - |a|] && (a + b)[i + 1] == b[i + 1 - |a|];
      }
    }
  }

  lemma {:induction false} JoinIsClean(cs: seq<string>)
    requires forall i :: 0 <= i < |cs| ==> IsComponent(cs[i])
    ensures NoDoubleSlash(Join(cs)) && !EndsInSlash(Join(cs)) && (cs != [] ==> Join(cs) != "" && Join(cs)[0] != '/')
  {
    if cs != [] {
      var init, last := cs[..|cs| - 1], cs[|cs| - 1];
      PlainText(last);
      if init != [] {
        JoinIsClean(init);
        NoDoubleConcat("/", last);
        NoDoubleConcat(Join(init), "/" + last);
      }
    }
  }

  /** Appending never writes two slashes in a row. */
  lemma AppendKeepsClean(path: string, inp: string)
    requires NoDoubleSlash(path)
    ensures NoDoubleSlash(Appended(path, inp))
  {
    ComponentsAreComponents(inp);
    JoinIsClean(Components(inp));
    if path != "" && !EndsInSlash(path) {
      NoDoubleConcat(path, "/");
    }
    NoDoubleConcat(Base(path, inp), Join(Components(inp)));
  }

  // ---- the search path ----

  /** The components of the directory that a field of PATH names */
  function DirComponents(field: string, workingDirectory: string): seq<string> {
    if field != "" && field[0] == '/' then Components(field)
    else Components(workingDirectory) + Components(field)
  }

  /** The directory that a field names: anchored at the root, one slash between components. */
  function Dir(field: string, workingDirectory: string): string {
    "/" + Join(DirComponents(field, workingDirectory))
  }

  function Dirs(fields: seq<string>, workingDirectory: string): seq<string> {
    seq(|fields|, i requires 0 <= i < |fields| => Dir(fields[i], workingDirectory))
  }

  /** Every directory is absolute and free of double slashes, and has exactly these components. */
  lemma DirIsCanonical(field: string, workingDirectory: string)
    ensures var d := Dir(field, workingDirectory);
            && d[0] == '/' && NoDoubleSlash(d) && (EndsInSlash(d) ==> d == "/")
            && Components(d) == DirComponents(field, workingDirectory)
  {
    var cs := DirComponents(field, workingDirectory);
    ComponentsAreComponents(field);
    ComponentsAreComponents(workingDirectory);
    JoinIsClean(cs);
    NoDoubleConcat("/", Join(cs));
    JoinedComponents(cs);
    SlashAlone();
    ComponentsConcat("/", Join(cs));
  }

  /** Text followed by a slash and the joined components, if there are any */
  function Follow(front: string, ds: seq<string>): string {
    if ds == [] then front else front + ("/" + Join(ds))
  }

  lemma FollowSnoc(front: string, ds: seq<string>, d: string)
    ensures Follow(front, ds + [d]) == Follow(front, ds) + ("/" + d)
  {
    JoinSnoc(ds, d);
    hide Join;
    assert (front + ("/" + Join(ds))) + ("/" + d) == front + ("/" + (Join(ds) + ("/" + d)));
  }

  lemma {:induction false} JoinTwo(cs: seq<string>, ds: seq<string>)
    requires cs != []
    ensures Join(cs + ds) == Follow(Join(cs), ds)
  {
    hide Join, Follow;
    if ds == [] {
      FollowNothing(Join(cs));
      assert cs + ds == cs;
    } else {
      var init, last := ds[..|ds| - 1], ds[|ds| - 1];
      JoinTwo(cs, init);
      JoinSnoc(cs + init, last);
      FollowSnoc(Join(cs), init, last);
      assert cs + ds == (cs + init) + [last] && ds == init + [last];
    }
  }

  lemma FollowNothing(front: string)
    ensures Follow(front, []) == front
  {
  }

  lemma BaseOfDir(j: string, inp: string)
    requires !EndsInSlash(j)
    ensures Base("/" + j, inp) == if j == "" then "/" else "/" + j + "/"
  {
    assert j != "" ==> ("/" + j)[|"/" + j| - 1] == j[|j| - 1];
    assert j == "" ==> "/" + j == "/";
  }

  lemma Regroup(a: string, b: string, c: string, d: string)
    ensures ((a + b) + c) + d == a + (b + (c + d))
  {
  }

  /** Appending to a canonical absolute path */
  lemma AppendToDir(cs: seq<string>, inp: string)
    requires forall i :: 0 <= i < |cs| ==> IsComponent(cs[i])
    requires Components(inp) != [] || cs == []
    ensures Appended("/" + Join(cs), inp) == "/" + Join(cs + Components(inp))
  {
    var ds := Components(inp);
    JoinIsClean(cs);
    EmptyParts();
    BaseOfDir(Join(cs), inp);
    hide Components, Join, Base;
    if cs == [] {
      assert cs + ds == ds;
    } else {
      JoinTwo(cs, ds);
      Regroup("/", Join(cs), "/", Join(ds));
    }
  }

  /** The directory of one field, built in a buffer */
  method BuildDir(searchdir: Custr, field: string, workingDirectory: string)
    modifies searchdir
    ensures searchdir.text == Dir(field, workingDirectory)
  {
    searchdir.Reset();
    SlashAlone();
    StrpathAppend(searchdir, "/");
    assert searchdir.text == "/" + Join([]);
    ghost var cs := [];
    if |field| < 1 || field[0] != '/' {
      AppendToDir([], workingDirectory);
      ComponentsAreComponents(workingDirectory);
      StrpathAppend(searchdir, workingDirectory);
      cs := [] + Components(workingDirectory);
      assert cs == Components(workingDirectory);
    }
    if |field| > 0 {
      StartsComponent(field);
      AppendToDir(cs, field);
      StrpathAppend(searchdir, field);
    } else {
      assert cs + [] == cs;
    }
    assert [] + Components(field) == Components(field);
  }

  /** A string that starts with something other than a slash has a component. */
  lemma {:induction false} StartsComponent(s: string)
    ensures s != "" && s[0] != '/' ==> Components(s) != []
  {
    if s != "" {
      StartsComponent(s[..|s| - 1]);
      ComponentsSnoc(s[..|s| - 1], s[|s| - 1]);
      assert s[..|s| - 1] + [s[|s| - 1]] == s;
    }
  }

  /** PATH as the environment has it, or the default */
  function PathValue(xs: seq<string>): string {
    var k := EnvList.Find(xs, "PATH", 0);
    if k < |xs| && EnvList.SplitEnvEntry(xs[k]).Entry? then EnvList.SplitEnvEntry(xs[k]).value else EnvList.DEFAULT_PATH
  }

  method FindPath(env: StringList, ghost xs: seq<string>) returns (r: string)
    requires env.Holds(xs)
    ensures r == PathValue(xs)
  {
    var idx := 0;
    EnvList.FindFinds(xs, "PATH", 0);
    while env.Get(idx) != Null
      invariant idx <= |xs| && EnvList.Find(xs, "PATH", 0) == EnvList.Find(xs, "PATH", idx)
      decreases |xs| - idx
    {
      var entry := EnvList.SplitEnvEntry(env.Get(idx).text);
      if entry.Entry? && entry.name == "PATH" {
        return entry.value;
      }
      idx := idx + 1;
    }
    return EnvList.DEFAULT_PATH;
  }

  /** getPathList: one directory for every colon-separated field of PATH, in order. */
  method GetPathList(env: StringList, path: StringList, workingDirectory: string, ghost xs: seq<string>)
    requires env.Holds(xs) && path.Holds([]) && env != path && env.strings != path.strings
    modifies path, path.strings
    ensures path.Holds(Dirs(Fields(PathValue(xs), ':'), workingDirectory))
  {
    hide Fields, PathValue, Dir;
    NoFields();
    var cu := new Custr();
    var searchdir := new Custr();
    var r := FindPath(env, xs);
    var i := 0;
    ghost var done: seq<string> := [];
    while i <= |r|
      invariant i <= |r| + 1
      invariant path.Holds(Dirs(done, workingDirectory)) && (path.strings == old(path.strings) || fresh(path.strings))
      invariant if i <= |r| then Fields(r[..i], ':') == done + [cu.text] else Fields(r, ':') == done
    {
      var end := i == |r|;
      if !end && r[i] != ':' {
        NextField(r, i, done, cu.text);
        cu.AppendC(r[i]);
        i := i + 1;
        continue;
      }
      BuildDir(searchdir, cu.text, workingDirectory);
      DirsSnoc(done, cu.text, workingDirectory);
      path.SetTail(searchdir.text, Dirs(done, workingDirectory));
      if end {
        assert r[..i] == r;
      } else {
        NextField(r, i, done, cu.text);
      }
      done := done + [cu.text];
      cu.Reset();
      i := i + 1;
    }
  }

  lemma NoFields()
    ensures Fields("", ':') == [""]
  {
  }

  lemma DirsSnoc(fields: seq<string>, field: string, workingDirectory: string)
    ensures Dirs(fields + [field], workingDirectory) == Dirs(fields, workingDirectory) + [Dir(field, workingDirectory)]
  {
  }

  lemma NextField(r: string, i: nat, done: seq<string>, last: string)
    requires i < |r| && Fields(r[..i], ':') == done + [last]
    ensures Fields(r[..i + 1], ':') == if r[i] == ':' then (done + [last]) + [""] else done + [last + [r[i]]]
  {
    assert r[..i + 1] == r[..i] + [r[i]];
    FieldsSnoc(r[..i], r[i], ':');
    var f := done + [last];
    assert f[|f| - 1 := last + [r[i]]] == done + [last + [r[i]]];
  }
}
