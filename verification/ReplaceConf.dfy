/** Replacing an ipfilter configuration file so that a crash at any point leaves a complete file in
 *  place: a file system of names, inodes and contents, and runs that are cut off after any step.
 */
module ReplaceConf {
  import opened Options

  datatype Errno = Ok | ENOENT | EEXIST

  function OldName(file: string): string {
    file + ".old"
  }

  function TempName(file: string, ver: string): string {
    file + "." + ver
  }

  predicate IsConf(file: string) {
    |file| > 5 && file[|file| - 5..] == ".conf"
  }

  /** A version is a time and a process id: it ends in a digit. */
  predicate IsVersion(ver: string) {
    ver != "" && '0' <= ver[|ver| - 1] <= '9'
  }

  /** The three names of a replacement differ, and a temporary file is neither a configuration nor
   *  an old one. */
  lemma NamesDiffer(file: string, ver: string, other: string)
    requires IsConf(file) && IsVersion(ver)
    ensures file != OldName(file) && !IsConf(OldName(file))
    ensures var t := TempName(file, ver); !IsConf(t) && t != OldName(other) && t != file
  {
    var t := TempName(file, ver);
    assert t[|t| - 1] == ver[|ver| - 1];
    assert OldName(other)[|OldName(other)| - 1] == 'd';
    OldIsNoConf(file);
    if IsConf(t) {
      ConfEnds(t);
    }
  }

  lemma ConfEnds(file: string)
    requires IsConf(file)
    ensures file[|file| - 1] == 'f'
  {
    assert file[|file| - 5..][4] == 'f';
  }

  lemma OldIsNoConf(file: string)
    ensures !IsConf(OldName(file))
  {
    var o := OldName(file);
    assert o[|o| - 1] == 'd';
    if IsConf(o) {
      ConfEnds(o);
    }
  }

  /** The two names of a configuration and its old copy may be links to one file. */
  predicate MayShare(a: string, b: string) {
    (IsConf(a) && b == OldName(a)) || (IsConf(b) && a == OldName(b))
  }

  class FileSystem {
    var dir: map<string, nat>
    var data: map<nat, string>
    var fresh_: nat

    /** Every name has contents, and names share an inode only if they may. */
    ghost predicate Valid()
      reads this
    {
      && (forall n :: n in dir ==> dir[n] in data)
      && (forall i :: i in data ==> i < fresh_)
      && (forall a, b :: a in dir && b in dir && a != b && dir[a] == dir[b] ==> MayShare(a, b))
    }

    /** What a name holds, if it exists */
    ghost function Read(name: string): Option<string>
      reads this
      requires Valid()
    {
      if name in dir then Some(data[dir[name]]) else None
    }

    /** A configuration without an old copy shares its inode with nothing. */
    lemma AloneWithoutOld(file: string)
      requires Valid() && IsConf(file) && file in dir && OldName(file) !in dir
      ensures forall a :: a in dir && a != file ==> dir[a] != dir[file]
    {
      forall a | a in dir && a != file ensures dir[a] != dir[file] {
        OldIsNoConf(a);
      }
    }

    lemma TempIsPrivate(file: string, ver: string)
      requires Valid() && IsConf(file) && IsVersion(ver)
      ensures var t := TempName(file, ver); t in dir ==> forall b :: b in dir && b != t ==> dir[b] != dir[t]
    {
      var t := TempName(file, ver);
      forall b | t in dir && b in dir && b != t ensures dir[b] != dir[t] {
        NamesDiffer(file, ver, b);
      }
    }

    /** open with O_CREAT and O_TRUNC */
    method Create(name: string)
      requires Valid() && forall b :: b in dir && name in dir && b != name ==> dir[b] != dir[name]
      modifies this
      ensures Valid() && Read(name) == Some("")
      ensures forall n :: n != name ==> Read(n) == old(Read(n))
      ensures forall b :: b in dir && b != name ==> dir[b] != dir[name]
    {
      if name !in dir {
        dir := dir[name := fresh_];
        fresh_ := fresh_ + 1;
      }
      data := data[dir[name] := ""];
    }

    /** More text at the end of an open file */
    method Write(name: string, text: string)
      requires Valid() && name in dir && forall b :: b in dir && b != name ==> dir[b] != dir[name]
      modifies this`data
      ensures Valid() && Read(name) == Some(old(Read(name)).value + text)
      ensures forall n :: n != name ==> Read(n) == old(Read(n))
    {
      data := data[dir[name] := data[dir[name]] + text];
    }

    method Unlink(name: string) returns (err: Errno)
      requires Valid()
      modifies this`dir
      ensures Valid() && Read(name) == None
      ensures err == if name in old(dir) then Ok else ENOENT
      ensures forall n :: n != name ==> Read(n) == old(Read(n)) && (n in dir ==> n in old(dir) && dir[n] == old(dir[n]))
    {
      if name !in dir {
        return ENOENT;
      }
      dir := dir - {name};
      return Ok;
    }

    method Link(existing: string, name: string) returns (err: Errno)
      requires Valid() && IsConf(existing) && name == OldName(existing)
      modifies this`dir
      ensures Valid()
      ensures err == if existing !in old(dir) then ENOENT else if name in old(dir) then EEXIST else Ok
      ensures Read(name) == if err == Ok then old(Read(existing)) else old(Read(name))
      ensures forall n :: n != name ==> Read(n) == old(Read(n)) && (n in dir ==> n in old(dir) && dir[n] == old(dir[n]))
    {
      if existing !in dir {
        return ENOENT;
      }
      if name in dir {
        return EEXIST;
      }
      AloneWithoutOld(existing);
      dir := dir[name := dir[existing]];
      return Ok;
    }

    /** rename: nothing happens to two names of one file. */
    method Rename(from: string, to: string) returns (err: Errno)
      requires Valid() && (from in dir ==> forall b :: b in dir && b != from ==> dir[b] != dir[from])
      requires from != to
      modifies this`dir
      ensures Valid() && err == if from in old(dir) then Ok else ENOENT
      ensures err == Ok ==> Read(to) == old(Read(from)) && Read(from) == None
      ensures forall n :: n != to && n != from ==> Read(n) == old(Read(n))
      ensures err != Ok ==> dir == old(dir)
    {
      if from !in dir {
        return ENOENT;
      }
      if to in dir && dir[to] == dir[from] {
        return Ok;
      }
      dir := dir[to := dir[from]] - {from};
      return Ok;
    }

    /** replaceIPFconf, cut off after the given number of steps: creating the temporary file, each
     *  character written to it, unlinking the old file, linking it anew, and renaming. */
    method ReplaceIPFconf(file: string, text: string, ver: string, steps: nat) returns (done: bool)
      requires Valid() && IsConf(file) && IsVersion(ver)
      modifies this
      ensures Valid() && done == Completes(text, steps)
      ensures Read(file) == if done then Some(text) else old(Read(file))
      ensures done ==> Read(OldName(file)) == old(Read(file)) && Read(TempName(file, ver)) == None
      ensures !done ==> Read(OldName(file)) in {old(Read(OldName(file))), None, old(Read(file))}
      ensures forall n :: n != file && n != OldName(file) && n != TempName(file, ver) ==> Read(n) == old(Read(n))
    {
      var tempFile, oldFile := TempName(file, ver), OldName(file);
      NamesDiffer(file, ver, file);
      if steps == 0 {
        return false;
      }
      TempIsPrivate(file, ver);
      Create(tempFile);
      for i := 0 to |text|
        invariant steps > i && Valid()
        invariant Read(tempFile) == Some(text[..i])
        invariant forall n :: n != tempFile ==> Read(n) == old(Read(n))
        invariant forall b :: b in dir && b != tempFile ==> dir[b] != dir[tempFile]
      {
        if steps == i + 1 {
          return false;
        }
        assert text[..i + 1] == text[..i] + [text[i]];
        Write(tempFile, [text[i]]);
      }
      assert text[..|text|] == text;
      done := SwapIn(file, text, tempFile, steps - |text| - 1);
    }

    /** What follows once the temporary file is complete */
    method SwapIn(file: string, text: string, tempFile: string, steps: nat) returns (done: bool)
      requires Valid() && IsConf(file) && tempFile != file && tempFile != OldName(file) && !IsConf(tempFile)
      requires Read(tempFile) == Some(text)
      requires forall b :: b in dir && b != tempFile ==> dir[b] != dir[tempFile]
      modifies this`dir
      ensures Valid() && done == (steps >= 3)
      ensures Read(file) == if done then Some(text) else old(Read(file))
      ensures done ==> Read(OldName(file)) == old(Read(file)) && Read(tempFile) == None
      ensures !done ==> Read(OldName(file)) in {old(Read(OldName(file))), None, old(Read(file))}
      ensures forall n :: n != file && n != OldName(file) && n != tempFile ==> Read(n) == old(Read(n))
    {
      var oldFile := OldName(file);
      OldIsNoConf(file);
      if steps == 0 {
        return false;
      }
      var err := Unlink(oldFile);
      if err != Ok && err != ENOENT {
        return false;
      }
      if steps == 1 {
        return false;
      }
      err := Link(file, oldFile);
      if err != Ok && err != ENOENT {
        return false;
      }
      if steps == 2 {
        return false;
      }
      err := Rename(tempFile, file);
      return err == Ok;
    }

    /** Any runs, each cut off after any step: the configuration holds the text of the last run that
     *  completed, or what it held before if none did. */
    method RunAll(file: string, runs: seq<Run>)
      requires Valid() && IsConf(file) && forall i :: 0 <= i < |runs| ==> IsVersion(runs[i].ver)
      modifies this
      ensures Valid() && Read(file) == LastCompleted(old(Read(file)), runs)
    {
      for i := 0 to |runs|
        invariant Valid() && Read(file) == LastCompleted(old(Read(file)), runs[..i])
      {
        assert runs[..i + 1][..i] == runs[..i];
        var done := ReplaceIPFconf(file, runs[i].text, runs[i].ver, runs[i].steps);
      }
      assert runs[..|runs|] == runs;
    }
  }

  /** A run is done when its rename is. */
  predicate Completes(text: string, steps: nat) {
    steps >= |text| + 4
  }

  datatype Run = Run(text: string, ver: string, steps: nat)

  function LastCompleted(before: Option<string>, runs: seq<Run>): Option<string> {
    if runs == [] then before else
    var last := runs[|runs| - 1];
    if Completes(last.text, last.steps) then Some(last.text) else LastCompleted(before, runs[..|runs| - 1])
  }

  /** A file that once existed never stops existing, and is always some requested text, complete. */
  lemma {:induction false} AlwaysComplete(before: Option<string>, runs: seq<Run>)
    ensures before.Some? ==> LastCompleted(before, runs).Some?
    ensures LastCompleted(before, runs) == before
         || exists i :: 0 <= i < |runs| && Completes(runs[i].text, runs[i].steps)
                         && LastCompleted(before, runs) == Some(runs[i].text)
  {
    if runs != [] {
      var last := |runs| - 1;
      AlwaysComplete(before, runs[..last]);
      if Completes(runs[last].text, runs[last].steps) {
        assert LastCompleted(before, runs) == Some(runs[last].text);
      }
    }
  }
}
