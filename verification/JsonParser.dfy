/** The parser: a machine with a stack of frames, a handler for every state, and one tree of lists that
 *  is filled in place. A frame points at its list by the keys that lead there from the root.
 */
module JsonParser {
  import opened Json
  import opened Numerals
  import opened Options

  datatype State = Error | Finished | Rest | ObjectStart | KeyString | Colon | StringState | ObjectComma | ArrayStart
    | BarewordState | NumberState | ArrayValue | ArrayComma

  datatype Type = NothingType | StringType | IntegerType | BooleanType | NullType | ObjectType | ArrayType

  /** pf_value: a pointer, or a number in its place */
  datatype Pointer = Null | TextAt(text: string) | Bits(bits: int)

  /** parse_frame_t, with a pointer to a list or the list itself */
  datatype ParseFrame<L> = Frame(ps: State, nvl: L, key: Option<string>, value: Pointer, valueType: Type, index: nat)

  /** What is on the stack: the list is a place in the tree. */
  type Cell = ParseFrame<Option<seq<string>>>

  /** A frame together with the list it points at */
  type View = ParseFrame<map<string, Nv>>

  const NEW_FRAME: Cell := Frame(Error, None, None, Null, NothingType, 0)

  // ---- the tree ----

  /** Following the keys from the root leads from list to list. */
  predicate HasList(root: map<string, Nv>, path: seq<string>)
    decreases |path|
  {
    path == [] || (path[0] in root && root[path[0]].NvList? && HasList(root[path[0]].entries, path[1..]))
  }

  function ListAt(root: map<string, Nv>, path: seq<string>): map<string, Nv>
    requires HasList(root, path)
    decreases |path|
  {
    if path == [] then root else ListAt(root[path[0]].entries, path[1..])
  }

  /** The tree once an entry is added to one of its lists */
  function PutAt(root: map<string, Nv>, path: seq<string>, key: string, v: Nv): map<string, Nv>
    requires HasList(root, path)
    decreases |path|
  {
    if path == [] then root[key := v]
    else root[path[0] := NvList(PutAt(root[path[0]].entries, path[1..], key, v))]
  }

  lemma {:induction false} PutThere(root: map<string, Nv>, path: seq<string>, key: string, v: Nv)
    requires HasList(root, path)
    ensures var after := PutAt(root, path, key, v);
            HasList(after, path) && ListAt(after, path) == ListAt(root, path)[key := v]
    decreases |path|
  {
    if path != [] {
      PutThere(root[path[0]].entries, path[1..], key, v);
    }
  }

  /** On the way there, only the entry that leads on changes. */
  lemma {:induction false} PutBelow(root: map<string, Nv>, path: seq<string>, key: string, v: Nv, i: nat)
    requires HasList(root, path) && i < |path|
    ensures var after := PutAt(root, path, key, v);
            && HasList(root, path[..i]) && HasList(after, path[..i])
            && ListAt(after, path[..i]) - {path[i]} == ListAt(root, path[..i]) - {path[i]}
    decreases |path|
  {
    if i > 0 {
      PutBelow(root[path[0]].entries, path[1..], key, v, i - 1);
      assert path[..i][1..] == path[1..][..i - 1];
    }
  }

  /** Each list on the way is an entry of the one before. */
  lemma {:induction false} NextList(root: map<string, Nv>, path: seq<string>, key: string)
    requires HasList(root, path)
    ensures HasList(root, path + [key]) <==> key in ListAt(root, path) && ListAt(root, path)[key].NvList?
    ensures HasList(root, path + [key]) ==> ListAt(root, path)[key] == NvList(ListAt(root, path + [key]))
    decreases |path|
  {
    if path == [] {
      assert ([] + [key])[1..] == [];
    } else {
      assert (path + [key])[1..] == path[1..] + [key];
      NextList(root[path[0]].entries, path[1..], key);
    }
  }

  // ---- what the stack and the tree stand for ----

  function Seen(c: Cell, root: map<string, Nv>): View {
    var nvl := if c.nvl.Some? && HasList(root, c.nvl.value) then ListAt(root, c.nvl.value) else map[];
    Frame(c.ps, nvl, c.key, c.value, c.valueType, c.index)
  }

  /** A frame without what its list holds for the frame above it. */
  function Hollow(f: View): View {
    if f.key.None? then f else f.(nvl := f.nvl - {f.key.value})
  }

  /** The frames below the top, while they wait for it */
  function Below(frames: seq<Cell>, root: map<string, Nv>): seq<View>
    requires frames != []
  {
    seq(|frames| - 1, i requires 0 <= i < |frames| - 1 => Hollow(Seen(frames[i], root)))
  }

  function TopView(frames: seq<Cell>, root: map<string, Nv>): View
    requires frames != []
  {
    Seen(frames[|frames| - 1], root)
  }

  /** The frames below the top */
  function Under(frames: seq<Cell>): seq<Cell>
    requires frames != []
  {
    frames[..|frames| - 1]
  }

  /** The stack with another frame on top */
  function WithTop(frames: seq<Cell>, f: Cell): seq<Cell>
    requires frames != []
  {
    Under(frames) + [f]
  }

  /** Only the frame on top is another one. */
  predicate Retopped(was: seq<Cell>, now: seq<Cell>, top: Cell) {
    was != [] && |now| == |was| && Under(now) == Under(was) && now[|now| - 1] == top
  }

  /** The value of a finished frame */
  function FrameValue(f: View): Parsed
    requires f.ps == Finished
  {
    match f.valueType
    case StringType => if f.value.TextAt? then Done(NvString(f.value.text), "") else Fail
    case IntegerType => Done(NvInt(if f.value.Bits? then f.value.bits else 0), "")
    case BooleanType => Done(NvBool(f.value == Bits(1)), "")
    case NullType => Done(NvNull, "")
    case ObjectType => Done(NvList(f.nvl), "")
    case ArrayType => Done(NvList(f.nvl), "")
    case NothingType => Fail
  }

  /** What the grammar says a frame will come to, given the rest of the input. */
  function Continue(f: View, s: string): Parsed {
    match f.ps
    case Error => Fail
    case Finished => if FrameValue(f).Fail? then Fail else Done(FrameValue(f).value, s)
    case Rest => Root(s)
    case ObjectStart => Object(s)
    case KeyString => Members(s, f.nvl)
    case Colon => if f.key.None? then Fail else AfterKey(s, f.nvl, f.key.value)
    case StringState => StringValue(s)
    case ObjectComma => AfterMember(s, f.nvl)
    case ArrayStart => Array(s)
    case BarewordState => Bareword(s)
    case NumberState => Json.Number(s)
    case ArrayValue => Elements(s, f.nvl, f.index)
    case ArrayComma => AfterElement(s, f.nvl, f.index)
  }

  /** A frame once its list holds the value that it waits for. */
  function Stored(f: View, v: Nv): View {
    if f.key.None? then f else f.(nvl := f.nvl[f.key.value := v], key := None)
  }

  /** What the whole stack will come to: the top frame's value goes into the frame below. */
  function Resume(below: seq<View>, top: View, s: string): Parsed
    decreases |below|
  {
    var r := Continue(top, s);
    if r.Fail? || below == [] then r
    else Resume(below[..|below| - 1], Stored(below[|below| - 1], r.value), r.rest)
  }

  function OutcomeOf(frames: seq<Cell>, root: map<string, Nv>, s: string): Parsed
    requires frames != []
  {
    Resume(Below(frames, root), TopView(frames, root), s)
  }

  // ---- what the parser keeps ----

  /** A frame that waits for the one above it: after a value, with the key for it. */
  predicate Waits<L>(f: ParseFrame<L>) {
    f.ps in {ObjectComma, ArrayComma} && f.key.Some? && f.value == Null
    && f.valueType == (if f.ps == ObjectComma then ObjectType else ArrayType)
  }

  /** What the parser keeps of the frame on top. */
  predicate Works<L>(f: ParseFrame<L>) {
    && (f.ps == Error ==> f.value == Null)
    && (f.ps == Colon ==> f.key.Some?)
    && (f.ps !in {Error, Colon} ==> f.key.None?)
    && (f.ps == Finished ==> f.valueType != NothingType && (f.valueType == StringType ==> f.value.TextAt?))
    && (f.ps == Finished ==> (f.valueType in {ObjectType, ArrayType, NullType} ==> f.value == Null))
    && (f.ps == Finished ==> (f.valueType == IntegerType ==> f.value.Bits?))
    && (f.ps == Finished ==> (f.valueType == BooleanType ==> f.value in {Bits(0), Bits(1)}))
    && (f.ps != Finished ==> f.value == Null)
    && (f.ps in {KeyString, Colon, ObjectComma} ==> f.valueType == ObjectType)
    && (f.ps in {ArrayValue, ArrayComma} ==> f.valueType == ArrayType)
    && (f.ps in {Rest, ArrayStart} ==> f.index == 0)
  }

  /** Whether a frame may be the last one */
  predicate MayBeRoot<L>(f: ParseFrame<L>) {
    f.ps !in {StringState, BarewordState, NumberState} && (f.ps == Finished ==> f.valueType in {ObjectType, ArrayType})
  }

  predicate Stacked(frames: seq<Cell>) {
    && frames != []
    && Works(frames[|frames| - 1])
    && (forall i :: 0 <= i < |frames| - 1 ==> Waits(frames[i]))
    && (|frames| == 1 ==> MayBeRoot(frames[0]))
  }

  /** The frame's list has been begun. */
  predicate NeedsList<L>(f: ParseFrame<L>) {
    f.ps in {KeyString, Colon, ObjectComma, ArrayValue, ArrayComma}
    || (f.ps == Finished && f.valueType in {ObjectType, ArrayType})
  }

  /** The keys of the frames below lead from the root to this frame's list. */
  predicate LeadsTo(frames: seq<Cell>, i: nat, path: seq<string>)
    requires i <= |frames|
  {
    |path| == i && forall j :: 0 <= j < i ==> frames[j].key == Some(path[j])
  }

  predicate LinkedAt(frames: seq<Cell>, root: map<string, Nv>, i: nat)
    requires i < |frames|
  {
    && (NeedsList(frames[i]) ==> frames[i].nvl.Some?)
    && (frames[i].nvl.Some? ==> LeadsTo(frames, i, frames[i].nvl.value) && HasList(root, frames[i].nvl.value))
  }

  predicate Linked(frames: seq<Cell>, root: map<string, Nv>) {
    forall i :: 0 <= i < |frames| ==> LinkedAt(frames, root, i)
  }

  /** While a list is open it is the entry under its parent's key. */
  lemma ListIsInPlace(frames: seq<Cell>, root: map<string, Nv>, i: nat)
    requires Linked(frames, root) && i + 1 < |frames| && frames[i].nvl.Some? && frames[i + 1].nvl.Some?
    ensures frames[i].key.Some? && frames[i + 1].nvl.value == frames[i].nvl.value + [frames[i].key.value]
    ensures var parent := Seen(frames[i], root).nvl; var key := frames[i].key.value;
            key in parent && parent[key] == NvList(Seen(frames[i + 1], root).nvl)
  {
    var p, q := frames[i].nvl.value, frames[i + 1].nvl.value;
    assert LinkedAt(frames, root, i) && LinkedAt(frames, root, i + 1);
    assert frames[i].key == Some(q[i]);
    forall j | 0 <= j < i ensures p[j] == q[j] {
      assert frames[j].key == Some(p[j]) && frames[j].key == Some(q[j]);
    }
    assert q == p + [frames[i].key.value];
    NextList(root, p, frames[i].key.value);
  }

  /** An entry added to the list of frame i is seen by that frame; the frames below it see a change only
   *  under the key that they wait with. */
  lemma PutIsSeen(frames: seq<Cell>, root: map<string, Nv>, i: nat, key: string, v: Nv)
    requires Linked(frames, root) && i < |frames| && frames[i].nvl.Some? && LinkedAt(frames, root, i)
    ensures var after := PutAt(root, frames[i].nvl.value, key, v);
            && Linked(frames[..i + 1], after)
            && Seen(frames[i], after) == Seen(frames[i], root).(nvl := Seen(frames[i], root).nvl[key := v])
            && forall j :: 0 <= j < i ==> Hollow(Seen(frames[j], after)) == Hollow(Seen(frames[j], root))
  {
    assert LinkedAt(frames, root, i);
    var path := frames[i].nvl.value;
    var after := PutAt(root, path, key, v);
    PutThere(root, path, key, v);
    forall j | 0 <= j < i
      ensures LinkedAt(frames[..i + 1], after, j) && Hollow(Seen(frames[j], after)) == Hollow(Seen(frames[j], root))
    {
      assert LinkedAt(frames, root, j) && frames[j].key == Some(path[j]);
      if frames[j].nvl.Some? {
        PathsAgree(frames, j, frames[j].nvl.value, i, path);
        PutBelow(root, path, key, v, j);
      }
    }
    assert LinkedAt(frames[..i + 1], after, i);
  }

  lemma PathsAgree(frames: seq<Cell>, j: nat, p: seq<string>, i: nat, q: seq<string>)
    requires j < i <= |frames| && LeadsTo(frames, j, p) && LeadsTo(frames, i, q)
    ensures p == q[..j]
  {
    forall k | 0 <= k < j ensures p[k] == q[k] {
      assert frames[k].key == Some(p[k]) && frames[k].key == Some(q[k]);
    }
  }

  lemma SeenAlike(c: Cell, root: map<string, Nv>)
    ensures (Works(c) <==> Works(Seen(c, root))) && (MayBeRoot(c) <==> MayBeRoot(Seen(c, root)))
  {
  }

  ghost predicate Sound(frames: seq<Cell>, root: map<string, Nv>) {
    Stacked(frames) && Linked(frames, root)
  }

  /** Another top on the same frames, which see nothing new but what is under their keys. */
  ghost predicate Kept(was: seq<Cell>, root: map<string, Nv>, now: seq<Cell>, root': map<string, Nv>) {
    && was != [] && |now| == |was| && Under(now) == Under(was)
    && Linked(now, root') && Below(now, root') == Below(was, root)
  }

  lemma KeptTop(was: seq<Cell>, now: seq<Cell>, root: map<string, Nv>)
    requires was != [] && |now| == |was| && Linked(was, root) && Under(now) == Under(was)
    requires now[|was| - 1].nvl == was[|was| - 1].nvl && (NeedsList(now[|was| - 1]) ==> now[|was| - 1].nvl.Some?)
    ensures Kept(was, root, now, root)
  {
    hide HasList, ListAt;
    forall j | 0 <= j < |now| - 1 ensures now[j] == was[j] {
      assert now[j] == Under(now)[j] && was[j] == Under(was)[j];
    }
    forall i | 0 <= i < |now| ensures LinkedAt(now, root, i) {
      assert LinkedAt(was, root, i);
    }
    assert Below(now, root) == Below(was, root);
  }

  /** movestate */
  lemma Moved(was: seq<Cell>, now: seq<Cell>, root: map<string, Nv>, ps: State)
    requires was != [] && Linked(was, root) && Retopped(was, now, was[|was| - 1].(ps := ps))
    requires was[|was| - 1].nvl.Some?
    ensures Kept(was, root, now, root) && TopView(now, root) == TopView(was, root).(ps := ps)
  {
    KeptTop(was, now, root);
  }

  /** A step within the top frame that the grammar allows leaves the outcome as it was. */
  lemma Step(was: seq<Cell>, root: map<string, Nv>, s: string, now: seq<Cell>, root': map<string, Nv>, t: string)
    requires Sound(was, root) && Kept(was, root, now, root')
    requires Works(TopView(now, root')) && (|now| == 1 ==> MayBeRoot(TopView(now, root')))
    requires Continue(TopView(was, root), s) == Continue(TopView(now, root'), t)
    ensures Sound(now, root') && OutcomeOf(now, root', t) == OutcomeOf(was, root, s)
  {
    SeenAlike(now[|now| - 1], root');
    hide Linked, Below, Works, Waits, MayBeRoot;
    forall i | 0 <= i < |now| - 1 ensures Waits(now[i]) {
      assert now[i] == Under(now)[i] && was[i] == Under(was)[i];
    }
  }

  /** A step that leaves the tree alone */
  lemma TopStep(was: seq<Cell>, s: string, now: seq<Cell>, t: string, root: map<string, Nv>)
    requires Sound(was, root) && |now| == |was| && Under(now) == Under(was) && now[|was| - 1].nvl == was[|was| - 1].nvl
    requires NeedsList(now[|was| - 1]) ==> now[|was| - 1].nvl.Some?
    requires Works(TopView(now, root)) && (|now| == 1 ==> MayBeRoot(TopView(now, root)))
    requires Continue(TopView(was, root), s) == Continue(TopView(now, root), t)
    ensures Sound(now, root) && OutcomeOf(now, root, t) == OutcomeOf(was, root, s)
  {
    KeptTop(was, now, root);
    Step(was, root, s, now, root, t);
  }

  /** What a frame comes to when a child's value is stored in it first */
  function Through(parent: View, child: Parsed): Parsed {
    if child.Fail? then Fail else Continue(Stored(parent, child.value), child.rest)
  }

  /** A value stored in a hollow frame fills it. */
  lemma HollowStored(f: View, v: Nv)
    requires f.key.Some?
    ensures Stored(Hollow(f), v) == Stored(f, v)
  {
    assert (f.nvl - {f.key.value})[f.key.value := v] == f.nvl[f.key.value := v];
  }

  lemma Pushed(below: seq<View>, top: View, s: string, parent: View, child: View, t: string)
    requires parent.key.Some? && Continue(top, s) == Through(parent, Continue(child, t))
    ensures Resume(below, top, s) == Resume(below + [Hollow(parent)], child, t)
  {
    var r := Continue(child, t);
    assert (below + [Hollow(parent)])[..|below|] == below;
    if r.Done? {
      HollowStored(parent, r.value);
    }
  }

  /** A push that the grammar allows leaves the outcome as it was. */
  lemma PushStep(was: seq<Cell>, s: string, parent: Cell, child: Cell, t: string, root: map<string, Nv>)
    requires Sound(was, root) && Waits(parent) && Works(child)
    requires parent.nvl == was[|was| - 1].nvl && parent.nvl.Some? && child.nvl.None? && !NeedsList(child)
    requires Continue(TopView(was, root), s) == Through(Seen(parent, root), Continue(Seen(child, root), t))
    ensures var now := WithTop(was, parent) + [child];
            Sound(now, root) && OutcomeOf(now, root, t) == OutcomeOf(was, root, s)
  {
    var now := WithTop(was, parent) + [child];
    forall i | 0 <= i < |now| ensures LinkedAt(now, root, i) {
      if i < |was| {
        assert LinkedAt(was, root, i);
      }
    }
    assert Below(now, root) == Below(was, root) + [Hollow(Seen(parent, root))];
    hide Continue, Resume;
    Pushed(Below(was, root), TopView(was, root), s, Seen(parent, root), Seen(child, root), t);
  }

  /** The list of the frame below the top holds the value that this frame waits for; nothing else changed. */
  ghost predicate Filled(frames: seq<Cell>, root: map<string, Nv>, root': map<string, Nv>, v: Nv)
    requires |frames| > 1
  {
    var n := |frames|;
    && Linked(frames[..n - 1], root')
    && (forall j :: 0 <= j < n - 2 ==> Hollow(Seen(frames[j], root')) == Hollow(Seen(frames[j], root)))
    && Seen(frames[n - 2].(key := None), root') == Stored(Seen(frames[n - 2], root), v)
  }

  /** An entry stored in the list below fills it. */
  lemma PutFills(frames: seq<Cell>, root: map<string, Nv>, v: Nv)
    requires Sound(frames, root) && |frames| > 1
    ensures var below := frames[|frames| - 2];
            && below.nvl.Some? && below.key.Some? && HasList(root, below.nvl.value)
            && Filled(frames, root, PutAt(root, below.nvl.value, below.key.value, v), v)
  {
    SoundTop(frames, root);
    var n := |frames|;
    assert LinkedAt(frames, root, n - 2);
    PutIsSeen(frames, root, n - 2, frames[n - 2].key.value, v);
  }

  /** The list of a finished frame is an entry of the list below. */
  lemma ChildFills(frames: seq<Cell>, root: map<string, Nv>)
    requires Sound(frames, root) && |frames| > 1 && frames[|frames| - 1].ps == Finished
    requires frames[|frames| - 1].valueType in {ObjectType, ArrayType}
    ensures Filled(frames, root, root, NvList(TopView(frames, root).nvl))
  {
    var n := |frames|;
    SoundTop(frames, root);
    ListIsInPlace(frames, root, n - 2);
    var lower := frames[..n - 1];
    forall i | 0 <= i < |lower| ensures LinkedAt(lower, root, i) {
      assert LinkedAt(frames, root, i);
    }
    var nvl, key := Seen(frames[n - 2], root).nvl, frames[n - 2].key.value;
    assert nvl[key := nvl[key]] == nvl;
  }

  /** The pop of a finished frame whose value is in the list below */
  lemma PopStep(was: seq<Cell>, root: map<string, Nv>, root': map<string, Nv>, s: string)
    requires Sound(was, root) && |was| > 1 && was[|was| - 1].ps == Finished && FrameValue(TopView(was, root)).Done?
    requires Filled(was, root, root', FrameValue(TopView(was, root)).value)
    ensures var now := was[..|was| - 2] + [was[|was| - 2].(key := None)];
            Sound(now, root') && OutcomeOf(now, root', s) == OutcomeOf(was, root, s)
  {
    var n := |was|;
    var now := was[..n - 2] + [was[n - 2].(key := None)];
    assert Waits(was[n - 2]);
    forall i | 0 <= i < n - 1 ensures LinkedAt(now, root', i) {
      assert LinkedAt(was[..n - 1], root', i);
    }
    hide Linked;
    assert Below(now, root') == Below(was, root)[..n - 2];
    HollowStored(Seen(was[n - 2], root), FrameValue(TopView(was, root)).value);
  }

  lemma SoundTop(frames: seq<Cell>, root: map<string, Nv>)
    requires Sound(frames, root)
    ensures frames != [] && Works(frames[|frames| - 1]) && (|frames| == 1 ==> MayBeRoot(frames[0]))
    ensures Works(TopView(frames, root)) && TopView(frames, root).ps == frames[|frames| - 1].ps
    ensures NeedsList(frames[|frames| - 1]) ==> frames[|frames| - 1].nvl.Some?
    ensures |frames| > 1 ==> Waits(frames[|frames| - 2]) && frames[|frames| - 2].nvl.Some?
  {
    assert LinkedAt(frames, root, |frames| - 1);
    assert |frames| > 1 ==> LinkedAt(frames, root, |frames| - 2);
  }

  /** How often the parser may look without reading on */
  function Rank(ps: State): nat {
    if ps == ArrayStart then 2 else if ps == ArrayValue then 1 else 0
  }

  /** An error, more input read, or a state closer to reading some */
  predicate Advanced(before: string, ps: State, after: string, next: State) {
    next == Error || |after| < |before| || (|after| == |before| && Rank(next) < Rank(ps))
  }

  // ---- the machine ----

  class Parser {
    const input: string
    var pos: nat
    var frames: seq<Cell>
    var root: map<string, Nv>
    var collect: string

    constructor (buf: string)
      ensures input == buf && Ready() && Left() == buf && frames == [NEW_FRAME.(ps := Rest)]
    {
      input, pos, frames, root, collect := buf, 0, [NEW_FRAME.(ps := Rest)], map[], "";
    }

    ghost predicate Ready()
      reads `pos, `frames, `root
    {
      pos <= |input| + 1 && Sound(frames, root)
    }

    /** The input not read yet */
    ghost function Left(): string
      reads `pos
    {
      if pos <= |input| then input[pos..] else ""
    }

    /** What the grammar makes of everything from here on */
    ghost function Outcome(): Parsed
      reads `pos, `frames, `root
      requires frames != []
    {
      OutcomeOf(frames, root, Left())
    }

    function Top(): Cell
      reads `frames
      requires frames != []
    {
      frames[|frames| - 1]
    }

    method SetTop(f: Cell)
      requires frames != []
      modifies `frames
      ensures Retopped(old(frames), frames, f)
    {
      frames := WithTop(frames, f);
    }

    /** popchar */
    method PopChar() returns (c: char)
      modifies `pos
      requires pos <= |input| + 1
      ensures pos <= |input| + 1 && c == Head(old(Left())) && Left() == Tail(old(Left()))
    {
      if pos > |input| {
        return '\0';
      }
      c := if pos == |input| then '\0' else input[pos];
      pos := pos + 1;
    }

    /** peekchar */
    function PeekChar(): (c: char)
      reads `pos
      requires pos <= |input| + 1
      ensures c == Head(Left())
    {
      if pos >= |input| then '\0' else input[pos]
    }

    /** discard_whitespace */
    method DiscardWhitespace()
      requires pos <= |input| + 1
      modifies `pos
      ensures pos <= |input| + 1 && Left() == SkipBlanks(old(Left()))
    {
      while IsBlank(PeekChar())
        invariant pos <= |input| + 1 && SkipBlanks(Left()) == SkipBlanks(old(Left()))
        decreases |Left()|
      {
        var _ := PopChar();
      }
    }

    /** movestate */
    method MoveState(ps: State)
      requires frames != []
      modifies `frames
      ensures Retopped(old(frames), frames, old(Top()).(ps := ps))
    {
      frames := WithTop(frames, Top().(ps := ps));
    }

    /** posterror */
    method PostError()
      requires frames != []
      modifies `frames
      ensures Retopped(old(frames), frames, old(Top()).(ps := Error))
    {
      MoveState(Error);
    }

    /** pushstate */
    method PushState(ps: State, retps: State)
      requires frames != []
      modifies `frames
      ensures frames == WithTop(old(frames), old(Top()).(ps := retps)) + [NEW_FRAME.(ps := ps)]
    {
      frames := WithTop(frames, Top().(ps := retps)) + [NEW_FRAME.(ps := ps)];
    }

    // ---- collecting ----

    /** The four characters of a Unicode escape */
    method CollectUnicode() returns (ok: bool, c: char)
      requires pos <= |input| + 1
      modifies `pos
      ensures pos <= |input| + 1 && ok == UnicodeEscape(old(Left())).Good?
      ensures ok ==> c == UnicodeEscape(old(Left())).value && Left() == UnicodeEscape(old(Left())).rest
    {
      hide Atoi;
      ghost var s := Left();
      var digs := "";
      while |digs| < 4
        invariant pos <= |input| + 1 && |digs| <= 4 && |digs| <= |s|
        invariant digs == s[..|digs|] && Left() == s[|digs|..] && '\0' !in digs
      {
        var k := |digs|;
        c := PopChar();
        if c == '\0' {
          NulWithin(s, k);
          return false, c;
        }
        digs := digs + [c];
      }
      var res := Atoi(digs);
      return res <= 127, (res % 256) as char;
    }

    /** collect_string_escape */
    method CollectStringEscape() returns (ok: bool)
      requires pos <= |input| + 1 && frames != []
      modifies `pos, `frames, `collect
      ensures pos <= |input| + 1 && ok == Escape(old(Left())).Good?
      ensures ok ==> frames == old(frames) && Left() == Escape(old(Left())).rest
      ensures ok ==> collect == old(collect) + [Escape(old(Left())).value]
      ensures !ok ==> Retopped(old(frames), frames, old(Top()).(ps := Error))
    {
      hide UnicodeEscape;
      var c := PopChar();
      if c == '\0' {
        PostError();
        return false;
      }
      if c == 'u' {
        var fine, u := CollectUnicode();
        if !fine {
          PostError();
          return false;
        }
        collect := collect + [u];
        return true;
      }
      if c == '"' || c == '\\' || c == '/' {
        collect := collect + [c];
      } else if c == 'b' {
        collect := collect + [8 as char];
      } else if c == 'f' {
        collect := collect + [12 as char];
      } else if c == 'n' {
        collect := collect + ['\n'];
      } else if c == 'r' {
        collect := collect + ['\r'];
      } else if c == 't' {
        collect := collect + ['\t'];
      } else {
        PostError();
        return false;
      }
      return true;
    }

    /** collect_string */
    method CollectString() returns (ok: bool)
      requires pos <= |input| + 1 && frames != []
      modifies `pos, `frames, `collect
      ensures pos <= |input| + 1 && ok == Characters(old(Left())).Good?
      ensures ok ==>
        frames == old(frames) && Left() == Characters(old(Left())).rest && collect == Characters(old(Left())).value
      ensures !ok ==> Retopped(old(frames), frames, old(Top()).(ps := Error))
    {
      hide Escape, Characters;
      ghost var whole := Characters(Left());
      JoinedNothing(whole);
      collect := "";
      while true
        invariant pos <= |input| + 1 && frames == old(frames)
        invariant whole == Joined(collect, Characters(Left()))
        decreases |Left()|
      {
        ghost var s := Left();
        CharactersStep(collect, s);
        var c := PopChar();
        if c == '"' {
          return true;
        } else if c == '\0' {
          PostError();
          return false;
        } else if c == '\\' {
          EscapeShrinks(Left());
          var fine := CollectStringEscape();
          if !fine {
            return false;
          }
        } else {
          collect := collect + [c];
        }
      }
    }

    /** collect_bareword */
    method CollectBareword()
      requires pos <= |input| + 1
      modifies `pos, `collect
      ensures pos <= |input| + 1
      ensures collect == LowerPrefix(old(Left())) && Left() == old(Left())[|collect|..]
    {
      ghost var s := Left();
      collect := "";
      while IsLower(PeekChar())
        invariant pos <= |input| + 1
        invariant |collect| <= |s| && Left() == s[|collect|..] && LowerPrefix(s) == collect + LowerPrefix(Left())
        decreases |Left()|
      {
        var c := PopChar();
        collect := collect + [c];
      }
    }

    /** The digits of collect_number */
    method CollectDigits()
      requires pos <= |input| + 1
      modifies `pos, `collect
      ensures pos <= |input| + 1
      ensures collect == DigitPrefix(old(Left())) && Left() == old(Left())[|collect|..]
    {
      ghost var s := Left();
      collect := "";
      while IsDecimal(PeekChar())
        invariant pos <= |input| + 1
        invariant |collect| <= |s| && Left() == s[|collect|..] && DigitPrefix(s) == collect + DigitPrefix(Left())
        decreases |Left()|
      {
        var c := PopChar();
        collect := collect + [c];
      }
    }

    // ---- the handlers ----
    // Each one, from its own state, leaves what the whole input comes to as it was, and goes on.

    /** hdlr_bareword */
    method HandleBareword()
      requires Ready() && Top().ps == BarewordState
      modifies this
      ensures Ready() && Outcome() == old(Outcome()) && Advanced(old(Left()), BarewordState, Left(), Top().ps)
    {
      hide Under, HasList, ListAt, Sound, OutcomeOf, Left, SkipBlanks, Decoration;
      SoundTop(frames, root);
      ghost var was, s := frames, Left();
      CollectBareword();
      if collect == "true" {
        SetTop(Top().(valueType := BooleanType, value := Bits(1)));
      } else if collect == "false" {
        SetTop(Top().(valueType := BooleanType, value := Bits(0)));
      } else if collect == "null" {
        SetTop(Top().(valueType := NullType));
      } else {
        PostError();
        TopStep(was, s, frames, Left(), root);
        return;
      }
      MoveState(Finished);
      TopStep(was, s, frames, Left(), root);
    }

    /** collect_number */
    method CollectNumber() returns (ok: bool, result: int)
      requires pos <= |input| + 1 && frames != []
      modifies `pos, `frames, `collect
      ensures pos <= |input| + 1 && ok == Json.Number(old(Left())).Done?
      ensures ok ==> frames == old(frames) && Json.Number(old(Left())) == Done(NvInt(result), Left())
      ensures !ok ==> Retopped(old(frames), frames, old(Top()).(ps := Error))
    {
      hide Sound, OutcomeOf, Left, DigitPrefix, ReadDigits, Wrap32;
      DigitsStart(if Head(Left()) == '-' then Tail(Left()) else Left());
      var neg := false;
      if PeekChar() == '-' {
        neg := true;
        var _ := PopChar();
      }
      if !IsDecimal(PeekChar()) {
        PostError();
        return false, 0;
      }
      CollectDigits();
      if PeekChar() == '.' || PeekChar() == 'e' || PeekChar() == 'E' {
        PostError();
        return false, 0;
      }
      var t := Wrap32(ReadDigits(collect, 10, 0).0);
      return true, if neg then Wrap32(-t) else t;
    }

    /** hdlr_number */
    method HandleNumber()
      requires Ready() && Top().ps == NumberState
      modifies this
      ensures Ready() && Outcome() == old(Outcome()) && Advanced(old(Left()), NumberState, Left(), Top().ps)
    {
      hide Json.Number;
      hide Under, HasList, ListAt, Sound, OutcomeOf, Left, SkipBlanks, Decoration;
      SoundTop(frames, root);
      ghost var was, s := frames, Left();
      var ok, result := CollectNumber();
      if ok {
        SetTop(Top().(value := Bits(result), valueType := IntegerType));
        MoveState(Finished);
      }
      TopStep(was, s, frames, Left(), root);
    }

    /** hdlr_rest */
    method HandleRest()
      requires Ready() && Top().ps == Rest
      modifies this
      ensures Ready() && Outcome() == old(Outcome()) && Advanced(old(Left()), Rest, Left(), Top().ps)
    {
      hide Object, Array;
      hide Under, HasList, ListAt, Sound, OutcomeOf, Left, SkipBlanks, Decoration;
      SoundTop(frames, root);
      ghost var was, s := frames, Left();
      DiscardWhitespace();
      var c := PopChar();
      if c == '{' {
        MoveState(ObjectStart);
      } else if c == '[' {
        MoveState(ArrayStart);
      } else {
        PostError();
      }
      TopStep(was, s, frames, Left(), root);
    }

    /** add_empty_child: a new list is stored in the list below, and the frame on top points at it there. */
    method AddEmptyChild()
      requires frames != [] && Linked(frames, root)
      requires |frames| > 1 ==> Waits(frames[|frames| - 2]) && frames[|frames| - 2].nvl.Some?
      modifies `frames, `root
      ensures Kept(old(frames), old(root), frames, root) && Top().nvl.Some?
      ensures Retopped(old(frames), frames, old(Top()).(nvl := Top().nvl))
      ensures TopView(frames, root) == TopView(old(frames), old(root)).(nvl := map[])
    {
      var n := |frames|;
      ghost var was, tree := frames, root;
      if n == 1 {
        root := map[];
        frames := WithTop(frames, Top().(nvl := Some([])));
        assert LinkedAt(frames, root, 0);
        return;
      }
      var below := frames[n - 2];
      var nvl, key := below.nvl.value, below.key.value;
      assert LinkedAt(frames, root, n - 2);
      PutIsSeen(frames, root, n - 2, key, NvList(map[]));
      root := PutAt(root, nvl, key, NvList(map[]));
      PutThere(tree, nvl, key, NvList(map[]));
      NextList(root, nvl, key);
      frames := WithTop(frames, Top().(nvl := Some(nvl + [key])));
      ChildIsKept(was, tree, frames, root);
    }

    /** decorate_array */
    method DecorateArray()
      requires frames != [] && Linked(frames, root) && Top().nvl.Some?
      modifies `root
      ensures Kept(frames, old(root), frames, root)
      ensures var top := TopView(frames, old(root));
              TopView(frames, root) == top.(nvl := Decoration(top.nvl, top.index))
    {
      var n, nvl := |frames|, Top().nvl.value;
      assert frames[..n] == frames;
      assert LinkedAt(frames, root, n - 1);
      PutIsSeen(frames, root, n - 1, MARKER_ARRAY, NvNull);
      root := PutAt(root, nvl, MARKER_ARRAY, NvNull);
      assert LinkedAt(frames, root, n - 1);
      PutIsSeen(frames, root, n - 1, "length", NvUint(Top().index));
      root := PutAt(root, nvl, "length", NvUint(Top().index));
      assert Below(frames, root) == Below(frames, old(root));
    }

    /** How hdlr_array and hdlr_object begin */
    method BeginList(valueType: Type)
      requires Ready() && !NeedsList(Top()) && Top().ps != Finished
      modifies `frames, `root
      ensures Kept(old(frames), old(root), frames, root) && Top().nvl.Some?
      ensures Retopped(old(frames), frames, old(Top()).(valueType := valueType, nvl := Top().nvl))
      ensures TopView(frames, root) == TopView(old(frames), old(root)).(nvl := map[], valueType := valueType)
    {
      SoundTop(frames, root);
      ghost var was := frames;
      SetTop(Top().(valueType := valueType));
      KeptTop(was, frames, root);
      ghost var typed, tree := frames, root;
      hide Linked, Below;
      AddEmptyChild();
    }

    /** hdlr_array */
    method HandleArray()
      requires Ready() && Top().ps == ArrayStart
      modifies this
      ensures Ready() && Outcome() == old(Outcome()) && Advanced(old(Left()), ArrayStart, Left(), Top().ps)
    {
      hide Sound, OutcomeOf, Left, SkipBlanks, Decoration, Continue, Works, MayBeRoot;
      hide Linked, Below, TopView, Seen, Under, HasList, ListAt, Waits;
      SoundTop(frames, root);
      ghost var was, tree, s := frames, root, Left();
      ArraySteps(TopView(frames, root), s);
      BeginList(ArrayType);
      DiscardWhitespace();
      ghost var begun;
      if PeekChar() == ']' {
        var _ := PopChar();
        DecorateArray();
        begun := frames;
        MoveState(Finished);
      } else {
        begun := frames;
        MoveState(ArrayValue);
      }
      Moved(begun, frames, root, Top().ps);
      Step(was, tree, s, frames, root, Left());
    }

    /** hdlr_array_comma */
    method HandleArrayComma()
      requires Ready() && Top().ps == ArrayComma
      modifies this
      ensures Ready() && Outcome() == old(Outcome()) && Advanced(old(Left()), ArrayComma, Left(), Top().ps)
    {
      hide Under, HasList, ListAt, OutcomeOf, Left, SkipBlanks;
      hide Decoration, Continue, Works, MayBeRoot, Linked, Below, TopView;
      SoundTop(frames, root);
      ghost var was, tree, s := frames, root, Left();
      AfterElementSteps(TopView(frames, root), s);
      DiscardWhitespace();
      var c := PopChar();
      if c == ']' {
        DecorateArray();
        MoveState(Finished);
      } else if c == ',' {
        MoveState(ArrayValue);
      } else {
        PostError();
      }
      Moved(was, frames, root, Top().ps);
      Step(was, tree, s, frames, root, Left());
    }

    /** The choice of a handler for the next value, after which the frame on top goes on in another
     *  state */
    method PushHandler(retps: State)
      requires pos <= |input| + 1 && frames != []
      modifies `pos, `frames
      ensures pos <= |input| + 1
      ensures frames != []
      ensures if Top().ps == Error then
                Retopped(old(frames), frames, old(Top()).(ps := Error)) && Value(old(Left())).Fail?
              else
                && frames == WithTop(old(frames), old(Top()).(ps := retps)) + [NEW_FRAME.(ps := Top().ps)]
                && Top().ps in {StringState, ObjectStart, ArrayStart, BarewordState, NumberState}
                && Continue(Seen(Top(), root), Left()) == Value(old(Left()))
                && (|Left()| < |old(Left())| || (|Left()| == |old(Left())| && Top().ps in {BarewordState, NumberState}))
    {
      hide StringValue, Object, Array, Bareword, Json.Number, Left, SkipBlanks;
      ghost var s := Left();
      DiscardWhitespace();
      var c := PeekChar();
      if c == '"' {
        var _ := PopChar();
        PushState(StringState, retps);
      } else if c == '{' {
        var _ := PopChar();
        PushState(ObjectStart, retps);
      } else if c == '[' {
        var _ := PopChar();
        PushState(ArrayStart, retps);
      } else if IsLower(c) {
        PushState(BarewordState, retps);
      } else if c == '-' || IsDecimal(c) {
        PushState(NumberState, retps);
      } else {
        PostError();
      }
    }

    /** hdlr_array_value */
    method HandleArrayValue()
      requires Ready() && Top().ps == ArrayValue
      modifies this
      ensures Ready() && Outcome() == old(Outcome()) && Advanced(old(Left()), ArrayValue, Left(), Top().ps)
    {
      hide Sound, OutcomeOf, Left, SkipBlanks, Value, IndexKey;
      hide Continue, Works, Waits, MayBeRoot, Under, HasList, ListAt;
      SoundTop(frames, root);
      ghost var was, s := frames, Left();
      NoKeyYet(Top());
      assert Top().key == None;
      var key := IndexKey(Top().index);
      SetTop(Top().(key := Some(key), index := Top().index + 1));
      ghost var keyed := Top();
      PushHandler(ArrayComma);
      if Top().ps == Error {
        NoElement(TopView(was, root), was[|was| - 1], root, s, Left());
        TopStep(was, s, frames, Left(), root);
      } else {
        ElementThrough(TopView(was, root), was[|was| - 1], root, s, Seen(Top(), root), Left());
        NewFrameWorks(Top().ps);
        PushStep(was, s, keyed.(ps := ArrayComma), Top(), Left(), root);
      }
    }

    /** hdlr_object */
    method HandleObject()
      requires Ready() && Top().ps == ObjectStart
      modifies this
      ensures Ready() && Outcome() == old(Outcome()) && Advanced(old(Left()), ObjectStart, Left(), Top().ps)
    {
      hide Sound, OutcomeOf, Left, SkipBlanks, Continue, Works, MayBeRoot;
      hide Linked, Below, TopView, Seen, Under, HasList, ListAt, Waits;
      SoundTop(frames, root);
      ghost var was, tree, s := frames, root, Left();
      ObjectSteps(TopView(frames, root), s);
      BeginList(ObjectType);
      ghost var begun := frames;
      DiscardWhitespace();
      var c := PopChar();
      if c == '}' {
        MoveState(Finished);
      } else if c == '"' {
        MoveState(KeyString);
      } else {
        PostError();
      }
      Moved(begun, frames, root, Top().ps);
      Step(was, tree, s, frames, root, Left());
    }

    /** hdlr_key_string */
    method HandleKeyString()
      requires Ready() && Top().ps == KeyString
      modifies this
      ensures Ready() && Outcome() == old(Outcome()) && Advanced(old(Left()), KeyString, Left(), Top().ps)
    {
      hide AfterKey, Characters, UpToNul, Under, HasList, ListAt;
      hide Sound, OutcomeOf, Left, SkipBlanks, Decoration;
      SoundTop(frames, root);
      ghost var was, s := frames, Left();
      var ok := CollectString();
      if ok {
        SetTop(Top().(key := Some(UpToNul(collect))));
        MoveState(Colon);
      }
      TopStep(was, s, frames, Left(), root);
    }

    /** hdlr_colon */
    method HandleColon()
      requires Ready() && Top().ps == Colon
      modifies this
      ensures Ready() && Outcome() == old(Outcome()) && Advanced(old(Left()), Colon, Left(), Top().ps)
    {
      hide Value, AfterMember, StringValue, Object, Array, Bareword, Json.Number;
      hide Under, HasList, ListAt, Sound, OutcomeOf, Left, SkipBlanks, Decoration;
      SoundTop(frames, root);
      ghost var was, s := frames, Left();
      DiscardWhitespace();
      var c := PopChar();
      if c != ':' {
        PostError();
        TopStep(was, s, frames, Left(), root);
        return;
      }
      PushHandler(ObjectComma);
      if Top().ps == Error {
        TopStep(was, s, frames, Left(), root);
      } else {
        PushStep(was, s, was[|was| - 1].(ps := ObjectComma), Top(), Left(), root);
      }
    }

    /** hdlr_object_comma */
    method HandleObjectComma()
      requires Ready() && Top().ps == ObjectComma
      modifies this
      ensures Ready() && Outcome() == old(Outcome()) && Advanced(old(Left()), ObjectComma, Left(), Top().ps)
    {
      hide Members;
      hide Under, HasList, ListAt, Sound, OutcomeOf, Left, SkipBlanks, Decoration;
      SoundTop(frames, root);
      ghost var was, s := frames, Left();
      DiscardWhitespace();
      var c := PopChar();
      if c == '}' {
        MoveState(Finished);
      } else if c == ',' {
        DiscardWhitespace();
        c := PopChar();
        if c != '"' {
          PostError();
        } else {
          MoveState(KeyString);
        }
      } else {
        PostError();
      }
      TopStep(was, s, frames, Left(), root);
    }

    /** hdlr_string */
    method HandleString()
      requires Ready() && Top().ps == StringState
      modifies this
      ensures Ready() && Outcome() == old(Outcome()) && Advanced(old(Left()), StringState, Left(), Top().ps)
    {
      hide Characters, UpToNul;
      hide Under, HasList, ListAt, Sound, OutcomeOf, Left, SkipBlanks, Decoration;
      SoundTop(frames, root);
      ghost var was, s := frames, Left();
      var ok := CollectString();
      if ok {
        SetTop(Top().(valueType := StringType, value := TextAt(UpToNul(collect))));
        MoveState(Finished);
      }
      TopStep(was, s, frames, Left(), root);
    }

    /** store_value: a text, a word or a number is stored in the list below; a list is there already, and
     *  nothing is stored. */
    method StoreValue()
      requires Ready() && |frames| > 1 && Top().ps == Finished
      modifies `root
      ensures FrameValue(TopView(frames, old(root))).Done?
      ensures Filled(frames, old(root), root, FrameValue(TopView(frames, old(root))).value)
      ensures Top().valueType in {ObjectType, ArrayType} ==> root == old(root)
    {
      hide Filled, Sound;
      SoundTop(frames, root);
      var n, top := |frames|, Top();
      PutFills(frames, root, FrameValue(TopView(frames, root)).value);
      var targ, key := frames[n - 2].nvl.value, frames[n - 2].key.value;
      match top.valueType {
        case StringType => root := PutAt(root, targ, key, NvString(top.value.text));
        case BooleanType => root := PutAt(root, targ, key, NvBool(top.value == Bits(1)));
        case NullType => root := PutAt(root, targ, key, NvNull);
        case IntegerType => root := PutAt(root, targ, key, NvInt(top.value.bits));
        case _ => ChildFills(frames, root);
      }
    }

    /** A finished frame is popped once its value is stored. */
    method StoreAndPop()
      requires Ready() && |frames| > 1 && Top().ps == Finished
      modifies `frames, `root
      ensures Ready() && Outcome() == old(Outcome()) && Top().ps in {ObjectComma, ArrayComma}
      ensures old(Top().valueType) in {ObjectType, ArrayType} ==> root == old(root)
    {
      hide OutcomeOf, Filled, Sound;
      SoundTop(frames, root);
      ghost var was, tree := frames, root;
      StoreValue();
      frames := frames[..|frames| - 2] + [frames[|frames| - 2].(key := None)];
      PopStep(was, tree, root, Left());
    }

    /** The handler for the state on top; the two states without one are never dispatched. */
    method Dispatch()
      requires Ready() && Top().ps !in {Error, Finished}
      modifies this
      ensures Ready() && Outcome() == old(Outcome()) && Advanced(old(Left()), old(Top().ps), Left(), Top().ps)
    {
      var ps := Top().ps;
      if ps == Rest { HandleRest(); }
      else if ps == ObjectStart { HandleObject(); }
      else if ps == KeyString { HandleKeyString(); }
      else if ps == Colon { HandleColon(); }
      else if ps == StringState { HandleString(); }
      else if ps == ObjectComma { HandleObjectComma(); }
      else if ps == ArrayStart { HandleArray(); }
      else if ps == BarewordState { HandleBareword(); }
      else if ps == NumberState { HandleNumber(); }
      else if ps == ArrayValue { HandleArrayValue(); }
      else { HandleArrayComma(); }
    }

    /** The dispatch loop: it ends for every input, and with what the grammar makes of it. */
    method Run() returns (ok: bool, nvl: map<string, Nv>)
      requires Ready()
      modifies this
      ensures ok == old(Outcome()).Done? && (ok ==> old(Outcome()).value == NvList(nvl))
      ensures forall i :: 0 <= i < |frames| ==> frames[i].value == Null
    {
      hide Sound, OutcomeOf, Left, HasList, Continue, Seen;
      SoundTop(frames, root);
      while true
        invariant Ready() && frames != [] && Outcome() == old(Outcome())
        decreases if Top().ps == Error then 0 else 1, |Left()|, Rank(Top().ps)
      {
        if Top().ps == Error {
          ErrorFails(frames, root, Left());
          NoValues(frames, root);
          return false, map[];
        }
        if Top().ps == Finished {
          if |frames| == 1 {
            RootIsOutcome(frames, root, Left());
            NoValues(frames, root);
            return true, ListAt(root, Top().nvl.value);
          }
          StoreAndPop();
          SoundTop(frames, root);
        }
        Dispatch();
        SoundTop(frames, root);
      }
    }
  }

  /** What is freed at the end holds no value. */
  lemma NoValues(frames: seq<Cell>, root: map<string, Nv>)
    requires Sound(frames, root) && frames != []
    requires frames[|frames| - 1].ps == Error || (|frames| == 1 && frames[0].ps == Finished)
    ensures forall i :: 0 <= i < |frames| ==> frames[i].value == Null
  {
  }

  lemma ErrorFails(frames: seq<Cell>, root: map<string, Nv>, s: string)
    requires frames != [] && frames[|frames| - 1].ps == Error
    ensures OutcomeOf(frames, root, s) == Fail
  {
  }

  /** The last frame's list is the root of the tree, and the outcome. */
  lemma RootIsOutcome(frames: seq<Cell>, root: map<string, Nv>, s: string)
    requires Sound(frames, root) && |frames| == 1 && frames[0].ps == Finished
    ensures frames[0].nvl == Some([]) && HasList(root, []) && ListAt(root, []) == root
    ensures OutcomeOf(frames, root, s) == Done(NvList(root), s)
  {
    assert LinkedAt(frames, root, 0);
  }

  /** A frame on top of the others whose new list is an entry of the list below */
  lemma ChildIsKept(was: seq<Cell>, root: map<string, Nv>, now: seq<Cell>, root': map<string, Nv>)
    requires |was| > 1 && Linked(was, root) && was[|was| - 2].key.Some? && was[|was| - 2].nvl.Some?
    requires var n := |was|; var below := was[n - 2]; var nvl, key := below.nvl.value, below.key.value;
             && Retopped(was, now, was[n - 1].(nvl := Some(nvl + [key])))
             && HasList(root, nvl) && root' == PutAt(root, nvl, key, NvList(map[]))
             && HasList(root', nvl + [key]) && Linked(was[..n - 1], root')
    requires forall j :: 0 <= j < |was| - 2 ==> Hollow(Seen(was[j], root')) == Hollow(Seen(was[j], root))
    requires var below := was[|was| - 2];
             Seen(below, root') == Seen(below, root).(nvl := Seen(below, root).nvl[below.key.value := NvList(map[])])
    ensures Kept(was, root, now, root')
  {
    var n := |was|;
    var below := was[n - 2];
    assert LinkedAt(was, root, n - 2);
    forall i | 0 <= i < n ensures LinkedAt(now, root', i) {
      assert i < n - 1 ==> LinkedAt(was[..n - 1], root', i);
    }
    var old', key := Seen(below, root).nvl, below.key.value;
    assert old'[key := NvList(map[])] - {key} == old' - {key};
    assert Below(now, root') == Below(was, root);
  }

  /** nvlist_parse_json: for every buffer, what the grammar makes of it. */
  method ParseJson(buf: string) returns (ok: bool, nvl: map<string, Nv>)
    ensures ok <==> Root(buf).Done?
    ensures ok ==> Root(buf).value == NvList(nvl)
  {
    var parser := new Parser(buf);
    ok, nvl := parser.Run();
  }

  lemma DigitsStart(u: string)
    ensures DigitPrefix(u) != "" <==> IsDecimal(Head(u))
  {
  }

  /** An element goes through a frame of its own. */
  lemma ElementThrough(f: View, c: Cell, root: map<string, Nv>, s: string, child: View, t: string)
    requires f.ps == ArrayValue && Works(c) && f == Seen(c, root) && Continue(child, t) == Value(s)
    ensures var parent := f.(ps := ArrayComma, key := Some(IndexKey(f.index)), index := f.index + 1);
            Continue(f, s) == Through(parent, Continue(child, t))
    ensures Waits(c.(ps := ArrayComma, key := Some(IndexKey(c.index)), index := c.index + 1))
  {
    hide Value, AfterElement, IndexKey;
  }

  lemma NoElement(f: View, c: Cell, root: map<string, Nv>, s: string, t: string)
    requires f.ps == ArrayValue && Works(c) && f == Seen(c, root) && Value(s).Fail?
    ensures var g := f.(ps := Error, key := Some(IndexKey(f.index)), index := f.index + 1);
            Continue(f, s) == Continue(g, t)
    ensures var g := c.(ps := Error, key := Some(IndexKey(c.index)), index := c.index + 1);
            Works(Seen(g, root)) && MayBeRoot(Seen(g, root))
  {
  }

  lemma NoKeyYet(f: Cell)
    requires f.ps == ArrayValue && Works(f)
    ensures f.key == None && f.value == Null
  {
  }

  lemma NewFrameWorks(ps: State)
    requires ps in {StringState, ObjectStart, ArrayStart, BarewordState, NumberState}
    ensures Works(NEW_FRAME.(ps := ps))
  {
  }

  /** What may follow an element */
  lemma AfterElementSteps(f: View, s: string)
    requires f.ps == ArrayComma && Works(f)
    ensures var t := SkipBlanks(s);
            var g := if Head(t) == ']' then f.(nvl := Decoration(f.nvl, f.index), ps := Finished)
                     else if Head(t) == ',' then f.(ps := ArrayValue)
                     else f.(ps := Error);
            Works(g) && MayBeRoot(g) && Continue(f, s) == Continue(g, Tail(t))
  {
    hide SkipBlanks, Elements, Decoration;
  }

  /** How an object begins */
  lemma ObjectSteps(f: View, s: string)
    requires f.ps == ObjectStart && Works(f)
    ensures var t := SkipBlanks(s);
            var e := f.(nvl := map[], valueType := ObjectType);
            var g := e.(ps := if Head(t) == '}' then Finished else if Head(t) == '"' then KeyString else Error);
            Works(g) && MayBeRoot(g) && Continue(f, s) == Continue(g, Tail(t))
  {
    hide SkipBlanks, Members;
  }

  /** How an array begins */
  lemma ArraySteps(f: View, s: string)
    requires f.ps == ArrayStart && Works(f)
    ensures var t := SkipBlanks(s);
            var e := f.(nvl := map[], valueType := ArrayType);
            if Head(t) == ']' then
              var g := e.(nvl := Decoration(map[], f.index), ps := Finished);
              Works(g) && MayBeRoot(g) && Continue(f, s) == Continue(g, Tail(t))
            else
              var g := e.(ps := ArrayValue);
              Works(g) && MayBeRoot(g) && Continue(f, s) == Continue(g, t)
  {
    hide SkipBlanks, Elements, Decoration;
  }

  lemma NulWithin(s: string, k: nat)
    requires k < 4 && k <= |s| && Head(s[k..]) == '\0'
    ensures |s| < 4 || '\0' in s[..4]
  {
    if |s| >= 4 {
      assert s[..4][k] == '\0';
    }
  }

  function Joined(front: string, r: Read<string>): Read<string> {
    if r.Bad? then Bad else Good(front + r.value, r.rest)
  }

  lemma JoinedPrepend(front: string, c: char, r: Read<string>)
    ensures Joined(front, Json.Prepend(c, r)) == Joined(front + [c], r)
  {
    if r.Good? {
      assert front + ([c] + r.value) == (front + [c]) + r.value;
    }
  }

  lemma JoinedNothing(r: Read<string>)
    ensures Joined("", r) == r
  {
    if r.Good? {
      assert "" + r.value == r.value;
    }
  }

  lemma CharactersStep(front: string, s: string)
    ensures Head(s) == '"' ==> Joined(front, Characters(s)) == Good(front, s[1..])
    ensures Head(s) == '\0' ==> Joined(front, Characters(s)) == Bad
    ensures Head(s) !in {'"', '\0', '\\'} ==>
              Joined(front, Characters(s)) == Joined(front + [s[0]], Characters(s[1..]))
    ensures Head(s) == '\\' ==>
              Joined(front, Characters(s))
              == if Escape(s[1..]).Bad? then Bad
                 else Joined(front + [Escape(s[1..]).value], Characters(Escape(s[1..]).rest))
  {
    hide Escape;
    assert front + "" == front;
    if Head(s) == '\\' {
      if Escape(s[1..]).Good? {
        var e := Escape(s[1..]);
        EscapeShrinks(s[1..]);
        JoinedPrepend(front, e.value, Characters(e.rest));
      }
    } else if s != "" {
      JoinedPrepend(front, s[0], Characters(s[1..]));
    }
  }
}
