/** fswatcher: two threads, one mutex, and one-shot associations that the kernel may fire at any time.
 *  What happens outside the program is taken from a script of answers, one for each system call.
 */
module FsWatcher {
  import opened Numerals
  import opened Options
  import opened Strings

  datatype Flag = Access | Attrib | Delete | Exception | Modified | RenameFrom | RenameTo | Trunc | NoFollow
    | MountedOver | Unmounted

  /** An event that the kernel reported for the association of a file object; a node of the tree and
   *  its file object have one address. portev_user is the pointer to a name that the association was
   *  given. */
  datatype Event = Event(node: nat, name: nat, revents: set<Flag>)

  /** files_tree_node: an address, and the pointer to its copy of the path */
  datatype TreeNode = TreeNode(node: nat, name: nat)

  datatype Fire = Fire(node: nat, revents: set<Flag>)

  /** What goes on around a system call: associations fire, the thread that waits in port_get may be
   *  given the queued event at an index, and then the call has its result; allocations say where they
   *  would like to be. Until then freed memory reads as some text. */
  datatype Answer = Answer(fires: seq<Fire>, got: Option<nat>, ok: bool, purged: bool, kept: bool, node: nat,
                           name: nat, garbage: string)

  datatype Thread = StdinThread | EventThread

  // ---- what is printed ----

  /** The message of a response */
  datatype Cause = AlreadyWatching | StatFailed | AssociateFailed | Started | NotWatching | DissociateFailed
    | NoLongerWatching

  datatype ErrorCode = InvalidCommand | InvalidKey | UnknownCommand

  datatype Line =
    | Response(key: nat, success: bool, path: string, cause: Cause)
    | Status(key: nat, files: set<string>)
    | ErrorLine(key: nat, code: ErrorCode)
    | CannotAssociate(path: string)
    | EventLine(path: string, revents: set<Flag>, final: bool)

  /** The paths under watch, as a reader of the output knows them: a watch starts with its response,
   *  and ends with the response to an unwatch, a final event, or a failed re-association. */
  function Watched(out: seq<Line>): set<string> {
    if out == [] then {} else After(Watched(out[..|out| - 1]), out[|out| - 1])
  }

  function After(watched: set<string>, line: Line): set<string> {
    match line
    case Response(_, _, path, Started) => watched + {path}
    case Response(_, _, path, DissociateFailed) => watched - {path}
    case Response(_, _, path, NoLongerWatching) => watched - {path}
    case EventLine(path, _, true) => watched - {path}
    case CannotAssociate(path) => watched - {path}
    case _ => watched
  }

  /** A line that may follow when these paths are under watch. */
  predicate MayFollow(watched: set<string>, line: Line) {
    match line
    case Response(_, success, path, cause) =>
      && success == (cause in {AlreadyWatching, Started, NoLongerWatching})
      && (path in watched <==> cause in {AlreadyWatching, DissociateFailed, NoLongerWatching})
    case Status(_, files) => files == watched
    case ErrorLine(_, _) => true
    case CannotAssociate(path) => path in watched
    case EventLine(path, revents, final) => path in watched && revents != {}
  }

  predicate Legal(out: seq<Line>) {
    forall i :: 0 <= i < |out| ==> MayFollow(Watched(out[..i]), out[i])
  }

  lemma LegalSnoc(out: seq<Line>, line: Line)
    requires Legal(out) && MayFollow(Watched(out), line)
    ensures Legal(out + [line]) && Watched(out + [line]) == After(Watched(out), line)
    ensures Replies(out + [line]) ==
      if line.EventLine? || line.CannotAssociate? then Replies(out) else Replies(out) + [line]
  {
    var longer := out + [line];
    assert longer[..|out|] == out;
    forall i | 0 <= i < |longer| ensures MayFollow(Watched(longer[..i]), longer[i]) {
      assert i < |out| ==> longer[..i] == out[..i];
    }
  }

  // ---- commands ----

  const MAX_CMD_LEN := 20 + 1 + 7 + 1 + 1024 + 1
  const ULLONG_MAX := 0xffff_ffff_ffff_ffff
  const SYSTEM_KEY := 0

  datatype Command = Malformed | Reserved | Watch(key: nat, path: string) | Unwatch(key: nat, path: string)
    | StatusOf(key: nat) | Other(key: nat)

  function NextWord(s: string): (string, string) {
    if s == "" || IsBlank(s[0]) then ("", s) else
    var (w, rest) := NextWord(s[1..]);
    ([s[0]] + w, rest)
  }

  /** sscanf(str, "%llu %s %s"): how many were converted, and the three of them */
  function Scan(str: string): (int, nat, string, string) {
    var n := Strtoul(str, 10, ULLONG_MAX);
    if n.rest == str then (0, 0, "", "") else
    var (cmd, rest) := NextWord(SkipBlanks(n.rest));
    if cmd == "" then (1, n.value, "", "") else
    var (path, _) := NextWord(SkipBlanks(rest));
    (if path == "" then 2 else 3, n.value, cmd, path)
  }

  /** What a line of input asks for */
  function Parse(str: string): Command {
    var (res, key, cmd, path) := Scan(str);
    if |str| > MAX_CMD_LEN || res < 2 then Malformed
    else if key == SYSTEM_KEY then Reserved
    else if cmd == "UNWATCH" then if path == "" then Malformed else Unwatch(key, path)
    else if cmd == "WATCH" then if path == "" then Malformed else Watch(key, path)
    else if cmd == "STATUS" then if path == "" then StatusOf(key) else Malformed
    else Other(key)
  }

  predicate NoBlank(s: string) {
    forall i :: 0 <= i < |s| ==> !IsBlank(s[i])
  }

  lemma {:induction false} WordAlone(w: string, rest: string)
    requires NoBlank(w) && (rest == "" || IsBlank(rest[0]))
    ensures NextWord(w + rest) == (w, rest)
  {
    if w == "" {
      assert w + rest == rest;
    } else {
      assert (w + rest)[1..] == w[1..] + rest && [w[0]] + w[1..] == w;
      WordAlone(w[1..], rest);
    }
  }

  lemma {:induction false} WordHasNoBlank(s: string)
    ensures NoBlank(NextWord(s).0)
  {
    if s != "" && !IsBlank(s[0]) {
      WordHasNoBlank(s[1..]);
    }
  }

  lemma SkipOneBlank(s: string)
    requires s == "" || !IsBlank(s[0])
    ensures SkipBlanks(" " + s) == s
  {
    assert (" " + s)[1..] == s;
  }

  /** A WATCH or UNWATCH line as a user would write it */
  function PathLine(key: nat, cmd: string, path: string): string {
    Text(key, 10) + (" " + (cmd + (" " + (path + "\n"))))
  }

  lemma ScanPathLine(key: nat, cmd: string, path: string)
    requires key <= ULLONG_MAX && cmd != "" && NoBlank(cmd) && path != "" && NoBlank(path)
    ensures Scan(PathLine(key, cmd, path)) == (3, key, cmd, path)
  {
    var tail := " " + (path + "\n");
    var rest := " " + (cmd + tail);
    DecimalReads(key, ULLONG_MAX, rest);
    assert |rest| < |PathLine(key, cmd, path)| by { TextIsDigits(key, 10); }
    SkipOneBlank(cmd + tail);
    WordAlone(cmd, tail);
    SkipOneBlank(path + "\n");
    WordAlone(path, "\n");
  }

  /** A written line asks for just that exactly when its key is not reserved and fits, its path is a
   *  word, and the line is not too long. */
  lemma PathLineParses(key: nat, cmd: string, path: string)
    requires key <= ULLONG_MAX && cmd in {"WATCH", "UNWATCH"}
    ensures Parse(PathLine(key, cmd, path)) == (if cmd == "WATCH" then Watch(key, path) else Unwatch(key, path))
       <==> Fits(key, cmd, path)
  {
    if path != "" && NoBlank(path) {
      ScanPathLine(key, cmd, path);
    } else {
      ScannedPath(PathLine(key, cmd, path));
    }
  }

  predicate Fits(key: nat, cmd: string, path: string) {
    key != SYSTEM_KEY && |PathLine(key, cmd, path)| <= MAX_CMD_LEN && path != "" && NoBlank(path)
  }

  lemma ScannedPath(str: string)
    ensures NoBlank(Scan(str).3)
  {
    var n := Strtoul(str, 10, ULLONG_MAX);
    var (cmd, rest) := NextWord(SkipBlanks(n.rest));
    WordHasNoBlank(SkipBlanks(rest));
  }

  // ---- the order of the tree ----

  const ULONG_VALUES: nat := 0x1_0000_0000_0000_0000

  /** A char that is signed */
  function CharValue(c: char): int {
    if c as int < 128 then c as int else c as int - 256
  }

  function HashFrom(s: string, hash: nat): nat {
    if s == "" then hash else HashFrom(s[1..], (hash * 33 + CharValue(s[0])) % ULONG_VALUES)
  }

  /** djb2 */
  method Djb2(str: string) returns (hash: nat)
    ensures hash == HashFrom(str, 5381)
  {
    hash := 5381;
    for i := 0 to |str|
      invariant HashFrom(str, 5381) == HashFrom(str[i..], hash)
    {
      assert str[i..][0] == str[i] && str[i..][1..] == str[i + 1..];
      hash := (hash * 33 + CharValue(str[i])) % ULONG_VALUES;
    }
  }

  /** files_tree_node_comparator on two names */
  function Compare(l: string, r: string): int {
    var lh, rh := HashFrom(l, 5381), HashFrom(r, 5381);
    if lh < rh then -1 else if lh > rh then 1
    else if Less(l, r) then -1 else if Less(r, l) then 1 else 0
  }

  /** The comparator is a total order in which only equal names are equal, so that a tree sorted by it
   *  is a set of names. */
  lemma CompareIsOrder(a: string, b: string, c: string)
    ensures Compare(a, b) == 0 <==> a == b
    ensures Compare(a, b) == -Compare(b, a)
    ensures Compare(a, b) < 0 && Compare(b, c) < 0 ==> Compare(a, c) < 0
  {
    LessTotal(a, b);
    LessIrreflexive(a);
    if Less(a, b) && Less(b, a) {
      LessTransitive(a, b, a);
    }
    if Less(a, b) && Less(b, c) {
      LessTransitive(a, b, c);
      LessAsymmetric(a, c);
    }
  }

  lemma LessAsymmetric(a: string, b: string)
    ensures !(Less(a, b) && Less(b, a))
  {
    if Less(a, b) && Less(b, a) {
      LessTransitive(a, b, a);
      LessIrreflexive(a);
    }
  }

  /** The one line that a command is answered with carries its key and path. */
  predicate Answers(line: Line, command: Command) {
    match command
    case Watch(key, path) =>
      && line.Response? && line.key == key && line.path == path
      && line.cause in {AlreadyWatching, StatFailed, AssociateFailed, Started}
    case Unwatch(key, path) =>
      && line.Response? && line.key == key && line.path == path
      && line.cause in {NotWatching, DissociateFailed, NoLongerWatching}
    case StatusOf(key) => line.Status? && line.key == key
    case Other(key) => line == ErrorLine(key, UnknownCommand)
    case Reserved => line == ErrorLine(SYSTEM_KEY, InvalidKey)
    case Malformed => line == ErrorLine(SYSTEM_KEY, InvalidCommand)
  }

  /** The lines that answer commands, in order; the others report events. */
  function Replies(out: seq<Line>): seq<Line> {
    if out == [] then [] else
    var rest, last := Replies(out[..|out| - 1]), out[|out| - 1];
    if last.EventLine? || last.CannotAssociate? then rest else rest + [last]
  }

  // ---- what the outside's answers lead to ----

  const NO_ANSWER := Answer([], None, false, false, false, 0, 0, "")

  function NextAnswer(script: seq<Answer>): Answer {
    if script == [] then NO_ANSWER else script[0]
  }

  function LaterAnswers(script: seq<Answer>): seq<Answer> {
    if script == [] then [] else script[1..]
  }

  /** The response to a first watch, by the results of stat(2) and port_associate(3C) */
  function ArmReply(key: nat, path: string, script: seq<Answer>): Line {
    if !NextAnswer(script).ok then Response(key, false, path, StatFailed)
    else if !NextAnswer(LaterAnswers(script)).ok then Response(key, false, path, AssociateFailed)
    else Response(key, true, path, Started)
  }

  /** The line that answers a command when these paths are under watch; a new watch calls malloc first. */
  function ReplyTo(command: Command, watched: set<string>, script: seq<Answer>): Line {
    match command
    case Watch(key, path) =>
      if path in watched then Response(key, true, path, AlreadyWatching) else ArmReply(key, path, LaterAnswers(script))
    case Unwatch(key, path) =>
      if path !in watched then Response(key, false, path, NotWatching)
      else if NextAnswer(script).ok then Response(key, true, path, NoLongerWatching)
      else Response(key, false, path, DissociateFailed)
    case StatusOf(key) => Status(key, watched)
    case Other(key) => ErrorLine(key, UnknownCommand)
    case Reserved => ErrorLine(SYSTEM_KEY, InvalidKey)
    case Malformed => ErrorLine(SYSTEM_KEY, InvalidCommand)
  }

  lemma ReplyAnswers(command: Command, watched: set<string>, script: seq<Answer>)
    ensures Answers(ReplyTo(command, watched, script), command)
  {
  }

  /** The lines that report an event on a watched path, by the results of the same two calls */
  function Report(path: string, revents: set<Flag>, script: seq<Answer>): seq<Line> {
    if !NextAnswer(script).ok || IsFinal(revents) then [EventLine(path, revents, true)]
    else if NextAnswer(LaterAnswers(script)).ok then [EventLine(path, revents, false)]
    else [EventLine(path, revents, false), CannotAssociate(path)]
  }

  /** The event is no reason to end the watch, and the association is renewed. */
  predicate Renews(revents: set<Flag>, script: seq<Answer>) {
    NextAnswer(script).ok && !IsFinal(revents) && NextAnswer(LaterAnswers(script)).ok
  }

  // ---- the program ----

  function WithoutNode(queue: seq<Event>, node: nat): seq<Event> {
    if queue == [] then [] else
    var rest, last := WithoutNode(queue[..|queue| - 1], node), queue[|queue| - 1];
    if last.node == node then rest else rest + [last]
  }

  lemma {:induction false} WithoutNodeKeeps(queue: seq<Event>, node: nat, e: Event)
    requires e in queue && e.node != node
    ensures e in WithoutNode(queue, node)
  {
    if e in queue[..|queue| - 1] {
      WithoutNodeKeeps(queue[..|queue| - 1], node, e);
    }
  }

  lemma {:induction false} WithoutNodeIsPart(queue: seq<Event>, node: nat)
    ensures forall e :: e in WithoutNode(queue, node) ==> e in queue
  {
    if queue != [] {
      WithoutNodeIsPart(queue[..|queue| - 1], node);
    }
  }

  lemma OthersStay(queue: seq<Event>, node: nat, t: TreeNode)
    requires t.node != node
    ensures InQueue(queue, t) <==> InQueue(WithoutNode(queue, node), t)
  {
    WithoutNodeIsPart(queue, node);
    if e :| e in queue && IsFor(e, t) {
      WithoutNodeKeeps(queue, node, e);
    }
  }

  lemma QueueSnoc(queue: seq<Event>, e: Event)
    ensures forall t :: InQueue(queue + [e], t) <==> InQueue(queue, t) || IsFor(e, t)
  {
    forall t ensures InQueue(queue + [e], t) <==> InQueue(queue, t) || IsFor(e, t) {
      assert e in queue + [e];
      if x :| x in queue && IsFor(x, t) {
        assert x in queue + [e];
      }
    }
  }

  lemma QueueWithout(queue: seq<Event>, i: nat)
    requires i < |queue|
    ensures var rest := queue[..i] + queue[i + 1..];
            && (forall e :: e in rest ==> e in queue)
            && forall t :: InQueue(queue, t) <==> InQueue(rest, t) || IsFor(queue[i], t)
  {
    var rest := queue[..i] + queue[i + 1..];
    assert queue == queue[..i] + [queue[i]] + queue[i + 1..];
    forall t ensures InQueue(queue, t) <==> InQueue(rest, t) || IsFor(queue[i], t) {
      if x :| x in queue && IsFor(x, t) {
        assert x == queue[i] || x in rest;
      }
    }
  }

  predicate IsFinal(revents: set<Flag>) {
    Delete in revents || RenameFrom in revents || Unmounted in revents || MountedOver in revents
  }

  /** An association of this node fires while the call is under way. */
  predicate FiresAt(a: Answer, node: nat) {
    exists i :: 0 <= i < |a.fires| && a.fires[i].node == node && a.fires[i].revents != {}
  }

  /** It fires, among the first n of these. */
  predicate FiresBy(a: Answer, n: nat, node: nat)
    requires n <= |a.fires|
  {
    exists i :: 0 <= i < n && a.fires[i].node == node && a.fires[i].revents != {}
  }

  /** The event carries the node's own name. */
  predicate IsFor(e: Event, t: TreeNode) {
    e.node == t.node && e.name == t.name
  }

  predicate InQueue(queue: seq<Event>, t: TreeNode) {
    exists e :: e in queue && IsFor(e, t)
  }

  /** The allocated names are those of the watched paths. */
  ghost predicate Named(tree: map<string, TreeNode>, names: map<nat, string>, nextName: nat) {
    && (forall p :: p in tree ==> tree[p].name in names && names[tree[p].name] == p)
    && (forall n :: n in names ==> names[n] in tree && tree[names[n]].name == n)
    && forall n :: n in names ==> n < nextName
  }

  ghost predicate Apart(tree: map<string, TreeNode>, next: nat) {
    && (forall p :: p in tree ==> tree[p].node < next)
    && (forall p, q :: p in tree && q in tree && p != q ==> tree[p].node != tree[q].node)
  }

  lemma NodeAdded(tree: map<string, TreeNode>, names: map<nat, string>, next: nat, nextName: nat, path: string,
                  node: nat, name: nat)
    requires Named(tree, names, nextName) && Apart(tree, next)
    requires path !in tree && name !in names && forall p :: p in tree ==> tree[p].node != node
    ensures Named(tree[path := TreeNode(node, name)], names[name := path], Beyond(nextName, name))
    ensures Apart(tree[path := TreeNode(node, name)], Beyond(next, node))
  {
  }

  lemma NodeRemoved(tree: map<string, TreeNode>, names: map<nat, string>, next: nat, nextName: nat, path: string)
    requires Named(tree, names, nextName) && Apart(tree, next) && path in tree
    ensures Named(tree - {path}, names - {tree[path].name}, nextName) && Apart(tree - {path}, next)
  {
  }

  // ---- where memory is given out ----

  /** malloc of a tree node: any place that no live node has, a freed one's included */
  function NodePlace(tree: map<string, TreeNode>, next: nat, wanted: nat): (node: nat)
    ensures Apart(tree, next) ==> forall p :: p in tree ==> tree[p].node != node
  {
    if exists p :: p in tree && tree[p].node == wanted then next else wanted
  }

  /** strdup of a path: any place that no live name has, a freed one's included */
  function NamePlace(names: map<nat, string>, nextName: nat, wanted: nat): (name: nat)
    ensures (forall n :: n in names ==> n < nextName) ==> name !in names
  {
    if wanted in names then nextName else wanted
  }

  function Beyond(next: nat, place: nat): nat {
    if place >= next then place + 1 else next
  }

  // ---- what the system calls do ----

  /** The associations with the names that they were given, the port's queue, and the event thread's
   *  port_event_t */
  datatype Kernel = Kernel(assoc: map<nat, nat>, queue: seq<Event>, pe: Option<Event>)

  /** An association fires once, and its event is queued with the pointer that it was given. */
  function Fired(k: Kernel, f: Fire): Kernel {
    if f.node in k.assoc && f.revents != {} then
      Kernel(k.assoc - {f.node}, k.queue + [Event(f.node, k.assoc[f.node], f.revents)], k.pe)
    else k
  }

  function AllFired(k: Kernel, fires: seq<Fire>): Kernel {
    if fires == [] then k else Fired(AllFired(k, fires[..|fires| - 1]), fires[|fires| - 1])
  }

  /** port_get returns a queued event if the event thread waits for one. */
  function Delivered(k: Kernel, i: nat): Kernel {
    if k.pe == None && i < |k.queue| then Kernel(k.assoc, k.queue[..i] + k.queue[i + 1..], Some(k.queue[i])) else k
  }

  /** Before a call returns */
  function Around(k: Kernel, a: Answer, waiting: bool): Kernel {
    var fired := AllFired(k, a.fires);
    if a.got.Some? && waiting then Delivered(fired, a.got.value) else fired
  }

  /** port_associate(3C): when it fails an earlier association may be gone. */
  function Associating(k: Kernel, a: Answer, waiting: bool, t: TreeNode): Kernel {
    var around := Around(k, a, waiting);
    around.(assoc := if a.ok then around.assoc[t.node := t.name] else if a.kept then around.assoc
                     else around.assoc - {t.node})
  }

  /** port_dissociate(3C): the association may go, and with it the events already queued for it. */
  function Dissociating(k: Kernel, a: Answer, node: nat): Kernel {
    var around := Around(k, a, true);
    Kernel(if a.kept then around.assoc else around.assoc - {node},
           if a.purged then WithoutNode(around.queue, node) else around.queue, around.pe)
  }

  // ---- what a command leads to ----

  datatype Store = Store(tree: map<string, TreeNode>, names: map<nat, string>, kernel: Kernel, script: seq<Answer>)

  function Destroyed(s: Store, path: string): Store
    requires path in s.tree
  {
    s.(tree := s.tree - {path}, names := s.names - {s.tree[path].name})
  }

  /** The first stat and port_associate for a path */
  function Arming(s: Store, path: string): Store
    requires path in s.tree
  {
    var a, later := NextAnswer(s.script), LaterAnswers(s.script);
    var s1 := s.(kernel := Around(s.kernel, a, true), script := later);
    if !a.ok then Destroyed(s1, path) else
    var b := NextAnswer(later);
    var s2 := s1.(kernel := Associating(s1.kernel, b, true, s.tree[path]), script := LaterAnswers(later));
    if b.ok then s2 else Destroyed(s2, path)
  }

  function Watching(s: Store, path: string, next: nat, nextName: nat): Store {
    if path in s.tree then s else
    var a := NextAnswer(s.script);
    var node, name := NodePlace(s.tree, next, a.node), NamePlace(s.names, nextName, a.name);
    Arming(Store(s.tree[path := TreeNode(node, name)], s.names[name := path], Around(s.kernel, a, true),
                 LaterAnswers(s.script)), path)
  }

  function Unwatching(s: Store, path: string): Store {
    if path !in s.tree then s else
    var a := NextAnswer(s.script);
    Destroyed(s.(kernel := Dissociating(s.kernel, a, s.tree[path].node), script := LaterAnswers(s.script)), path)
  }

  function AfterCommand(s: Store, command: Command, next: nat, nextName: nat): Store {
    match command
    case Watch(_, path) => Watching(s, path, next, nextName)
    case Unwatch(_, path) => Unwatching(s, path)
    case _ => s
  }

  class Watcher {
    // the program's state: the tree of watched files, the mutex, the event thread's port_event_t, and the
    // names that are allocated
    var tree: map<string, TreeNode>
    var holder: Option<Thread>
    var pe: Option<Event>
    var next: nat
    var names: map<nat, string>
    var nextName: nat
    /** The places of names that were freed, given out again or not */
    ghost var freed: set<nat>
    // the kernel's
    var assoc: map<nat, nat>
    var queue: seq<Event>
    // the outside
    var script: seq<Answer>
    var out: seq<Line>
    /** The watched paths whose events will not be noticed */
    ghost var lost: set<string>

    constructor (script: seq<Answer>)
      ensures Settled() && out == [] && lost == {} && View() == Store(map[], map[], Kernel(map[], [], None), script)
    {
      tree, holder, pe, next, names, nextName, freed := map[], None, None, 0, map[], 0, {};
      assoc, queue, this.script, out, lost := map[], [], script, [], {};
    }

    ghost function KernelView(): Kernel
      reads `assoc, `queue, `pe
    {
      Kernel(assoc, queue, pe)
    }

    ghost function View(): Store
      reads `tree, `names, `assoc, `queue, `pe, `script
    {
      Store(tree, names, KernelView(), script)
    }

    ghost predicate Associated(t: TreeNode)
      reads `assoc
    {
      t.node in assoc && assoc[t.node] == t.name
    }

    /** An event for this node with its name waits in the kernel's queue, or was taken from it and not
     *  handled yet. */
    ghost predicate Pending(t: TreeNode)
      reads `pe, `queue
    {
      (pe.Some? && IsFor(pe.value, t)) || InQueue(queue, t)
    }

    ghost predicate Covered(t: TreeNode)
      reads `assoc, `pe, `queue
    {
      Associated(t) || Pending(t)
    }

    /** The watched paths that are associated or have an event on the way are exactly those not lost; but
     *  for these. */
    ghost predicate CoveredBut(except: set<string>)
      reads `tree, `assoc, `pe, `queue, `lost
    {
      lost <= tree.Keys && forall path :: path in tree && path !in except ==> (Covered(tree[path]) <==> path !in lost)
    }

    /** A pointer to a name that was given out, and may have been freed since */
    ghost predicate Given(name: nat)
      reads `names, `freed
    {
      name in names || name in freed
    }

    ghost predicate WellFormed()
      reads `tree, `next, `queue, `pe, `assoc, `names, `nextName, `freed
    {
      && Named(tree, names, nextName) && Apart(tree, next)
      && (forall n :: n in assoc ==> Given(assoc[n]))
      && (forall e :: e in queue ==> e.revents != {} && Given(e.name))
      && (pe.Some? ==> pe.value.revents != {} && Given(pe.value.name))
    }

    /** What holds whenever the mutex is free. */
    ghost predicate Settled()
      reads this
    {
      holder == None && WellFormed() && CoveredBut({}) && Legal(out) && tree.Keys == Watched(out)
    }

    /** What a critical section keeps while it works on some paths. */
    ghost predicate Working(thread: Thread, except: set<string>)
      reads this
    {
      && holder == Some(thread) && WellFormed() && CoveredBut(except) && Legal(out)
      && (thread == EventThread ==> pe == None)
    }

    // ---- the kernel ----

    method FireOne(f: Fire)
      requires WellFormed()
      modifies `assoc, `queue
      ensures WellFormed() && KernelView() == Fired(old(KernelView()), f)
      ensures forall t :: Associated(t) <==> old(Associated(t)) && !(f.node == t.node && f.revents != {})
      ensures forall t :: Pending(t) <==> old(Pending(t)) || (old(Associated(t)) && f.node == t.node && f.revents != {})
    {
      hide Named, Apart, Given, InQueue;
      if f.node in assoc && f.revents != {} {
        var e := Event(f.node, assoc[f.node], f.revents);
        QueueSnoc(queue, e);
        queue := queue + [e];
        assoc := assoc - {f.node};
      }
    }

    method PortGet(i: nat)
      requires WellFormed() && holder != Some(EventThread)
      modifies `queue, `pe
      ensures WellFormed() && KernelView() == Delivered(old(KernelView()), i) && (forall t ::
        Pending(t) <==> old(Pending(t)))
    {
      hide Named, Apart, Given, InQueue, IsFor;
      if pe == None && i < |queue| {
        QueueWithout(queue, i);
        pe := Some(queue[i]);
        queue := queue[..i] + queue[i + 1..];
      }
    }

    /** What happens around the program before its next system call returns: whatever fires, no path is
     *  covered that was not, and none that was is not. */
    method Outside(ghost except: set<string>) returns (a: Answer)
      requires WellFormed() && CoveredBut(except) && (holder == Some(EventThread) ==> pe == None)
      modifies `assoc, `queue, `pe, `script
      ensures WellFormed() && CoveredBut(except) && (holder == Some(EventThread) ==> pe == None)
      ensures a == NextAnswer(old(script)) && script == LaterAnswers(old(script))
      ensures KernelView() == Around(old(KernelView()), a, holder != Some(EventThread))
      ensures forall t :: Associated(t) <==> old(Associated(t)) && !FiresAt(a, t.node)
      ensures forall t :: Pending(t) <==> old(Pending(t)) || (old(Associated(t)) && FiresAt(a, t.node))
    {
      hide WellFormed, Associated, Pending, Fired, Delivered, KernelView;
      if script == [] {
        return NO_ANSWER;
      }
      a := script[0];
      script := script[1..];
      ghost var rest := script;
      for i := 0 to |a.fires|
        invariant script == rest && WellFormed() && (holder == Some(EventThread) ==> pe == None)
        invariant KernelView() == AllFired(old(KernelView()), a.fires[..i])
        invariant forall t :: Associated(t) <==> old(Associated(t)) && !FiresBy(a, i, t.node)
        invariant forall t :: Pending(t) <==> old(Pending(t)) || (old(Associated(t)) && FiresBy(a, i, t.node))
      {
        assert a.fires[..i + 1][..i] == a.fires[..i];
        FireOne(a.fires[i]);
      }
      assert a.fires[..|a.fires|] == a.fires;
      if a.got.Some? && holder != Some(EventThread) {
        PortGet(a.got.value);
      }
    }

    /** stat(2), as far as it does not make the program abort */
    method Stat(ghost except: set<string>) returns (ok: bool)
      requires WellFormed() && CoveredBut(except) && (holder == Some(EventThread) ==> pe == None)
      modifies `assoc, `queue, `pe, `script
      ensures WellFormed() && CoveredBut(except) && (holder == Some(EventThread) ==> pe == None)
      ensures ok == NextAnswer(old(script)).ok && script == LaterAnswers(old(script))
      ensures KernelView() == Around(old(KernelView()), NextAnswer(old(script)), holder != Some(EventThread))
      ensures forall t :: Associated(t) <==> old(Associated(t)) && !FiresAt(NextAnswer(old(script)), t.node)
      ensures forall t ::
        Pending(t) <==> old(Pending(t)) || (old(Associated(t)) && FiresAt(NextAnswer(old(script)), t.node))
    {
      hide WellFormed, CoveredBut, Associated, Pending, FiresAt, Around, KernelView;
      var a := Outside(except);
      return a.ok;
    }

    /** port_associate(3C) on the file object of a path, with a pointer to a name */
    method PortAssociate(path: string, name: nat) returns (ok: bool)
      requires WellFormed() && CoveredBut({path}) && (holder == Some(EventThread) ==> pe == None)
      requires path in tree && Given(name)
      modifies `assoc, `queue, `pe, `script
      ensures WellFormed() && CoveredBut({path}) && (holder == Some(EventThread) ==> pe == None)
      ensures ok == NextAnswer(old(script)).ok && script == LaterAnswers(old(script))
      ensures KernelView() == Associating(old(KernelView()), NextAnswer(old(script)), holder != Some(EventThread),
                                      TreeNode(tree[path].node, name))
      ensures ok ==> (Associated(tree[path]) <==> name == tree[path].name)
      ensures var t := tree[path];
              Pending(t) <==> old(Pending(t)) || (old(Associated(t)) && FiresAt(NextAnswer(old(script)), t.node))
    {
      hide FiresAt, Named, Given, Pending, Around;
      var a := Outside({path});
      ok := a.ok;
      ghost var before := assoc;
      if ok {
        assoc := assoc[tree[path].node := name];
      } else if !a.kept {
        assoc := assoc - {tree[path].node};
      }
      OthersAreElsewhere(before, path);
    }

    /** Another path's association is at another node. */
    lemma OthersAreElsewhere(before: map<nat, nat>, path: string)
      requires WellFormed() && path in tree && forall n :: n != tree[path].node ==> (n in assoc <==> n in before)
      requires forall n :: n in assoc && n != tree[path].node ==> assoc[n] == before[n]
      ensures forall p :: p in tree && p != path ==>
        (Associated(tree[p]) <==> tree[p].node in before && before[tree[p].node] == tree[p].name)
    {
    }

    method PortDissociate(path: string) returns (ok: bool)
      requires WellFormed() && CoveredBut({}) && holder == Some(StdinThread) && path in tree
      modifies `assoc, `queue, `pe, `script
      ensures WellFormed() && CoveredBut({path})
      ensures ok == NextAnswer(old(script)).ok && script == LaterAnswers(old(script))
      ensures KernelView() == Dissociating(old(KernelView()), NextAnswer(old(script)), tree[path].node)
    {
      hide FiresAt, Named, Given, Pending, Around;
      var a := Outside({});
      ok := a.ok;
      ghost var before := assoc;
      if !a.kept {
        assoc := assoc - {tree[path].node};
      }
      OthersAreElsewhere(before, path);
      if a.purged {
        Purge(path);
      }
    }

    /** The queued events of a node are dropped. */
    method Purge(path: string)
      requires WellFormed() && CoveredBut({path}) && path in tree
      modifies `queue
      ensures WellFormed() && CoveredBut({path}) && queue == WithoutNode(old(queue), tree[path].node)
    {
      hide Named;
      WithoutNodeIsPart(queue, tree[path].node);
      ghost var rest := WithoutNode(queue, tree[path].node);
      forall t: TreeNode | t.node != tree[path].node ensures InQueue(queue, t) <==> InQueue(rest, t) {
        OthersStay(queue, tree[path].node, t);
      }
      queue := WithoutNode(queue, tree[path].node);
    }

    // ---- the program's functions ----

    method Print(line: Line)
      requires Legal(out) && MayFollow(Watched(out), line)
      modifies `out
      ensures Legal(out) && out == old(out) + [line] && Watched(out) == After(Watched(old(out)), line)
      ensures Replies(out)
           == if line.EventLine? || line.CannotAssociate? then Replies(old(out)) else Replies(old(out)) + [line]
    {
      LegalSnoc(out, line);
      out := out + [line];
    }

    /** add_handle: the node points at a copy of the path. */
    method AddHandle(path: string, node: nat, name: nat)
      requires WellFormed() && CoveredBut({}) && path !in tree && name !in names
      requires forall p :: p in tree ==> tree[p].node != node
      modifies `tree, `next, `names, `nextName
      ensures tree == old(tree)[path := TreeNode(node, name)] && names == old(names)[name := path]
      ensures WellFormed() && CoveredBut({path}) && path !in lost
    {
      hide Named, Apart;
      NodeAdded(tree, names, next, nextName, path, node, name);
      tree := tree[path := TreeNode(node, name)];
      names := names[name := path];
      next, nextName := Beyond(next, node), Beyond(nextName, name);
    }

    /** destroy_handle: the name is freed with the node. */
    method DestroyHandle(path: string)
      requires WellFormed() && CoveredBut({path}) && path in tree
      modifies `tree, `names, `freed, `lost
      ensures View() == Destroyed(old(View()), path) && WellFormed() && CoveredBut({}) && lost == old(lost) - {path}
      ensures freed == old(freed) + {old(tree[path].name)}
    {
      hide Named, Apart;
      NodeRemoved(tree, names, next, nextName, path);
      names := names - {tree[path].name};
      freed := freed + {tree[path].name};
      tree := tree - {path};
      lost := lost - {path};
    }

    /** check_and_rearm_event for the first watch of a path: revents is 0, and one response is printed. */
    method CheckAndArm(key: nat, path: string)
      requires Working(StdinThread, {path}) && path in tree && path !in lost
      requires tree.Keys - {path} == Watched(out) && path !in Watched(out)
      modifies this
      ensures Working(StdinThread, {}) && tree.Keys == Watched(out) && lost == old(lost) && old(freed) <= freed
      ensures out == old(out) + [ArmReply(key, path, old(script))]
      ensures View() == Arming(old(View()), path)
    {
      hide Legal, Watched, Replies, WellFormed, CoveredBut, Associated, Pending, FiresAt, Around, Associating;
      var accessible := Stat({path});
      if !accessible {
        Print(Response(key, false, path, StatFailed));
        DestroyHandle(path);
        return;
      }
      OwnName(path);
      var associated := PortAssociate(path, tree[path].name);
      if !associated {
        Print(Response(key, false, path, AssociateFailed));
        DestroyHandle(path);
        return;
      }
      NothingExcepted(path);
      Print(Response(key, true, path, Started));
    }

    lemma OwnName(path: string)
      requires WellFormed() && path in tree
      ensures Given(tree[path].name)
    {
    }

    /** The path that was left out is covered unless it is lost. */
    lemma NothingExcepted(path: string)
      requires CoveredBut({path}) && path in tree && (Covered(tree[path]) <==> path !in lost)
      ensures CoveredBut({})
    {
    }

    lemma LostAreWatched(except: set<string>)
      requires CoveredBut(except)
      ensures lost <= tree.Keys
    {
    }

    /** A name that is there reads as a watched path. */
    lemma LiveIsWatched(name: nat)
      requires WellFormed()
      ensures name in names <==> exists path :: path in tree && tree[path].name == name
      ensures name in names ==> names[name] in tree && tree[names[name]].name == name
    {
      if path :| path in tree && tree[path].name == name {
        assert name in names;
      }
    }

    lemma Ignoring(name: nat, path: string)
      requires CoveredBut(Owner(name)) && (name in names ==> names[name] == path)
      ensures CoveredBut({path}) && (name !in names && path in tree ==> (Covered(tree[path]) <==> path !in lost))
    {
    }

    /** A pointer is a path's own exactly if it reads as that path and is no freed one. */
    lemma OwnNameRead(name: nat, path: string)
      requires WellFormed() && path in tree && (name in names ==> names[name] == path)
      ensures name in names <==> name == tree[path].name
    {
    }

    /** What reading a name through a pointer gives: anything, while it is freed. */
    function ReadName(name: nat): string
      reads `names, `script
    {
      if name in names then names[name] else NextAnswer(script).garbage
    }

    /** The watched path whose name is there now, if any */
    ghost function Owner(name: nat): set<string>
      reads `names
    {
      if name in names then {names[name]} else {}
    }

    /** An event of this path waits to be handled before the event thread's next two system calls have
     *  returned. */
    ghost predicate StillPending(path: string)
      reads `tree, `assoc, `queue, `pe, `script
    {
      path in tree && (Pending(tree[path]) || (Associated(tree[path]) && var node := tree[path].node;
        FiresAt(NextAnswer(script), node) || FiresAt(NextAnswer(LaterAnswers(script)), node)))
    }

    /** The path whose association the handler renews under a freed name: its events will carry that name.
     *  It is lost unless an event with its own name is still to be handled. */
    ghost function Losing(name: nat, revents: set<Flag>): set<string>
      reads `tree, `assoc, `queue, `pe, `script, `names
    {
      var path := ReadName(name);
      if name !in names && path in tree && !StillPending(path) && Renews(revents, script) then {path} else {}
    }

    /** check_and_rearm_event for an event of the kernel, by the pointer that it carries */
    method CheckAndRearm(name: nat, revents: set<Flag>)
      requires Working(EventThread, Owner(name)) && Given(name) && revents != {} && tree.Keys == Watched(out)
      modifies this
      ensures Working(EventThread, {}) && tree.Keys == Watched(out)
      ensures var path := old(ReadName(name));
              out == if path in old(tree) then old(out) + Report(path, revents, old(script)) else old(out)
      ensures Replies(out) == Replies(old(out))
      ensures lost == (old(lost) - old(Owner(name)) + old(Losing(name, revents))) * tree.Keys && old(freed) <= freed
    {
      hide Legal, Watched, Replies, WellFormed, CoveredBut, Associated, Pending, FiresAt, Given, KernelView, Around;
      var path := ReadName(name);
      LiveIsWatched(name);
      if path !in tree {
        LostAreWatched({});
        return;
      }
      Ignoring(name, path);
      var accessible := Stat({path});
      var isFinal := !accessible || IsFinal(revents);
      if isFinal {
        Print(EventLine(path, revents, true));
        LostAreWatched({path});
        DestroyHandle(path);
        return;
      }
      Rearm(name, path, revents);
    }

    /** The rest of check_and_rearm_event, for a file that is there and an event that does not end its watch */
    method Rearm(name: nat, path: string, revents: set<Flag>)
      requires Working(EventThread, {path}) && path in tree && tree.Keys == Watched(out) && revents != {}
      requires Given(name) && (name in names ==> names[name] == path)
      requires name !in names ==> (Covered(tree[path]) <==> path !in lost)
      modifies this
      ensures Working(EventThread, {}) && tree.Keys == Watched(out) && old(freed) <= freed
      ensures var ok := NextAnswer(old(script)).ok;
              out == old(out) + if ok then [EventLine(path, revents, false)]
                                else [EventLine(path, revents, false), CannotAssociate(path)]
      ensures Replies(out) == Replies(old(out))
      ensures var a, t := NextAnswer(old(script)), old(tree[path]);
              var loses := name !in old(names) && a.ok && !old(Pending(t))
                && !(old(Associated(t)) && FiresAt(a, t.node));
              lost == (old(lost) - old(Owner(name)) + if loses then {path} else {}) * tree.Keys
    {
      hide Legal, Watched, Replies, WellFormed, CoveredBut;
      hide Associated, Pending, FiresAt, Given, KernelView, Associating;
      ghost var live := name in names;
      OwnNameRead(name, path);
      var associated := PortAssociate(path, name);
      Print(EventLine(path, revents, false));
      LostAreWatched({path});
      if !associated {
        Print(CannotAssociate(path));
        DestroyHandle(path);
        return;
      }
      Renewed(path, live);
    }

    /** What becomes of the path whose association was renewed: under its own name it is noticed again. */
    ghost method Renewed(path: string, live: bool)
      requires CoveredBut({path}) && path in tree && (Associated(tree[path]) <==> live)
      requires !live && Pending(tree[path]) ==> path !in lost
      modifies `lost
      ensures lost ==
        (if live then old(lost) - {path} else if Pending(tree[path]) then old(lost) else old(lost) + {path})
      ensures CoveredBut({})
    {
      if live {
        lost := lost - {path};
      } else if !Pending(tree[path]) {
        lost := lost + {path};
      }
    }

    /** malloc of the node and strdup of the path */
    method Malloc() returns (node: nat, name: nat)
      requires WellFormed() && CoveredBut({}) && holder == Some(StdinThread)
      modifies `assoc, `queue, `pe, `script
      ensures WellFormed() && CoveredBut({}) && name !in names && forall p :: p in tree ==> tree[p].node != node
      ensures node == NodePlace(tree, next, NextAnswer(old(script)).node)
      ensures name == NamePlace(names, nextName, NextAnswer(old(script)).name)
      ensures KernelView() == Around(old(KernelView()), NextAnswer(old(script)), true)
      ensures script == LaterAnswers(old(script))
    {
      var a := Outside({});
      return NodePlace(tree, next, a.node), NamePlace(names, nextName, a.name);
    }

    /** watch_path */
    method WatchPath(pathname: string, key: nat)
      requires Working(StdinThread, {}) && tree.Keys == Watched(out)
      modifies this
      ensures Working(StdinThread, {}) && tree.Keys == Watched(out)
      ensures lost == old(lost) * tree.Keys && old(freed) <= freed
      ensures out == old(out) + [ReplyTo(Watch(key, pathname), old(tree.Keys), old(script))]
      ensures View() == Watching(old(View()), pathname, old(next), old(nextName))
    {
      hide Legal, Watched, Replies, WellFormed, CoveredBut, Arming, Around, NodePlace, NamePlace;
      LostAreWatched({});
      if pathname in tree {
        Print(Response(key, true, pathname, AlreadyWatching));
        return;
      }
      var ftn, dupname := Malloc();
      AddHandle(pathname, ftn, dupname);
      CheckAndArm(key, pathname);
      LostAreWatched({});
    }

    /** unwatch_path */
    method UnwatchPath(pathname: string, key: nat)
      requires Working(StdinThread, {}) && tree.Keys == Watched(out)
      modifies this
      ensures Working(StdinThread, {}) && tree.Keys == Watched(out)
      ensures lost == old(lost) * tree.Keys && old(freed) <= freed
      ensures out == old(out) + [ReplyTo(Unwatch(key, pathname), old(tree.Keys), old(script))]
      ensures View() == Unwatching(old(View()), pathname)
    {
      hide Legal, Watched, Replies, WellFormed, CoveredBut, Dissociating;
      LostAreWatched({});
      if pathname !in tree {
        Print(Response(key, false, pathname, NotWatching));
        return;
      }
      var ret := PortDissociate(pathname);
      DestroyHandle(pathname);
      if !ret {
        Print(Response(key, false, pathname, DissociateFailed));
      } else {
        Print(Response(key, true, pathname, NoLongerWatching));
      }
    }

    /** process_stdin_line: one line is answered with exactly one line. */
    method ProcessStdinLine(str: string)
      requires Working(StdinThread, {}) && tree.Keys == Watched(out)
      modifies this
      ensures Working(StdinThread, {}) && tree.Keys == Watched(out)
      ensures lost == old(lost) * tree.Keys && old(freed) <= freed
      ensures out == old(out) + [ReplyTo(Parse(str), old(tree.Keys), old(script))]
      ensures View() == AfterCommand(old(View()), Parse(str), old(next), old(nextName))
    {
      hide Legal, Watched, Replies, WellFormed, CoveredBut, Watching, Unwatching;
      LostAreWatched({});
      if |str| > MAX_CMD_LEN {
        Print(ErrorLine(SYSTEM_KEY, InvalidCommand));
        return;
      }
      var (res, key, cmd, path) := Scan(str);
      if !(res == 2 || res == 3) {
        Print(ErrorLine(SYSTEM_KEY, InvalidCommand));
        return;
      }
      if key == SYSTEM_KEY {
        Print(ErrorLine(SYSTEM_KEY, InvalidKey));
        return;
      }
      if cmd == "UNWATCH" {
        if path == "" {
          Print(ErrorLine(SYSTEM_KEY, InvalidCommand));
          return;
        }
        UnwatchPath(path, key);
      } else if cmd == "WATCH" {
        if path == "" {
          Print(ErrorLine(SYSTEM_KEY, InvalidCommand));
          return;
        }
        WatchPath(path, key);
      } else if cmd == "STATUS" {
        if path != "" {
          Print(ErrorLine(SYSTEM_KEY, InvalidCommand));
          return;
        }
        Print(Status(key, tree.Keys));
      } else {
        Print(ErrorLine(key, UnknownCommand));
      }
    }

    /** The stdin thread's loop body: no path is lost by it. */
    method StdinTurn(str: string)
      requires Settled()
      modifies this
      ensures Settled() && lost == old(lost) * tree.Keys && old(freed) <= freed
      ensures out == old(out) + [ReplyTo(Parse(str), old(tree.Keys), old(script))]
      ensures View() == AfterCommand(old(View()), Parse(str), old(next), old(nextName))
    {
      hide Legal, Watched, Replies, WellFormed, CoveredBut, AfterCommand;
      holder := Some(StdinThread);
      ProcessStdinLine(str);
      holder := None;
    }

    /** The event that port_get returned: until it is handled, the path whose name it carries may be
     *  uncovered; there is none if the name is freed. */
    method TakeEvent() returns (e: Event)
      requires WellFormed() && CoveredBut({}) && pe.Some?
      modifies `pe
      ensures WellFormed() && pe == None && e == old(pe.value) && e.revents != {} && Given(e.name)
      ensures CoveredBut(Owner(e.name))
      ensures forall p :: p in tree && p !in Owner(e.name) ==> (Pending(tree[p]) <==> old(Pending(tree[p])))
    {
      e := pe.value;
      pe := None;
    }

    /** The event thread's loop body, once port_get has returned an event. The name that the event carries
     *  is that of a watched path, or freed memory is read. All that this can do to the watches is that
     *  the path which freed memory reads as is lost, and that a lost path whose name lies where the
     *  event's did is noticed again. */
    method EventTurn()
      requires Settled() && pe.Some?
      modifies this
      ensures Settled() && Replies(out) == Replies(old(out))
      ensures var name := old(pe.value.name);
              && (name !in old(names) ==> name in old(freed))
              && (name in old(names) <==> exists path :: path in old(tree) && old(tree[path].name) == name)
      ensures var e, path := old(pe.value), old(ReadName(pe.value.name));
              out == if path in old(tree) then old(out) + Report(path, e.revents, old(script)) else old(out)
      ensures var e := old(pe.value);
              lost == (old(lost) - old(Owner(pe.value.name)) + old(Losing(pe.value.name, pe.value.revents))) * tree.Keys
      ensures old(freed) <= freed
    {
      hide Legal, Watched, Replies, WellFormed, CoveredBut, Associated, Pending, FiresAt, Renews;
      LiveIsWatched(pe.value.name);
      ghost var name, path := pe.value.name, ReadName(pe.value.name);
      holder := Some(EventThread);
      var e := TakeEvent();
      assert name in names || (StillPending(path) <==> old(StillPending(path)));
      CheckAndRearm(e.name, e.revents);
      holder := None;
    }

    /** Any run: lines of input and handled events in any order, with the kernel at work in between and
     *  within. Whenever the mutex is free the tree is what the output says is under watch, a watched path
     *  is covered exactly if it is not lost, and the commands have been answered one by one. A path is
     *  only lost by an event whose name was freed. */
    method Run(turns: seq<Turn>)
      requires Settled() && out == [] && lost == {}
      modifies this
      ensures Settled() && AllAnswered(Replies(out), Lines(turns))
      ensures lost != {} ==> freed != {}
    {
      hide AllAnswered, Replies, Parse, ReplyTo, Report, Legal, Watched, CoveredBut, WellFormed, StillPending, Renews;
      hide Around, AfterCommand;
      NothingAsked();
      for i := 0 to |turns|
        invariant Settled() && AllAnswered(Replies(out), Lines(turns[..i])) && (lost != {} ==> freed != {})
      {
        assert turns[..i + 1][..i] == turns[..i];
        var _ := Outside({});
        match turns[i]
        case Input(str) =>
          TurnAnswered(out, str, tree.Keys, script, Lines(turns[..i]));
          StdinTurn(str);
        case Handle =>
          if pe.Some? {
            EventTurn();
          }
      }
      assert turns[..|turns|] == turns;
    }
  }

  // ---- a run in which a watch is lost ----

  /** A call that succeeds with nothing around it; memory is given out at a place, and freed memory reads
   *  as a text. */
  function Plainly(place: nat, text: string): Answer {
    Answer([], None, true, false, false, place, place, text)
  }

  /** The association at a node fires, and port_get returns its event. */
  function Firing(node: nat): Answer {
    Answer([Fire(node, {Modified})], Some(0), true, false, false, 0, 0, "")
  }

  /** The answers to two watches, an event for the first, an unwatch of it, and the handling of the event */
  function LosingScript(b: string): seq<Answer> {
    var p, q := Plainly(0, b), Plainly(1, b);
    [p, p, p, p, q, q, q, q, Firing(0), p, p, p, p]
  }

  lemma PlainlyAround(k: Kernel, place: nat, text: string, waiting: bool)
    ensures Around(k, Plainly(place, text), waiting) == k
  {
  }

  lemma FiringAround(k: Kernel, node: nat)
    requires node in k.assoc && k.queue == [] && k.pe == None
    ensures Around(k, Firing(node), true)
         == Kernel(k.assoc - {node}, [], Some(Event(node, k.assoc[node], {Modified})))
  {
    var f := Fire(node, {Modified});
    assert [f][..0] == [];
    assert AllFired(k, [f]) == Fired(k, f);
    assert Fired(k, f).queue == [Event(node, k.assoc[node], {Modified})];
  }

  lemma WatchedPlainly(s: Store, key: nat, path: string, place: nat, text: string, next: nat, nextName: nat)
    requires |s.script| >= 3 && forall i :: 0 <= i < 3 ==> s.script[i] == Plainly(place, text)
    requires path !in s.tree && place !in s.names && forall p :: p in s.tree ==> s.tree[p].node != place
    ensures Watching(s, path, next, nextName)
         == Store(s.tree[path := TreeNode(place, place)], s.names[place := path],
                  s.kernel.(assoc := s.kernel.assoc[place := place]), s.script[3..])
    ensures ReplyTo(Watch(key, path), s.tree.Keys, s.script) == Response(key, true, path, Started)
  {
    hide Around;
    PlainlyAround(s.kernel, place, text, true);
    assert s.script[1..][1..] == s.script[2..] && s.script[2..][1..] == s.script[3..];
  }

  lemma UnwatchedPlainly(s: Store, key: nat, path: string, place: nat, text: string)
    requires |s.script| >= 1 && s.script[0] == Plainly(place, text) && path in s.tree
    ensures Unwatching(s, path)
         == Store(s.tree - {path}, s.names - {s.tree[path].name},
                  s.kernel.(assoc := s.kernel.assoc - {s.tree[path].node}), s.script[1..])
    ensures ReplyTo(Unwatch(key, path), s.tree.Keys, s.script) == Response(key, true, path, NoLongerWatching)
  {
    hide Around;
    PlainlyAround(s.kernel, place, text, true);
  }

  /** A turn of a run in which a path is watched, with nothing around it */
  method WatchTurn(w: Watcher, path: string, place: nat, text: string)
    requires w.Settled() && w.lost == {} && Fits(1, "WATCH", path)
    requires |w.script| >= 4 && forall i :: 0 <= i < 4 ==> w.script[i] == Plainly(place, text)
    requires path !in w.tree && place !in w.names && forall p :: p in w.tree ==> w.tree[p].node != place
    modifies w
    ensures w.Settled() && w.lost == {} && w.out == old(w.out) + [Response(1, true, path, Started)]
    ensures w.View() == Store(old(w.tree)[path := TreeNode(place, place)], old(w.names)[place := path],
                              Kernel(old(w.assoc)[place := place], old(w.queue), old(w.pe)), old(w.script)[4..])
  {
    hide Legal, Watched, Replies, Named, Apart, Parse, Around, Watching, ReplyTo, Fits;
    PlainlyAround(w.KernelView(), place, text, true);
    var _ := w.Outside({});
    assert forall i :: 0 <= i < 3 ==> w.script[i] == old(w.script)[i + 1];
    WatchedPlainly(w.View(), 1, path, place, text, w.next, w.nextName);
    PathLineParses(1, "WATCH", path);
    w.StdinTurn(PathLine(1, "WATCH", path));
  }

  method TwoWatched(a: string, b: string) returns (w: Watcher)
    requires a != b && Fits(1, "WATCH", a) && Fits(1, "WATCH", b)
    ensures fresh(w) && w.Settled() && w.lost == {}
    ensures w.out == [Response(1, true, a, Started), Response(1, true, b, Started)]
    ensures w.View() == Store(map[a := TreeNode(0, 0), b := TreeNode(1, 1)], map[0 := a, 1 := b],
                              Kernel(map[0 := 0, 1 := 1], [], None), LosingScript(b)[8..])
  {
    hide Watcher.Settled, Fits;
    w := new Watcher(LosingScript(b));
    WatchTurn(w, a, 0, b);
    WatchTurn(w, b, 1, b);
  }

  /** A turn in which a path is no longer watched, after its own event was taken */
  method UnwatchTurn(w: Watcher, path: string, text: string)
    requires w.Settled() && w.lost == {} && Fits(1, "UNWATCH", path) && path in w.tree
    requires w.queue == [] && w.pe == None && w.tree[path].node in w.assoc
    requires |w.script| >= 2 && w.script[0] == Firing(w.tree[path].node) && w.script[1] == Plainly(0, text)
    modifies w
    ensures w.Settled() && w.lost == {} && w.out == old(w.out) + [Response(1, true, path, NoLongerWatching)]
    ensures var t := old(w.tree[path]);
            w.View() == Store(old(w.tree) - {path}, old(w.names) - {t.name},
                              Kernel(old(w.assoc) - {t.node}, [],
                                     Some(Event(t.node, old(w.assoc)[t.node], {Modified}))),
                              old(w.script)[2..])
  {
    hide Legal, Watched, Watcher.WellFormed, Watcher.CoveredBut, Parse, Around, Unwatching, ReplyTo, Fits;
    FiringAround(w.KernelView(), w.tree[path].node);
    var _ := w.Outside({});
    UnwatchedPlainly(w.View(), 1, path, 0, text);
    PathLineParses(1, "UNWATCH", path);
    w.StdinTurn(PathLine(1, "UNWATCH", path));
  }

  /** The turns before the last: a watched, b watched, the event for a taken, and a unwatched. The event
   *  that the event thread holds points at a's name, which is freed. */
  method FreedNameTaken(a: string, b: string) returns (w: Watcher)
    requires a != b && Fits(1, "WATCH", a) && Fits(1, "UNWATCH", a) && Fits(1, "WATCH", b)
    ensures fresh(w) && w.Settled() && w.lost == {} && w.out == LosingReplies(a, b)
    ensures w.View() == Store(map[b := TreeNode(1, 1)], map[1 := b],
                              Kernel(map[1 := 1], [], Some(Event(0, 0, {Modified}))), LosingScript(b)[10..])
  {
    hide Watcher.Settled, Fits, LosingScript, Plainly, Firing, LosingReplies;
    w := TwoWatched(a, b);
    LastAnswers(b);
    OneLeft(a, TreeNode(0, 0), b, TreeNode(1, 1));
    OneLeft(0, a, 1, b);
    OneLeft(0, 0, 1, 1);
    UnwatchTurn(w, a, b);
    assert w.out == LosingReplies(a, b) by { SameReplies(a, b); }
  }

  lemma SameReplies(a: string, b: string)
    ensures [Response(1, true, a, Started), Response(1, true, b, Started)] + [Response(1, true, a, NoLongerWatching)]
         == LosingReplies(a, b)
  {
  }

  lemma LastAnswers(b: string)
    ensures var last := LosingScript(b)[8..];
            |last| >= 2 && last[0] == Firing(0) && last[1] == Plainly(0, b) && last[2..] == LosingScript(b)[10..]
  {
  }

  lemma OneLeft<K, V>(k: K, v: V, l: K, w: V)
    requires k != l
    ensures map[k := v, l := w] - {k} == map[l := w]
  {
  }

  function LosingReplies(a: string, b: string): seq<Line> {
    [Response(1, true, a, Started), Response(1, true, b, Started), Response(1, true, a, NoLongerWatching)]
  }

  /** The freed name reads as b, so that b's association is renewed under it: for any two paths that can be
   *  named in a command, b is still watched after this run, but its events will not be noticed. */
  method FreedNameLosesAWatch(a: string, b: string) returns (w: Watcher)
    requires a != b && Fits(1, "WATCH", a) && Fits(1, "UNWATCH", a) && Fits(1, "WATCH", b)
    ensures fresh(w) && w.Settled() && w.tree.Keys == {b} && w.lost == {b}
    ensures w.out == LosingReplies(a, b) + [EventLine(b, {Modified}, false)]
  {
    hide Legal, Watched, Replies, Named, Apart, Around, Fits, LosingReplies;
    w := FreedNameTaken(a, b);
    PlainlyAround(w.KernelView(), 0, b, true);
    var _ := w.Outside({});
    ghost var t := w.tree[b];
    assert !w.Pending(t) && !w.StillPending(b);
    assert w.Losing(0, {Modified}) == {b};
    StillWatched(w.out, b, {Modified});
    w.EventTurn();
  }

  lemma StillWatched(out: seq<Line>, path: string, revents: set<Flag>)
    ensures Watched(out + [EventLine(path, revents, false)]) == Watched(out)
  {
    var line := EventLine(path, revents, false);
    assert (out + [line])[..|out|] == out;
  }

  /** Which thread takes the mutex next, and what for */
  datatype Turn = Input(str: string) | Handle

  function Lines(turns: seq<Turn>): seq<string> {
    if turns == [] then [] else
    var rest := Lines(turns[..|turns| - 1]);
    match turns[|turns| - 1]
    case Input(str) => rest + [str]
    case Handle => rest
  }

  predicate AllAnswered(replies: seq<Line>, lines: seq<string>) {
    |replies| == |lines| && forall i :: 0 <= i < |lines| ==> Answers(replies[i], Parse(lines[i]))
  }

  lemma NothingAsked()
    ensures AllAnswered(Replies([]), [])
  {
  }

  /** The answer to one more line of input, behind the answers to those before */
  lemma TurnAnswered(out: seq<Line>, str: string, watched: set<string>, script: seq<Answer>, lines: seq<string>)
    requires AllAnswered(Replies(out), lines)
    ensures AllAnswered(Replies(out + [ReplyTo(Parse(str), watched, script)]), lines + [str])
  {
    hide Parse, ReplyTo;
    var command := Parse(str);
    var line := ReplyTo(command, watched, script);
    ReplyAnswers(command, watched, script);
    assert !line.EventLine? && !line.CannotAssociate?;
    hide Answers;
    assert (out + [line])[..|out|] == out;
  }
}
