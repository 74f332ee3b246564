/** The metadata protocol client: requests, replies in either version of the protocol, and the reset
 *  that negotiates the version over a new connection.
 */
module Proto {
  import opened Dynstr
  import opened FrameV2
  import opened Numerals
  import opened Options
  import opened Platform
  import opened Words

  datatype State = MessageHeader | MessageData | MessageV2 | Ready | Error

  datatype Response = Unknown | NotFound | Success | InvalidCommand | Pending | V2Ok

  // ---- what counts as a reply ----

  /** A frame for the request with this id; max is ULONG_MAX. */
  predicate Answers(line: string, id: string, max: nat) {
    ParseFrame(line, max).verdict == Accepted && ParseFrame(line, max).id == id
  }

  function CodeOf(command: string): Response {
    if command == "NOTFOUND" then NotFound else if command == "SUCCESS" then Success else Unknown
  }

  /** Version 2: the last line is the first frame for the request, and the response is its. */
  predicate IsReplyV2(lines: seq<string>, id: string, max: nat, response: Response, data: string) {
    && lines != []
    && Answers(Last(lines), id, max)
    && (forall i :: 0 <= i < |lines| - 1 ==> !Answers(lines[i], id, max))
    && response == CodeOf(ParseFrame(Last(lines), max).command)
    && data == ParseFrame(Last(lines), max).data
  }

  function Last(lines: seq<string>): string
    requires lines != []
  {
    lines[|lines| - 1]
  }

  function HeaderResponse(line: string): Response {
    if line == "NOTFOUND" then NotFound
    else if line == "V2_OK" then V2Ok
    else if line == "invalid command" then InvalidCommand
    else Unknown
  }

  /** Version 1: one header line, or SUCCESS, lines of data, and a full stop on its own. */
  predicate IsReplyV1(lines: seq<string>, response: Response, data: string) {
    && lines != []
    && if lines[0] != "SUCCESS" then
         && |lines| == 1
         && response == HeaderResponse(lines[0])
         && data == if response == Unknown then lines[0] else ""
       else
         && |lines| > 1
         && Last(lines) == "."
         && "." !in lines[1..|lines| - 1]
         && response == Success
         && data == DataText(lines[1..|lines| - 1])
  }

  /** A leading full stop is removed from a line of data. */
  function Unescape(line: string): string {
    if line != "" && line[0] == '.' then line[1..] else line
  }

  /** The data that lines stand for; empty lines before the first other one leave no trace. */
  function DataText(lines: seq<string>): string {
    if lines == [] then ""
    else if Unescape(lines[0]) == "" then DataText(lines[1..])
    else Unescape(lines[0]) + Continued(lines[1..])
  }

  /** Every further line is set off with a newline. */
  function Continued(lines: seq<string>): string {
    if lines == [] then "" else "\n" + Unescape(lines[0]) + Continued(lines[1..])
  }

  lemma {:induction false} ContinuedSnoc(lines: seq<string>, line: string)
    ensures Continued(lines + [line]) == Continued(lines) + ("\n" + Unescape(line))
  {
    if lines == [] {
      assert [line][1..] == [];
    } else {
      assert (lines + [line])[1..] == lines[1..] + [line];
      ContinuedSnoc(lines[1..], line);
    }
  }

  /** One more line of data */
  lemma {:induction false} DataSnoc(lines: seq<string>, line: string)
    ensures DataText(lines + [line])
         == if DataText(lines) == "" then Unescape(line) else DataText(lines) + ("\n" + Unescape(line))
  {
    if lines == [] {
      assert [line][1..] == [];
    } else {
      assert (lines + [line])[1..] == lines[1..] + [line];
      DataSnoc(lines[1..], line);
      ContinuedSnoc(lines[1..], line);
    }
  }

  /** The lines of data as they were before they were escaped, a newline between any two. */
  function Joined(lines: seq<string>): string {
    if lines == [] then "" else Unescape(lines[0]) + Continued(lines[1..])
  }

  lemma {:induction false} DataIsNotLonger(lines: seq<string>)
    ensures |DataText(lines)| <= |Joined(lines)|
  {
    if lines != [] && Unescape(lines[0]) == "" {
      DataIsNotLonger(lines[1..]);
    }
  }

  /** What is collected are the lines that were sent, unless there are several and the first is empty. */
  lemma DataIsJoined(lines: seq<string>)
    ensures DataText(lines) == Joined(lines) <==> |lines| <= 1 || Unescape(lines[0]) != ""
  {
    if lines != [] && Unescape(lines[0]) == "" {
      DataIsNotLonger(lines[1..]);
    }
  }

  predicate IsReply(version: Version, lines: seq<string>, id: string, max: nat, response: Response, data: string) {
    if version == Version1 then IsReplyV1(lines, response, data) else IsReplyV2(lines, id, max, response, data)
  }

  /** How far the lines received since the request have brought the client. */
  predicate Progress(version: Version, state: State, lines: seq<string>, id: string, max: nat,
                     response: Response, data: string, done: bool)
  {
    if done then state == Ready && IsReply(version, lines, id, max, response, data)
    else if version == Version2 then
      state == MessageV2 && forall i :: 0 <= i < |lines| ==> !Answers(lines[i], id, max)
    else if lines == [] then state == MessageHeader && data == ""
    else
      && state == MessageData && lines[0] == "SUCCESS" && response == Success
      && "." !in lines[1..] && data == DataText(lines[1..])
  }

  lemma FrameDropped(lines: seq<string>, line: string, id: string, max: nat, r: Response, d: string, r': Response,
                     d': string)
    requires Progress(Version2, MessageV2, lines, id, max, r, d, false) && !Answers(line, id, max)
    ensures Progress(Version2, MessageV2, lines + [line], id, max, r', d', false)
  {
  }

  lemma FrameTaken(lines: seq<string>, line: string, id: string, max: nat, r: Response, d: string)
    requires Progress(Version2, MessageV2, lines, id, max, r, d, false) && Answers(line, id, max)
    ensures var f := ParseFrame(line, max);
            Progress(Version2, Ready, lines + [line], id, max, CodeOf(f.command), f.data, true)
  {
  }

  lemma NothingRead(id: string, max: nat, r: Response, d: string)
    requires Progress(Version1, MessageHeader, [], id, max, r, d, false)
    ensures d == ""
  {
  }

  /** What the header line alone leads to */
  lemma HeaderTaken(line: string, id: string, max: nat)
    ensures line == "SUCCESS" ==> Progress(Version1, MessageData, [line], id, max, Success, "", false)
    ensures line != "SUCCESS" ==>
              var r := HeaderResponse(line);
              Progress(Version1, Ready, [line], id, max, r, if r == Unknown then line else "", true)
  {
    assert [line][1..] == [];
  }

  lemma DataTaken(lines: seq<string>, line: string, id: string, max: nat, r: Response, d: string)
    requires lines != [] && line != "." && Progress(Version1, MessageData, lines, id, max, r, d, false)
    ensures Progress(Version1, MessageData, lines + [line], id, max, r,
                     if d == "" then Unescape(line) else d + ("\n" + Unescape(line)), false)
  {
    assert (lines + [line])[1..] == lines[1..] + [line];
    DataSnoc(lines[1..], line);
  }

  lemma DataEnds(lines: seq<string>, id: string, max: nat, r: Response, d: string)
    requires lines != [] && Progress(Version1, MessageData, lines, id, max, r, d, false)
    ensures Progress(Version1, Ready, lines + ["."], id, max, r, d, true)
  {
    assert (lines + ["."])[1..|lines|] == lines[1..];
  }

  // ---- where the code runs into undefined behaviour ----

  /** Why a run ends before its time: a text was copied past the end of its buffer, or the text of a
   *  buffer that was never allocated was read. */
  datatype Fault = NoFault | Overrun | NullLine

  /** What process_input appends for a line, in the states of version 1 */
  function AppendedText(state: State, line: string): seq<string> {
    if state == MessageHeader && line != "SUCCESS" && HeaderResponse(line) == Unknown then [line]
    else if state == MessageData && line != "." then [Unescape(line)]
    else []
  }

  /** The first text that the lines received since a request in version 1 have appended, if any */
  function FirstText(lines: seq<string>): seq<string> {
    if lines == [] then []
    else if lines[0] != "SUCCESS" then AppendedText(MessageHeader, lines[0])
    else if |lines| == 1 then []
    else AppendedText(MessageData, lines[1])
  }

  lemma FirstTextSnoc(state: State, lines: seq<string>, line: string, id: string, max: nat, r: Response, d: string)
    requires Progress(Version1, state, lines, id, max, r, d, false)
    ensures FirstText(lines + [line]) ==
      if FirstText(lines) == [] then AppendedText(state, line) else FirstText(lines)
  {
  }

  /** The length of a chunk: what a buffer that was not allocated cannot hold */
  predicate FillsChunk(text: string) {
    IsDoubled(|text|, STRING_CHUNK_SIZE)
  }

  predicate SomeFills(texts: seq<string>) {
    exists i :: 0 <= i < |texts| && FillsChunk(texts[i])
  }

  /** The fault after texts (one, or none) were appended to a buffer that was, or was not, allocated */
  predicate Judged(fault: Fault, unallocated: bool, texts: seq<string>) {
    fault == if unallocated && SomeFills(texts) then Overrun else NoFault
  }

  lemma OneFills(text: string)
    ensures SomeFills([text]) <==> FillsChunk(text)
  {
    assert [text][0] == text;
  }

  lemma NothingFills()
    ensures !SomeFills([]) && !SomeFills([""])
  {
  }

  /** The fault that the lines received after a request lead to */
  function FaultOf(bare: bool, lines: seq<string>): Fault {
    if lines != [] && lines[0] == "" then NullLine
    else if bare && SomeFills(FirstText(lines)) then Overrun
    else NoFault
  }

  /** What was received stays the reason, whatever comes later. */
  lemma FaultStays(bare: bool, lines: seq<string>, more: seq<string>)
    requires lines <= more && FaultOf(bare, lines) != NoFault
    ensures FaultOf(bare, more) == FaultOf(bare, lines)
  {
    NothingFills();
    assert lines != [] && more[0] == lines[0];
    if |lines| > 1 {
      assert more[1] == lines[1];
    }
  }

  /** A finished reply has shown its first text, if it has any. */
  lemma ReplyShows(version: Version, bare: bool, lines: seq<string>, id: string, max: nat, r: Response, d: string,
                   more: seq<string>)
    requires IsReply(version, lines, id, max, r, d) && lines <= more && (bare ==> version == Version1)
    ensures FaultOf(bare, more) == FaultOf(bare, lines)
  {
    assert more[0] == lines[0];
    if |lines| > 1 {
      assert more[1] == lines[1];
    }
  }

  /** These lines come next. */
  predicate Receives(script: seq<Answer>, lines: seq<string>) {
    |lines| <= |script| && forall i :: 0 <= i < |lines| ==> script[i].ok && script[i].line == lines[i]
  }

  /** After these lines, none comes. */
  predicate Dries(script: seq<Answer>, lines: seq<string>) {
    Receives(script, lines) && (|lines| < |script| ==> !script[|lines|].ok)
  }

  /** These lines come next, and then these answers are left. */
  predicate Course(script: seq<Answer>, lines: seq<string>, rest: seq<Answer>) {
    Receives(script, lines) && rest == script[|lines|..]
  }

  lemma CourseStarts(script: seq<Answer>, bare: bool)
    ensures Course(script, [], script) && FaultOf(bare, []) == NoFault
  {
    NothingFills();
  }

  lemma CourseSnoc(script: seq<Answer>, lines: seq<string>, rest: seq<Answer>)
    requires Course(script, lines, rest)
    ensures var a := NextAnswer(rest);
            if a.ok then Course(script, lines + [a.line], LaterAnswers(rest)) else Dries(script, lines)
  {
  }

  /** Of two courses that the next answers take, one continues the other. */
  lemma OneCourse(script: seq<Answer>, a: seq<string>, b: seq<string>)
    requires Receives(script, a) && Receives(script, b) && |a| <= |b|
    ensures a <= b
  {
  }

  /** The request is sent, and these lines come. */
  predicate Replied(script: seq<Answer>, lines: seq<string>) {
    script != [] && script[0].ok && Receives(script[1..], lines)
  }

  /** If the lines that come after the request lead to a fault, this is it. */
  ghost predicate Foretold(bare: bool, script: seq<Answer>, fault: Fault) {
    forall lines :: Replied(script, lines) && FaultOf(bare, lines) != NoFault ==> fault == FaultOf(bare, lines)
  }

  predicate Opens(script: seq<Answer>) {
    script != [] && script[0].ok
  }

  /** When no fault was foretold, whatever comes of it later was not excluded. */
  lemma NothingForetold(bare: bool, script: seq<Answer>)
    requires Foretold(bare, script, NoFault)
    ensures forall fault :: Foretold(bare, script, fault)
  {
  }

  lemma NotSent(bare: bool, script: seq<Answer>, fault: Fault)
    requires !NextAnswer(script).ok
    ensures Foretold(bare, script, fault)
  {
  }

  /** The lines that were received tell the fault, when no more come, or a fault or a reply ended them. */
  lemma ReceivedForetells(version: Version, bare: bool, script: seq<Answer>, lines: seq<string>, rest: seq<Answer>,
                          id: string, max: nat, r: Response, d: string)
    requires script != [] && (bare ==> version == Version1)
    requires Dries(script[1..], lines) || (Course(script[1..], lines, rest)
             && (FaultOf(bare, lines) != NoFault || IsReply(version, lines, id, max, r, d)))
    ensures Foretold(bare, script, FaultOf(bare, lines))
  {
    hide FaultOf, IsReply;
    forall ls | Replied(script, ls) && FaultOf(bare, ls) != NoFault ensures FaultOf(bare, lines) == FaultOf(bare, ls) {
      if |ls| <= |lines| {
        OneCourse(script[1..], ls, lines);
        FaultStays(bare, ls, lines);
      } else {
        OneCourse(script[1..], lines, ls);
        if FaultOf(bare, lines) != NoFault {
          FaultStays(bare, lines, ls);
        } else {
          ReplyShows(version, bare, lines, id, max, r, d, ls);
        }
      }
    }
  }

  /** Some request was answered with an empty line. */
  predicate EmptyReply(trace: seq<Event>) {
    exists i :: 0 < i < |trace| && trace[i - 1].Sent? && trace[i] == Received("")
  }

  lemma EmptyReplySnoc(trace: seq<Event>, e: Event)
    ensures EmptyReply(trace + [e]) <==>
      EmptyReply(trace) || (trace != [] && trace[|trace| - 1].Sent? && e == Received(""))
  {
    var all := trace + [e];
    forall i | 0 <= i < |trace| ensures all[i] == trace[i] {
    }
    assert all[|trace|] == e;
    if trace != [] && trace[|trace| - 1].Sent? && e == Received("") {
      assert all[|trace| - 1].Sent?;
    }
  }

  // ---- the connection's history ----

  datatype Exchange = NoExchange
    | Exchange(request: string, version: Version, negotiating: bool, bare: bool, lines: seq<string>)

  /** The last request sent and the lines received since, if nothing else happened after it. A request is
   *  bare when its reply is expected in version 1 and nothing is allocated for it yet: a negotiation has a
   *  buffer of its own, and a command one for all its attempts. */
  function Current(max: nat, trace: seq<Event>): Exchange
    decreases |trace|, 0
  {
    if trace == [] then NoExchange else
    var before := trace[..|trace| - 1];
    match trace[|trace| - 1]
    case Sent(request, version, negotiating) =>
      Exchange(request, version, negotiating, version == Version1 && (negotiating || !Written(max, before)), [])
    case Received(line) =>
      var e := Current(max, before);
      if e.Exchange? then e.(lines := e.lines + [line]) else NoExchange
    case _ => NoExchange
  }

  /** The last of these lines after a request found something to append, or an earlier one had. */
  predicate Writes(max: nat, version: Version, lines: seq<string>)
    requires lines != []
  {
    if version == Version1 then FirstText(lines) != [] else Decodes(Last(lines), max)
  }

  /** Something was appended to the reply since the caller last asked. */
  predicate Written(max: nat, trace: seq<Event>)
    decreases |trace|, 1
  {
    trace != [] && !trace[|trace| - 1].Asked? &&
    (Written(max, trace[..|trace| - 1]) || (trace[|trace| - 1].Received? && WritesNow(max, Current(max, trace))))
  }

  /** The last line received on behalf of the caller is written to the reply. */
  predicate WritesNow(max: nat, e: Exchange) {
    e.Exchange? && !e.negotiating && e.lines != [] && Writes(max, e.version, e.lines)
  }

  lemma CurrentSnoc(max: nat, trace: seq<Event>, e: Event)
    ensures Current(max, trace + [e]) == match e
      case Sent(request, version, negotiating) =>
        Exchange(request, version, negotiating, version == Version1 && (negotiating || !Written(max, trace)), [])
      case Received(line) =>
        var c := Current(max, trace);
        if c.Exchange? then c.(lines := c.lines + [line]) else NoExchange
      case _ => NoExchange
  {
    assert (trace + [e])[..|trace|] == trace;
  }

  lemma WrittenSnoc(max: nat, trace: seq<Event>, e: Event)
    ensures Written(max, trace + [e]) <==>
      !e.Asked? && (Written(max, trace) || (e.Received? && WritesNow(max, Current(max, trace + [e]))))
  {
    assert (trace + [e])[..|trace|] == trace;
  }

  predicate SameWritten(max: nat, before: seq<Event>, after: seq<Event>) {
    Written(max, before) <==> Written(max, after)
  }

  /** One more line, after lines without a fault */
  lemma LineFault(e: Exchange, line: string)
    requires e.Exchange? && FaultOf(e.bare, e.lines) == NoFault
    ensures FaultOf(e.bare, e.lines + [line]) ==
      if e.lines == [] && line == "" then NullLine
      else if Overruns(e.(lines := e.lines + [line])) then Overrun
      else NoFault
  {
  }

  /** Nothing was received since the last request exactly when sending it is the last event. */
  lemma CurrentIsSent(max: nat, trace: seq<Event>)
    requires Current(max, trace).Exchange?
    ensures trace != [] && (Current(max, trace).lines == [] <==> trace[|trace| - 1].Sent?)
  {
  }

  /** The first text appended for the reply so far fills its chunk. */
  predicate Overruns(e: Exchange) {
    e.Exchange? && e.bare && SomeFills(FirstText(e.lines))
  }

  /** Some reply overran its buffer. */
  predicate Overran(max: nat, trace: seq<Event>) {
    exists i :: 0 <= i <= |trace| && Overruns(Current(max, trace[..i]))
  }

  lemma OverranSnoc(max: nat, trace: seq<Event>, e: Event)
    ensures Overran(max, trace + [e]) <==> Overran(max, trace) || Overruns(Current(max, trace + [e]))
  {
    hide Overruns, Current;
    var all := trace + [e];
    forall i | 0 <= i <= |trace| ensures all[..i] == trace[..i] {
    }
    assert all[..|all|] == all;
  }

  /** History only grows, and among the requests sent meanwhile one is answered with an empty line, or
   *  with a reply that overruns its buffer, exactly if told so. */
  predicate Grown(max: nat, before: seq<Event>, after: seq<Event>, empty: bool, overrun: bool) {
    && before <= after
    && (EmptyReply(after) <==> EmptyReply(before) || empty)
    && (Overran(max, after) <==> Overran(max, before) || overrun)
  }

  lemma GrownNot(max: nat, before: seq<Event>)
    ensures Grown(max, before, before, false, false)
  {
  }

  lemma GrownSnoc(max: nat, before: seq<Event>, e: Event)
    ensures Grown(max, before, before + [e], before != [] && before[|before| - 1].Sent? && e == Received(""),
                  Overruns(Current(max, before + [e])))
  {
    EmptyReplySnoc(before, e);
    OverranSnoc(max, before, e);
  }

  /** Anything but a line that is received */
  lemma GrownOther(max: nat, before: seq<Event>, e: Event)
    requires !e.Received?
    ensures Grown(max, before, before + [e], false, false)
  {
    GrownSnoc(max, before, e);
    CurrentSnoc(max, before, e);
    NothingFills();
  }

  lemma GrownTwice(max: nat, a: seq<Event>, b: seq<Event>, c: seq<Event>, empty: bool, overrun: bool)
    requires Grown(max, a, b, false, false) && Grown(max, b, c, empty, overrun)
    ensures Grown(max, a, c, empty, overrun)
  {
    hide EmptyReply, Overran;
  }

  /** The last thing that happened is that a request could not be sent or a line did not come. */
  predicate Broke(trace: seq<Event>) {
    trace != [] && trace[|trace| - 1] in {SendFailed, TimedOut}
  }

  /** The last thing that happened is that the connection could not be opened. */
  predicate Unopened(trace: seq<Event>) {
    trace != [] && trace[|trace| - 1] == OpenFailed
  }

  function ArgumentText(argument: Option<string>): string {
    match argument
    case None => ""
    case Some(a) => " " + a
  }

  function RequestText(version: Version, id: string, command: string, argument: Option<string>): string
    requires argument.Some? ==> CText(argument.value)
  {
    if version == Version1 then command + ArgumentText(argument) + "\n"
    else RequestLine(id, command, argument) + "\n"
  }

  /** The history ends with this request and a reply to it. */
  predicate Exchanged(trace: seq<Event>, version: Version, id: string, max: nat, command: string,
                      argument: Option<string>,
                      response: Response, data: string)
    requires argument.Some? ==> CText(argument.value)
  {
    && Current(max, trace).Exchange?
    && Current(max, trace).request == RequestText(version, id, command, argument)
    && IsReply(version, Current(max, trace).lines, id, max, response, data)
  }

  // ---- the client ----

  /** mdata_command_t */
  class Command {
    var reqid: string
    const request: DynStr
    const responseData: DynStr
    var response: Response
    var done: bool

    ghost predicate Valid()
      reads this, request, request.data, responseData, responseData.data
    {
      && request != responseData && request.Valid() && responseData.Valid()
      && (request.data != null ==> request.data != responseData.data)
    }

    constructor ()
      ensures Valid() && fresh(request) && fresh(responseData)
      ensures request.data == null && responseData.data == null && response == Pending && !done
    {
      reqid, response, done := "", Pending, false;
      request := new DynStr();
      responseData := new DynStr();
    }
  }

  /** What a caller may send: C strings. */
  predicate GoodRequest(command: string, argument: Option<string>) {
    CText(command) && (argument.Some? ==> CText(argument.value))
  }

  /** A fault ends the run: every method returns at once, and none is called again. */
  class MdataProto {
    const plat: Connection
    const max: nat
    var command: Command?
    var state: State
    var version: Version
    var inReset: bool
    var fault: Fault

    constructor (plat: Connection, max: nat)
      requires plat.Valid() && !plat.open
      ensures this.plat == plat && this.max == max && command == null && !inReset && fault == NoFault
    {
      this.plat, this.max := plat, max;
      command, state, version, inReset := null, Ready, Version1, false;
      fault := NoFault;
    }

    /** How far the client is with the command, given the lines received since its request. */
    ghost predicate Progressed(mdc: Command, lines: seq<string>)
      reads this, mdc, mdc.responseData, mdc.responseData.data
      requires mdc.responseData.Valid()
    {
      Progress(version, state, lines, mdc.reqid, max, mdc.response, mdc.responseData.Text(), mdc.done)
    }

    /** process_input in state MDPS_MESSAGE_V2 */
    method ProcessFrame(mdc: Command, input: string, ghost lines: seq<string>)
      requires mdc.Valid() && !mdc.done && state == MessageV2 && version == Version2
      requires Progressed(mdc, lines)
      modifies `state, mdc`response, mdc`done, mdc.responseData, mdc.responseData.data
      ensures mdc.Valid() && (mdc.responseData.data == old(mdc.responseData.data) || fresh(mdc.responseData.data))
      ensures Progressed(mdc, lines + [input])
      ensures mdc.responseData.data == null <==> old(mdc.responseData.data) == null && !Decodes(input, max)
    {
      hide Progress, ParseFrame, Decodes;
      ghost var r, d := mdc.response, mdc.responseData.Text();
      mdc.responseData.Reset();
      var verdict, requestId, name := ParseInto(input, mdc.responseData);
      assert mdc.responseData.Text() == ParseFrame(input, max).data;
      if Answers(input, mdc.reqid, max) {
        FrameTaken(lines, input, mdc.reqid, max, r, d);
      } else {
        FrameDropped(lines, input, mdc.reqid, max, r, d, r, mdc.responseData.Text());
      }
      if verdict != Accepted {
        // dropped
      } else if requestId != mdc.reqid {
        // dropped
      } else if name == "NOTFOUND" {
        state := Ready;
        mdc.response := NotFound;
        mdc.done := true;
      } else if name == "SUCCESS" {
        state := Ready;
        mdc.response := Success;
        mdc.done := true;
      } else {
        state := Ready;
        mdc.response := Unknown;
        mdc.done := true;
      }
    }

    /** proto_parse_v2 with a request id and a command of its own */
    method ParseInto(input: string, data: DynStr) returns (verdict: Verdict, requestId: string, name: string)
      requires data.Valid()
      modifies data, data.data
      ensures data.Valid() && (data.data == old(data.data) || fresh(data.data))
      ensures var f := ParseFrame(input, max);
              verdict == f.verdict && requestId == f.id && name == f.command && data.Text() == old(data.Text()) + f.data
      ensures data.data == null <==> old(data.data) == null && !Decodes(input, max)
    {
      hide Decodes;
      var first := new DynStr();
      var second := new DynStr();
      verdict := ParseV2(input, max, first, second, data);
      requestId, name := first.Text(), second.Text();
    }

    /** dynstr_append: the run ends where the text and its terminator do not fit. */
    method AppendTo(buf: DynStr, text: string)
      requires buf.Valid() && NulFree(text) && fault == NoFault
      modifies `fault, buf, buf.data
      ensures buf.Valid() && (buf.data == old(buf.data) || fresh(buf.data))
      ensures fault == if old(buf.data) == null && FillsChunk(text) then Overrun else NoFault
      ensures fault == NoFault ==> buf.data != null && buf.Text() == old(buf.Text()) + text
    {
      buf.FitsIffPrimed(|text|);
      if !buf.Fits(|text|) {
        fault := Overrun;
        return;
      }
      buf.Append(text);
    }

    /** process_input in state MDPS_MESSAGE_HEADER */
    method ProcessHeader(mdc: Command, cstr: string)
      requires mdc.Valid() && !mdc.done && state == MessageHeader && version == Version1 && fault == NoFault
      requires CText(cstr) && Progressed(mdc, [])
      modifies `state, `fault, mdc`response, mdc`done, mdc.responseData, mdc.responseData.data
      ensures mdc.Valid() && (mdc.responseData.data == old(mdc.responseData.data) || fresh(mdc.responseData.data))
      ensures Judged(fault, old(mdc.responseData.data) == null, AppendedText(old(state), cstr))
      ensures fault == NoFault ==>
        Progressed(mdc, [cstr]) && Allocates(old(mdc.responseData.data) == null, AppendedText(old(state), cstr), mdc)
    {
      hide Progress, FillsChunk, SomeFills;
      NothingFills();
      NothingRead(mdc.reqid, max, mdc.response, mdc.responseData.Text());
      HeaderTaken(cstr, mdc.reqid, max);
      if cstr == "NOTFOUND" {
        state := Ready;
        mdc.response := NotFound;
        mdc.done := true;
      } else if cstr == "SUCCESS" {
        state := MessageData;
        mdc.response := Success;
      } else if cstr == "V2_OK" {
        state := Ready;
        mdc.response := V2Ok;
        mdc.done := true;
      } else if cstr == "invalid command" {
        state := Ready;
        mdc.response := InvalidCommand;
        mdc.done := true;
      } else {
        state := Ready;
        OneFills(cstr);
        AppendTo(mdc.responseData, cstr);
        if fault != NoFault {
          return;
        }
        assert "" + cstr == cstr;
        mdc.response := Unknown;
        mdc.done := true;
      }
    }

    /** A buffer stays unallocated only when nothing is appended to it. */
    ghost predicate Allocates(unallocated: bool, texts: seq<string>, mdc: Command)
      reads mdc, mdc.responseData
    {
      mdc.responseData.data == null <==> unallocated && texts == []
    }

    /** A line of data, after a newline unless it is the first */
    method AppendData(respdata: DynStr, cstr: string)
      requires respdata.Valid() && CText(cstr) && fault == NoFault
      modifies `fault, respdata, respdata.data
      ensures respdata.Valid() && (respdata.data == old(respdata.data) || fresh(respdata.data))
      ensures Judged(fault, old(respdata.data) == null, [Unescape(cstr)])
      ensures fault == NoFault ==> respdata.data != null
      ensures fault == NoFault ==>
        var d := old(respdata.Text());
        respdata.Text() == if d == "" then Unescape(cstr) else d + ("\n" + Unescape(cstr))
    {
      hide FillsChunk, SomeFills;
      ghost var d := respdata.Text();
      DataPieces(d, Unescape(cstr));
      OneFills(Unescape(cstr));
      var offs := if cstr != "" && cstr[0] == '.' then 1 else 0;
      var text := cstr[offs..];
      assert text == Unescape(cstr);
      hide Unescape;
      if respdata.strlen > 0 {
        respdata.Extend("\n");
      }
      AppendTo(respdata, text);
    }

    /** process_input in state MDPS_MESSAGE_DATA */
    method ProcessData(mdc: Command, cstr: string, ghost lines: seq<string>)
      requires mdc.Valid() && !mdc.done && state == MessageData && version == Version1 && fault == NoFault
      requires CText(cstr) && lines != [] && Progressed(mdc, lines)
      modifies `state, `fault, mdc`done, mdc.responseData, mdc.responseData.data
      ensures mdc.Valid() && (mdc.responseData.data == old(mdc.responseData.data) || fresh(mdc.responseData.data))
      ensures Judged(fault, old(mdc.responseData.data) == null, AppendedText(old(state), cstr))
      ensures fault == NoFault ==>
        && Progressed(mdc, lines + [cstr])
        && Allocates(old(mdc.responseData.data) == null, AppendedText(old(state), cstr), mdc)
    {
      hide Progress, FillsChunk, SomeFills;
      NothingFills();
      ghost var d := mdc.responseData.Text();
      if cstr == "." {
        DataEnds(lines, mdc.reqid, max, mdc.response, d);
        state := Ready;
        mdc.done := true;
      } else {
        DataTaken(lines, cstr, mdc.reqid, max, mdc.response, d);
        AppendData(mdc.responseData, cstr);
      }
    }

    /** process_input: anything but a reply in progress is ignored */
    method ProcessInput(mdc: Command, cstr: string, ghost lines: seq<string>)
      requires mdc.Valid() && !mdc.done && CText(cstr) && Progressed(mdc, lines) && fault == NoFault
      modifies `state, `fault, mdc`response, mdc`done, mdc.responseData, mdc.responseData.data
      ensures mdc.Valid() && (mdc.responseData.data == old(mdc.responseData.data) || fresh(mdc.responseData.data))
      ensures Judged(fault, old(mdc.responseData.data) == null, AppendedText(old(state), cstr))
      ensures fault != NullLine && (fault == NoFault ==> Progressed(mdc, lines + [cstr]))
      ensures fault == NoFault && version == Version1 ==>
        Allocates(old(mdc.responseData.data) == null, AppendedText(old(state), cstr), mdc)
      ensures version == Version2 ==>
        (mdc.responseData.data == null <==> old(mdc.responseData.data) == null && !Decodes(cstr, max))
    {
      hide IsReplyV1, IsReplyV2, FillsChunk, Decodes;
      assert [] + [cstr] == [cstr];
      match state
      case MessageV2 => ProcessFrame(mdc, cstr, lines);
      case MessageHeader => ProcessHeader(mdc, cstr);
      case MessageData => ProcessData(mdc, cstr, lines);
      case Ready =>
      case Error =>
    }

    /** process_input on a line that is there, after which the line is reset */
    method ProcessLine(mdc: Command, line: DynStr, ghost received: string, ghost lines: seq<string>)
      requires mdc.Valid() && !mdc.done && Progressed(mdc, lines) && fault == NoFault
      requires line.Valid() && line.data != null && line.Text() == received && CText(received)
      requires line != mdc.request && line != mdc.responseData
      requires line.data != mdc.request.data && line.data != mdc.responseData.data
      modifies `state, `fault, mdc`response, mdc`done, mdc.responseData, mdc.responseData.data, line, line.data
      ensures mdc.Valid() && (mdc.responseData.data == old(mdc.responseData.data) || fresh(mdc.responseData.data))
      ensures line.Valid() && line.data == old(line.data) && line.Text() == "" && line.data != mdc.responseData.data
      ensures Judged(fault, old(mdc.responseData.data) == null, AppendedText(old(state), received))
      ensures fault != NullLine && (fault == NoFault ==> Progressed(mdc, lines + [received]))
      ensures fault == NoFault && version == Version1 ==>
        Allocates(old(mdc.responseData.data) == null, AppendedText(old(state), received), mdc)
      ensures version == Version2 ==>
        (mdc.responseData.data == null <==> old(mdc.responseData.data) == null && !Decodes(received, max))
    {
      hide Progress, FillsChunk, SomeFills, AppendedText, Judged, Decodes;
      ProcessInput(mdc, line.Text(), lines);
      line.Reset();
    }

    /** proto_send */
    method Send(mdc: Command) returns (ok: bool)
      requires mdc.Valid() && plat.Valid() && plat.open && Known(mdc)
      modifies `state, plat`script, plat`trace
      ensures plat.Valid() && |plat.script| <= |old(plat.script)|
      ensures Grown(max, old(plat.trace), plat.trace, false, false)
      ensures !ok ==> state == Error && Broke(plat.trace)
      ensures ok ==> Current(max, plat.trace) == Exchange(mdc.request.Text(), version, inReset, Bare(mdc), [])
      ensures Remembers(mdc) && SameWritten(max, old(plat.trace), plat.trace)
      ensures ok == NextAnswer(old(plat.script)).ok && plat.script == LaterAnswers(old(plat.script))
      ensures ok ==> state == if version == Version1 then MessageHeader else MessageV2
    {
      hide Grown;
      ghost var before := plat.trace;
      ghost var sent := Sent(mdc.request.Text(), version, inReset);
      ok := plat.Send(mdc.request, version, inReset);
      GrownOther(max, before, if ok then sent else SendFailed);
      WrittenSnoc(max, before, if ok then sent else SendFailed);
      if !ok {
        state := Error;
        return;
      }
      CurrentSnoc(max, before, sent);
      match version
      case Version1 => state := MessageHeader;
      case Version2 => state := MessageV2;
    }

    /** On behalf of the caller the reply's buffer is allocated exactly if something was written to it. */
    ghost predicate Remembers(mdc: Command)
      reads this, mdc, mdc.responseData, plat
    {
      !inReset ==> (mdc.responseData.data == null <==> !Written(max, plat.trace))
    }

    /** Before a request is sent; a negotiation has a buffer of its own. */
    ghost predicate Known(mdc: Command)
      reads this, mdc, mdc.responseData, plat
    {
      Remembers(mdc) && (inReset ==> mdc.responseData.data == null)
    }

    /** The reply is expected in version 1 and nothing is allocated for it yet. */
    ghost predicate Bare(mdc: Command)
      reads this, mdc, mdc.responseData
    {
      version == Version1 && mdc.responseData.data == null
    }

    /** The lines read so far did not overrun the buffer, and in version 1 it is still unallocated exactly
     *  when nothing was appended. */
    ghost predicate WithinBuffer(e: Exchange, mdc: Command)
      reads this, mdc, mdc.responseData
    {
      && e.Exchange? && !Overruns(e) && (e.bare ==> version == Version1)
      && e.version == version && e.negotiating == inReset
      && (version == Version1 ==> (mdc.responseData.data == null <==> e.bare && FirstText(e.lines) == []))
    }

    /** plat_recv, and a look at the text of the line: there is none when the line is empty from the start. */
    method RecvLine(line: DynStr, ghost e: Exchange) returns (ok: bool, ghost received: string)
      requires plat.Valid() && plat.open && line.Valid() && line.Text() == "" && fault == NoFault
      requires e.Exchange? && Current(max, plat.trace) == e && (line.data == null <==> e.lines == [])
      modifies `state, `fault, plat`script, plat`trace, line, line.data
      ensures plat.Valid() && |plat.script| <= |old(plat.script)| && (ok ==> |plat.script| < |old(plat.script)|)
      ensures line.Valid() && (line.data == old(line.data) || fresh(line.data))
      ensures !ok && fault == NoFault ==> Grown(max, old(plat.trace), plat.trace, false, false)
      ensures ok || fault != NoFault ==>
        var e' := e.(lines := e.lines + [received]);
        && Current(max, plat.trace) == e' && Grown(max, old(plat.trace), plat.trace, fault == NullLine, Overruns(e'))
        && (Written(max, plat.trace) <==> Written(max, old(plat.trace)) || WritesNow(max, e'))
      ensures fault == if ok || Broke(plat.trace) then NoFault else NullLine
      ensures fault == NullLine ==> e.lines == [] && received == ""
      ensures !ok && fault == NoFault ==> state == Error && Broke(plat.trace)
      ensures !ok && fault == NoFault ==> SameWritten(max, old(plat.trace), plat.trace)
      ensures var a := NextAnswer(old(plat.script));
              plat.script == LaterAnswers(old(plat.script)) && a.ok == (ok || fault != NoFault) && received == a.line
      ensures ok ==>
        line.data != null && line.Text() == received && CText(received) && (e.lines != [] || received != "")
      ensures ok ==> state == old(state)
    {
      hide Current, Written, WritesNow, Grown, Overruns, NextAnswer, LaterAnswers;
      ghost var before := plat.trace;
      CurrentIsSent(max, before);
      ok, received := plat.Recv(line);
      WrittenSnoc(max, before, if ok then Received(received) else TimedOut);
      if !ok {
        GrownOther(max, before, TimedOut);
        state := Error;
        return;
      }
      GrownSnoc(max, before, Received(received));
      CurrentSnoc(max, before, Received(received));
      if line.data == null {
        fault := NullLine;
        ok := false;
      }
    }

    /** One line from the platform, processed. */
    method RecvOne(mdc: Command, line: DynStr, ghost e: Exchange) returns (ok: bool, ghost received: string)
      requires plat.Valid() && plat.open && mdc.Valid() && !mdc.done
      requires line.Valid() && line.Text() == "" && fault == NoFault
      requires line != mdc.request && line != mdc.responseData
      requires line.data != null ==> line.data != mdc.request.data && line.data != mdc.responseData.data
      requires e.Exchange? && Current(max, plat.trace) == e && (line.data == null <==> e.lines == [])
      requires WithinBuffer(e, mdc) && Progressed(mdc, e.lines) && Remembers(mdc)
      modifies `state, `fault, mdc`response, mdc`done, mdc.responseData, mdc.responseData.data
      modifies plat`script, plat`trace, line, line.data
      ensures plat.Valid() && mdc.Valid() && |plat.script| <= |old(plat.script)|
      ensures (ok ==> |plat.script| < |old(plat.script)|)
      ensures mdc.responseData.data == old(mdc.responseData.data) || fresh(mdc.responseData.data)
      ensures line.Valid() && (line.data == old(line.data) || fresh(line.data))
      ensures line.data != null ==> line.data != mdc.responseData.data
      ensures Grown(max, old(plat.trace), plat.trace, fault == NullLine, fault == Overrun)
      ensures !ok && fault == NoFault ==> state == Error && !mdc.done && Broke(plat.trace)
      ensures ok || fault != NoFault ==> Current(max, plat.trace) == e.(lines := e.lines + [received])
      ensures ok ==> fault == NoFault && line.data != null && line.Text() == "" && Progressed(mdc, e.lines + [received])
      ensures ok ==> WithinBuffer(e.(lines := e.lines + [received]), mdc)
      ensures fault == NoFault ==> Remembers(mdc) && (inReset ==> SameWritten(max, old(plat.trace), plat.trace))
      ensures var a := NextAnswer(old(plat.script));
              plat.script == LaterAnswers(old(plat.script)) && a.ok == (ok || fault != NoFault) && received == a.line
      ensures ok || fault != NoFault ==>
        fault == if e.lines == [] && received == "" then NullLine
                 else if Overruns(e.(lines := e.lines + [received])) then Overrun else NoFault
    {
      hide Progress, Current, Written, Writes, Grown, SomeFills, FirstText, AppendedText, Broke, Decodes;
      ghost var state', r, d := state, mdc.response, mdc.responseData.Text();
      ok, received := RecvLine(line, e);
      if !ok && fault == NoFault {
        return;
      }
      LineAppends(version, state', e.lines, received, mdc.reqid, max, r, d);
      NothingFills();
      if !ok {
        return;
      }
      ProcessLine(mdc, line, received, e.lines);
      ok := fault == NoFault;
    }

    /** proto_recv. A null line is read exactly when the first line after the request is empty, and an
     *  overrun happens exactly when the first text appended to a buffer that was not allocated fills a
     *  chunk. */
    method Recv(mdc: Command, ghost sent: Exchange) returns (ok: bool, ghost lines: seq<string>)
      requires plat.Valid() && plat.open && mdc.Valid() && !mdc.done && fault == NoFault
      requires sent.Exchange? && sent.lines == [] && sent.bare == Bare(mdc)
      requires sent.version == version && sent.negotiating == inReset && Remembers(mdc)
      requires Current(max, plat.trace) == sent && Progressed(mdc, [])
      modifies `state, `fault, mdc`response, mdc`done, mdc.responseData, mdc.responseData.data
      modifies plat`script, plat`trace
      ensures plat.Valid() && mdc.Valid() && |plat.script| <= |old(plat.script)|
      ensures mdc.responseData.data == old(mdc.responseData.data) || fresh(mdc.responseData.data)
      ensures Grown(max, old(plat.trace), plat.trace, fault == NullLine, fault == Overrun)
      ensures ok || fault != NoFault ==> Current(max, plat.trace) == sent.(lines := lines)
      ensures !ok && fault == NoFault ==> state == Error && !mdc.done && Broke(plat.trace)
      ensures ok ==> fault == NoFault && mdc.done && Progressed(mdc, lines)
      ensures fault == NoFault ==> Remembers(mdc) && (inReset ==> SameWritten(max, old(plat.trace), plat.trace))
      ensures fault == FaultOf(sent.bare, lines)
      ensures if ok || fault != NoFault then Course(old(plat.script), lines, plat.script)
              else Dries(old(plat.script), lines)
    {
      hide Progress, Current, Written, Grown, SomeFills, Broke;
      hide Course, Dries, FaultOf, Remembers, NextAnswer, LaterAnswers;
      CourseStarts(plat.script, sent.bare);
      NothingFills();
      GrownNot(max, plat.trace);
      var line := new DynStr();
      lines := [];
      while true
        invariant plat.Valid() && mdc.Valid() && !mdc.done && |plat.script| <= |old(plat.script)|
        invariant mdc.responseData.data == old(mdc.responseData.data) || fresh(mdc.responseData.data)
        invariant line.Valid() && line.Text() == "" && (line.data == null || fresh(line.data))
        invariant line.data != null ==> line.data != mdc.request.data && line.data != mdc.responseData.data
        invariant line.data == null <==> lines == []
        invariant Current(max, plat.trace) == sent.(lines := lines) && Progressed(mdc, lines)
        invariant WithinBuffer(sent.(lines := lines), mdc)
        invariant Grown(max, old(plat.trace), plat.trace, false, false) && fault == NoFault
        invariant Remembers(mdc) && (inReset ==> SameWritten(max, old(plat.trace), plat.trace))
        invariant Course(old(plat.script), lines, plat.script) && FaultOf(sent.bare, lines) == NoFault
        decreases |plat.script|
      {
        ghost var received, before := "", plat.trace;
        CourseSnoc(old(plat.script), lines, plat.script);
        LineFault(sent.(lines := lines), NextAnswer(plat.script).line);
        ok, received := RecvOne(mdc, line, sent.(lines := lines));
        GrownTwice(max, old(plat.trace), before, plat.trace, fault == NullLine, fault == Overrun);
        if !ok && fault == NoFault {
          return;
        }
        lines := lines + [received];
        if !ok {
          return;
        }
        if mdc.done {
          return true, lines;
        }
      }
    }

    /** The command is the first text of the request, and fills its chunk. */
    ghost predicate TooLong(unallocated: bool, cmd: string)
      reads this
    {
      version == Version1 && unallocated && FillsChunk(cmd)
    }

    /** The request for the version now spoken; version 2 draws a new id for it. */
    method MakeRequest(mdc: Command, cmd: string, argument: Option<string>)
      requires mdc.Valid() && plat.Valid() && GoodRequest(cmd, argument) && fault == NoFault
      modifies `fault, mdc`reqid, mdc.request, mdc.request.data, plat`script
      ensures plat.Valid() && |plat.script| <= |old(plat.script)|
      ensures mdc.Valid() && (mdc.request.data == old(mdc.request.data) || fresh(mdc.request.data))
      ensures fault == if TooLong(old(mdc.request.data) == null, cmd) then Overrun else NoFault
      ensures fault == NoFault ==> mdc.request.data != null
      ensures fault == NoFault ==> mdc.request.Text() == RequestText(version, mdc.reqid, cmd, argument)
      ensures version == Version1 ==> plat.script == old(plat.script)
    {
      hide RequestLine, FillsChunk;
      mdc.request.Reset();
      match version
      case Version1 =>
        MakeRequestV1(cmd, argument, mdc.request);
      case Version2 =>
        mdc.reqid := plat.DrawId();
        MakeRequestV2(cmd, argument, mdc.request, mdc.reqid);
    }

    /** proto_make_request_v1 */
    method MakeRequestV1(cmd: string, argument: Option<string>, output: DynStr)
      requires output.Valid() && output.Text() == "" && GoodRequest(cmd, argument) && fault == NoFault
      modifies `fault, output, output.data
      ensures output.Valid() && (output.data == old(output.data) || fresh(output.data))
      ensures fault == if old(output.data) == null && FillsChunk(cmd) then Overrun else NoFault
      ensures fault == NoFault ==> output.data != null && output.Text() == cmd + ArgumentText(argument) + "\n"
    {
      hide FillsChunk;
      RequestPieces(cmd, argument);
      AppendTo(output, cmd);
      if fault != NoFault {
        return;
      }
      if argument.Some? {
        output.Extend(" ");
        output.Extend(argument.value);
      }
      output.Extend("\n");
    }

    /** proto_execute. Nothing is outstanding when it is called. Success means that the connection's
     *  history ends with this request, in the version now spoken, and the reply whose response and
     *  data are returned. Inside a reset a failure is reported at once; outside it means that a reset
     *  failed for good, and the connection is closed. The run ends in a null line exactly when some
     *  request is answered with an empty line first, and in an overrun exactly when the command fills its
     *  chunk in version 1, before anything is sent, or some reply to a bare request fills its chunk. */
    method Execute(cmd: string, argument: Option<string>) returns (ok: bool, response: Response, data: DynStr?,
                   ghost id: string)
      requires plat.Valid() && plat.open && command == null && GoodRequest(cmd, argument) && fault == NoFault
      modifies this, plat
      ensures plat.Valid() && |plat.script| <= |old(plat.script)|
      ensures old(TooLong(true, cmd)) ==>
        fault == Overrun && plat.trace == if old(inReset) then old(plat.trace) else old(plat.trace) + [Asked]
      ensures Grown(max, old(plat.trace), plat.trace, fault == NullLine, fault == Overrun && !old(TooLong(true, cmd)))
      ensures fault == NoFault ==> command == null
      ensures fault == NoFault && old(inReset) ==> inReset && plat.open && version == old(version)
      ensures fault == NoFault && !old(inReset) ==> ok == plat.open == !inReset
      ensures fault == NoFault && !ok ==>
        if old(inReset) then old(state) == Error || Broke(plat.trace) else Unopened(plat.trace)
      ensures ok ==> fault == NoFault && state == Ready && data != null && data.Valid() && fresh(data)
      ensures ok ==> Exchanged(plat.trace, version, id, max, cmd, argument, response, data.Text())
      ensures fault == NoFault && old(inReset) ==> SameWritten(max, old(plat.trace), plat.trace)
      ensures old(state != Error && version == Version1 && !TooLong(true, cmd)) ==>
        Foretold(true, old(plat.script), fault)
      decreases |plat.script|, if inReset then 2 else 6
    {
      hide Exchanged, Grown, FillsChunk, Broke, Unopened, Written, SameWritten, Foretold, Known;
      id := "";
      var mdc := new Command();
      command := mdc;
      ok := FirstAttempt(mdc, cmd, argument);
      if !ok && fault == NoFault {
        if old(state != Error && version == Version1) {
          NothingForetold(true, old(plat.script));
        }
        ghost var before := plat.trace;
        ok := Persist(mdc, cmd, argument);
        GrownTwice(max, old(plat.trace), before, plat.trace, fault == NullLine, fault == Overrun);
      }
      if fault != NoFault {
        return false, Pending, null, "";
      }
      command := null;
      if ok {
        return true, mdc.response, mdc.responseData, mdc.reqid;
      }
      return false, Pending, null, "";
    }

    /** Outside a reset the connection is reset and the request made again, for as long as that works. */
    method Persist(mdc: Command, cmd: string, argument: Option<string>) returns (ok: bool)
      requires plat.Valid() && plat.open && command == mdc && mdc.Valid() && !mdc.done && fault == NoFault
      requires Remembers(mdc) && GoodRequest(cmd, argument) && mdc.request.data != null
      modifies this, plat, mdc, mdc.request, mdc.request.data, mdc.responseData, mdc.responseData.data
      ensures plat.Valid() && mdc.Valid() && |plat.script| <= |old(plat.script)|
      ensures mdc.responseData.data == old(mdc.responseData.data) || fresh(mdc.responseData.data)
      ensures Grown(max, old(plat.trace), plat.trace, fault == NullLine, fault == Overrun)
      ensures old(inReset) ==>
        !ok && inReset && plat.open && version == old(version) && plat.trace == old(plat.trace) && fault == NoFault
      ensures fault == NoFault && !old(inReset) ==> ok == plat.open == !inReset && (ok || Unopened(plat.trace))
      ensures ok ==> fault == NoFault && state == Ready
      ensures ok ==>
        Exchanged(plat.trace, version, mdc.reqid, max, cmd, argument, mdc.response, mdc.responseData.Text())
      decreases |plat.script|, if inReset then 1 else 5
    {
      hide Exchanged, Grown, FillsChunk, Broke, Unopened, Written, SameWritten, Known, Remembers, Foretold;
      GrownNot(max, plat.trace);
      ok := false;
      while !ok
        invariant plat.Valid() && plat.open && |plat.script| <= |old(plat.script)| && fault == NoFault
        invariant inReset == old(inReset) && (inReset ==> version == old(version) && plat.trace == old(plat.trace))
        invariant command == mdc && mdc.Valid() && Remembers(mdc) && (!ok ==> !mdc.done) && (ok ==> !inReset)
        invariant Grown(max, old(plat.trace), plat.trace, false, false)
        invariant mdc.request.data == old(mdc.request.data) || fresh(mdc.request.data)
        invariant mdc.request.data != null
        invariant mdc.responseData.data == old(mdc.responseData.data) || fresh(mdc.responseData.data)
        invariant ok ==> state == Ready
        invariant ok ==>
          Exchanged(plat.trace, version, mdc.reqid, max, cmd, argument, mdc.response, mdc.responseData.Text())
        decreases |plat.script|, !ok
      {
        ghost var before := plat.trace;
        var again := Recover(mdc);
        GrownTwice(max, old(plat.trace), before, plat.trace, fault == NullLine, fault == Overrun);
        if !again {
          return false;
        }
        before := plat.trace;
        ok := Attempt(mdc, cmd, argument);
        GrownTwice(max, old(plat.trace), before, plat.trace, fault == NullLine, fault == Overrun);
        if fault != NoFault {
          return false;
        }
      }
    }

    /** What the caller asks for is told from what a negotiation does. */
    ghost method Begin(mdc: Command)
      requires mdc.Valid() && mdc.responseData.data == null
      modifies plat`trace
      ensures plat.trace == (if inReset then old(plat.trace) else old(plat.trace) + [Asked]) && Known(mdc)
      ensures Grown(max, old(plat.trace), plat.trace, false, false)
      ensures inReset ==> SameWritten(max, old(plat.trace), plat.trace)
    {
      hide Grown, Written;
      GrownNot(max, plat.trace);
      if !inReset {
        GrownOther(max, plat.trace, Asked);
        WrittenSnoc(max, plat.trace, Asked);
        plat.Ask();
      }
    }

    method FirstAttempt(mdc: Command, cmd: string, argument: Option<string>) returns (ok: bool)
      requires plat.Valid() && plat.open && mdc.Valid() && !mdc.done
      requires mdc.request.data == null && mdc.responseData.data == null && fault == NoFault
      requires GoodRequest(cmd, argument)
      modifies `state, `fault, plat`script, plat`trace
      modifies mdc, mdc.request, mdc.request.data, mdc.responseData, mdc.responseData.data
      ensures plat.Valid() && mdc.Valid() && |plat.script| <= |old(plat.script)|
      ensures mdc.request.data == null || fresh(mdc.request.data)
      ensures mdc.responseData.data == null || fresh(mdc.responseData.data)
      ensures TooLong(true, cmd) ==>
        fault == Overrun && plat.trace == if inReset then old(plat.trace) else old(plat.trace) + [Asked]
      ensures Grown(max, old(plat.trace), plat.trace, fault == NullLine, fault == Overrun && !TooLong(true, cmd))
      ensures fault == NoFault ==> mdc.request.data != null
      ensures !ok && fault == NoFault ==> !mdc.done && (old(state) == Error || Broke(plat.trace))
      ensures ok ==> state == Ready && fault == NoFault
      ensures ok ==>
        Exchanged(plat.trace, version, mdc.reqid, max, cmd, argument, mdc.response, mdc.responseData.Text())
      ensures fault == NoFault ==> Remembers(mdc) && (inReset ==> SameWritten(max, old(plat.trace), plat.trace))
      ensures old(state) != Error && version == Version1 && !TooLong(true, cmd) ==>
        Foretold(true, old(plat.script), fault)
    {
      hide Exchanged, Grown, FillsChunk, Broke, Written, SameWritten, Foretold;
      Begin(mdc);
      ghost var begun := plat.trace;
      ok := Attempt(mdc, cmd, argument);
      GrownTwice(max, old(plat.trace), begun, plat.trace, fault == NullLine, fault == Overrun && !TooLong(true, cmd));
    }

    /** After a failure: what was received is discarded, and outside a reset the connection is reset. */
    method Recover(mdc: Command) returns (again: bool)
      requires plat.Valid() && plat.open && command == mdc && mdc.Valid() && fault == NoFault && Remembers(mdc)
      modifies this, plat, mdc`response, mdc.responseData, mdc.responseData.data
      ensures plat.Valid() && mdc.Valid() && |plat.script| <= |old(plat.script)|
      ensures mdc.responseData.Text() == "" && mdc.responseData.data == old(mdc.responseData.data)
      ensures Grown(max, old(plat.trace), plat.trace, fault == NullLine, fault == Overrun)
      ensures fault == NoFault ==> command == mdc
      ensures old(inReset) ==>
        !again && inReset && plat.open && version == old(version) && plat.trace == old(plat.trace) && fault == NoFault
      ensures fault == NoFault && !old(inReset) ==>
        again == plat.open == !inReset && (if again then |plat.script| < |old(plat.script)| else Unopened(plat.trace))
      ensures again ==> fault == NoFault && Known(mdc)
      decreases |plat.script|, if inReset then 0 else 4
    {
      hide Grown, Written;
      mdc.responseData.Reset();
      mdc.response := Pending;
      if inReset {
        GrownNot(max, plat.trace);
        return false;
      }
      again := Reset();
    }

    /** The request is made anew, sent and answered, unless the connection is known to be broken. */
    method Attempt(mdc: Command, cmd: string, argument: Option<string>) returns (ok: bool)
      requires plat.Valid() && plat.open && mdc.Valid() && !mdc.done
      requires mdc.responseData.Text() == "" && fault == NoFault && Known(mdc)
      requires GoodRequest(cmd, argument)
      modifies `state, `fault, plat`script, plat`trace
      modifies mdc, mdc.request, mdc.request.data, mdc.responseData, mdc.responseData.data
      ensures plat.Valid() && mdc.Valid() && |plat.script| <= |old(plat.script)|
      ensures mdc.request.data == old(mdc.request.data) || fresh(mdc.request.data)
      ensures mdc.responseData.data == old(mdc.responseData.data) || fresh(mdc.responseData.data)
      ensures var tooLong := TooLong(old(mdc.request.data) == null, cmd);
              && (tooLong ==> fault == Overrun && plat.trace == old(plat.trace))
              && Grown(max, old(plat.trace), plat.trace, fault == NullLine, fault == Overrun && !tooLong)
      ensures fault == NoFault ==> mdc.request.data != null
      ensures !ok && fault == NoFault ==> !mdc.done && (old(state) == Error || Broke(plat.trace))
      ensures ok ==> state == Ready && fault == NoFault
      ensures ok ==>
        Exchanged(plat.trace, version, mdc.reqid, max, cmd, argument, mdc.response, mdc.responseData.Text())
      ensures fault == NoFault ==> Remembers(mdc) && (inReset ==> SameWritten(max, old(plat.trace), plat.trace))
      ensures old(state) != Error && version == Version1 && !TooLong(old(mdc.request.data) == null, cmd) ==>
        Foretold(old(Bare(mdc)), old(plat.script), fault)
    {
      hide IsReply, Current, Written, RequestText, FillsChunk, Grown, Foretold;
      GrownNot(max, plat.trace);
      MakeRequest(mdc, cmd, argument);
      if fault != NoFault {
        return false;
      }
      ok := SendAndRecv(mdc);
    }

    method SendAndRecv(mdc: Command) returns (ok: bool)
      requires plat.Valid() && plat.open && mdc.Valid() && !mdc.done
      requires mdc.responseData.Text() == "" && fault == NoFault && Known(mdc)
      modifies `state, `fault, mdc`response, mdc`done, mdc.responseData, mdc.responseData.data
      modifies plat`script, plat`trace
      ensures plat.Valid() && mdc.Valid() && |plat.script| <= |old(plat.script)|
      ensures mdc.responseData.data == old(mdc.responseData.data) || fresh(mdc.responseData.data)
      ensures Grown(max, old(plat.trace), plat.trace, fault == NullLine, fault == Overrun)
      ensures !ok && fault == NoFault ==> !mdc.done && (old(state) == Error || Broke(plat.trace))
      ensures ok ==> fault == NoFault && state == Ready
      ensures ok ==> Current(max, plat.trace).Exchange? && Current(max, plat.trace).request == mdc.request.Text()
      ensures ok ==>
        IsReply(version, Current(max, plat.trace).lines, mdc.reqid, max, mdc.response, mdc.responseData.Text())
      ensures fault == NoFault ==> Remembers(mdc) && (inReset ==> SameWritten(max, old(plat.trace), plat.trace))
      ensures old(state) != Error ==> Foretold(old(Bare(mdc)), old(plat.script), fault)
    {
      hide IsReply, Grown, Broke, Written, Foretold, FaultOf, Course, Dries;
      GrownNot(max, plat.trace);
      if state == Error {
        return false;
      }
      ok := Send(mdc);
      if !ok {
        NotSent(Bare(mdc), old(plat.script), fault);
        return;
      }
      ghost var sent := plat.trace;
      ghost var answered;
      ok, answered := Recv(mdc, Exchange(mdc.request.Text(), version, inReset, Bare(mdc), []));
      ReceivedForetells(version, old(Bare(mdc)), old(plat.script), answered, plat.script, mdc.reqid, max, mdc.response,
                        mdc.responseData.Text());
      GrownTwice(max, old(plat.trace), sent, plat.trace, fault == NullLine, fault == Overrun);
    }

    /** proto_negotiate: version 2 is spoken exactly if the host agreed to it. */
    method Negotiate() returns (ok: bool)
      requires plat.Valid() && plat.open && inReset && fault == NoFault
      modifies this, plat
      ensures plat.Valid() && |plat.script| <= |old(plat.script)|
      ensures Grown(max, old(plat.trace), plat.trace, fault == NullLine, fault == Overrun)
      ensures fault == NoFault ==> plat.open && inReset && command == old(command)
      ensures ok ==> fault == NoFault && state == Ready && Negotiated(plat.trace, version, max)
      ensures fault == NoFault ==> SameWritten(max, old(plat.trace), plat.trace)
      ensures old(state) != Error ==> Foretold(true, old(plat.script), fault)
      decreases |plat.script|, 3
    {
      hide Grown, Foretold;
      var mdcsave := command;
      command := null;
      version := Version1;
      GoodNegotiation();
      var mdr, rdata;
      ghost var id;
      ok, mdr, rdata, id := Execute("NEGOTIATE", Some("V2"));
      if fault != NoFault {
        return false;
      }
      if ok {
        assert Exchanged(plat.trace, Version1, id, max, "NEGOTIATE", Some("V2"), mdr, rdata.Text());
        if mdr == V2Ok {
          version := Version2;
        }
      }
      command := mdcsave;
    }

    /** proto_reset: never called from within a reset. On success the history ends with the
     *  negotiation of the version now spoken; a permanent failure leaves the client in the reset. */
    method Reset() returns (ok: bool)
      requires plat.Valid() && !inReset && fault == NoFault
      modifies this, plat
      ensures plat.Valid() && |plat.script| <= |old(plat.script)|
      ensures Grown(max, old(plat.trace), plat.trace, fault == NullLine, fault == Overrun)
      ensures fault == NoFault ==> command == old(command) && state == Ready && ok == plat.open == !inReset
      ensures ok ==> fault == NoFault && Negotiated(plat.trace, version, max) && |plat.script| < |old(plat.script)|
      ensures fault == NoFault && !ok ==> Unopened(plat.trace)
      ensures fault == NoFault ==> SameWritten(max, old(plat.trace), plat.trace)
      ensures Opens(old(plat.script)) ==> Foretold(true, old(plat.script)[1..], fault)
      decreases |plat.script|, 3
    {
      hide Grown, Negotiated, Written, Foretold;
      GrownNot(max, plat.trace);
      var permfail := false;
      inReset := true;
      while true
        invariant plat.Valid() && inReset && command == old(command) && |plat.script| <= |old(plat.script)|
        invariant Grown(max, old(plat.trace), plat.trace, false, false) && fault == NoFault
        invariant SameWritten(max, old(plat.trace), plat.trace)
        invariant Opens(old(plat.script)) ==>
          plat.script == old(plat.script) || forall f :: Foretold(true, old(plat.script)[1..], f)
        decreases |plat.script|
      {
        ghost var before := plat.trace;
        if plat.open {
          plat.Fini();
          WrittenSnoc(max, before, Closed);
          GrownOther(max, before, Closed);
          GrownTwice(max, old(plat.trace), before, plat.trace, false, false);
        }
        state := Ready;
        before := plat.trace;
        var connected, permanent := plat.Init();
        WrittenSnoc(max, before, if connected then Opened else OpenFailed);
        GrownOther(max, before, if connected then Opened else OpenFailed);
        GrownTwice(max, old(plat.trace), before, plat.trace, false, false);
        permfail := permfail || permanent;
        if !connected {
          if permfail {
            return false;
          }
        } else {
          before := plat.trace;
          var agreed := Negotiate();
          if fault == NoFault && Opens(old(plat.script)) && Foretold(true, old(plat.script)[1..], NoFault) {
            NothingForetold(true, old(plat.script)[1..]);
          }
          GrownTwice(max, old(plat.trace), before, plat.trace, fault == NullLine, fault == Overrun);
          if fault != NoFault {
            return false;
          }
          if agreed {
            inReset := false;
            return true;
          }
        }
      }
    }
  }

  /** One more line, in either version */
  lemma LineAppends(version: Version, state: State, lines: seq<string>, line: string, id: string, max: nat, r: Response,
                    d: string)
    requires Progress(version, state, lines, id, max, r, d, false)
    ensures version == Version1 ==>
      FirstText(lines + [line]) ==
        if FirstText(lines) == [] then AppendedText(state, line) else FirstText(lines)
    ensures version == Version2 ==> AppendedText(state, line) == []
    ensures lines == [] && line == "" ==> FirstText(lines + [line]) == [""]
    ensures Writes(max, version, lines + [line]) <==>
      if version == Version1 then FirstText(lines) != [] || AppendedText(state, line) != [] else Decodes(line, max)
  {
    if version == Version1 {
      FirstTextSnoc(state, lines, line, id, max, r, d);
    }
  }

  /** proto_init: a client that can execute commands, or none; or a run that ended in a fault. */
  method Init(plat: Connection, max: nat) returns (mdp: MdataProto?, fault: Fault)
    requires plat.Valid() && !plat.open
    modifies plat
    ensures plat.Valid()
    ensures Grown(max, old(plat.trace), plat.trace, fault == NullLine, fault == Overrun)
    ensures fault == NoFault ==> (mdp != null <==> plat.open)
    ensures mdp != null ==> fresh(mdp) && mdp.plat == plat && mdp.command == null && !mdp.inReset
    ensures mdp != null ==> fault == NoFault == mdp.fault && Negotiated(plat.trace, mdp.version, max)
    ensures Opens(old(plat.script)) ==> Foretold(true, old(plat.script)[1..], fault)
  {
    hide Negotiated, Grown, Foretold;
    var client := new MdataProto(plat, max);
    var ok := client.Reset();
    return if ok then client else null, client.fault;
  }

  /** An answer that lets a call succeed, and is this line when one is read */
  function Fine(line: string): Answer {
    Answer(true, false, line, "00000000")
  }

  lemma FineIsGood(line: string)
    requires CText(line)
    ensures GoodAnswer(Fine(line))
  {
    NoAnswerIsGood();
  }

  /** A host that opens the connection, takes the request for version 2, and says these lines */
  method Meet(lines: seq<string>) returns (fault: Fault)
    requires forall i :: 0 <= i < |lines| ==> CText(lines[i])
    requires FaultOf(true, lines) != NoFault
    ensures fault == FaultOf(true, lines)
  {
    hide FaultOf, GoodAnswer;
    var script := [Fine(""), Fine("")] + seq(|lines|, i requires 0 <= i < |lines| => Fine(lines[i]));
    forall i | 0 <= i < |script| ensures GoodAnswer(script[i]) {
      FineIsGood(script[i].line);
    }
    var plat := new Connection(script);
    assert Replied(script[1..], lines);
    var _, end := Init(plat, 0xffff_ffff_ffff_ffff);
    return end;
  }

  /** A line as long as the first chunk of a buffer */
  function FullLine(): string {
    seq(STRING_CHUNK_SIZE, _ => 'x')
  }

  lemma FaultyLines()
    ensures FaultOf(true, [""]) == NullLine && CText("")
    ensures FaultOf(true, ["SUCCESS", FullLine()]) == Overrun && CText("SUCCESS") && CText(FullLine())
  {
    assert Unescape(FullLine()) == FullLine() && FillsChunk(FullLine());
    OneFills(FullLine());
    assert FirstText(["SUCCESS", FullLine()]) == [FullLine()];
  }

  /** Both faults are met: by an empty line, and by a line of data of 64 characters. */
  method FaultsHappen() returns (empty: Fault, full: Fault)
    ensures empty == NullLine && full == Overrun
  {
    hide FaultOf;
    FaultyLines();
    empty := Meet([""]);
    full := Meet(["SUCCESS", FullLine()]);
  }

  /** The history ends with the negotiation that settled the version. */
  ghost predicate Negotiated(trace: seq<Event>, version: Version, max: nat) {
    exists id, response, data ::
      && Exchanged(trace, Version1, id, max, "NEGOTIATE", Some("V2"), response, data)
      && (version == Version2 <==> response == V2Ok)
  }

  lemma GoodNegotiation()
    ensures GoodRequest("NEGOTIATE", Some("V2")) && !FillsChunk("NEGOTIATE")
  {
  }

  lemma DataPieces(d: string, text: string)
    ensures "" + text == text && (d + "\n") + text == d + ("\n" + text)
  {
  }

  lemma RequestPieces(command: string, argument: Option<string>)
    ensures "" + command == command && command + ArgumentText(None) == command
    ensures argument.Some? ==> command + " " + argument.value == command + ArgumentText(argument)
  {
  }
}
