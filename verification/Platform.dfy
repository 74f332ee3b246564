/** The connection to the metadata host, and everything it may answer.
 *  A run is driven by a script of answers, one for each call into the platform; once it is used up
 *  nothing can be opened, sent or received any more. Any finite run is a run over some script.
 */
module Platform {
  import opened Dynstr
  import opened Numerals
  import opened Words

  /** What the outside does when it is asked next: each call reads the parts that concern it. */
  datatype Answer = Answer(ok: bool, permanent: bool, line: string, id: string)

  datatype Version = Version1 | Version2

  /** What has happened: a caller has asked for something to be executed, or something happened on the
   *  connection. A request is sent in a version, from within a reset or on behalf of the caller. */
  datatype Event = Asked | Opened | Closed | OpenFailed | Sent(request: string, version: Version, negotiating: bool)
    | SendFailed | Received(line: string) | TimedOut

  const NO_ANSWER := Answer(false, true, "", "00000000")

  function NextAnswer(script: seq<Answer>): Answer {
    if script == [] then NO_ANSWER else script[0]
  }

  function LaterAnswers(script: seq<Answer>): seq<Answer> {
    if script == [] then [] else script[1..]
  }

  predicate GoodAnswer(a: Answer) {
    && CText(a.line)
    && |a.id| == 8 && AllDigits(a.id, 16)
  }

  class Connection {
    var open: bool
    var script: seq<Answer>
    ghost var trace: seq<Event>

    ghost predicate Valid()
      reads this
    {
      forall i :: 0 <= i < |script| ==> GoodAnswer(script[i])
    }

    constructor (script: seq<Answer>)
      requires forall i :: 0 <= i < |script| ==> GoodAnswer(script[i])
      ensures Valid() && !open && trace == [] && this.script == script
    {
      open, trace, this.script := false, [], script;
    }

    /** A caller asks for a command to be executed. */
    ghost method Ask()
      modifies this`trace
      ensures trace == old(trace) + [Asked]
    {
      trace := trace + [Asked];
    }

    method Next() returns (a: Answer)
      requires Valid()
      modifies this`script
      ensures Valid() && GoodAnswer(a) && a == NextAnswer(old(script)) && script == LaterAnswers(old(script))
      ensures |script| <= |old(script)| && (a.ok || !a.permanent ==> |script| < |old(script)|)
    {
      if script == [] {
        NoAnswerIsGood();
        return NO_ANSWER;
      }
      a := script[0];
      script := script[1..];
    }

    /** plat_init; permfail may be set even when it succeeds */
    method Init() returns (ok: bool, permfail: bool)
      requires Valid() && !open
      modifies this
      ensures Valid() && open == ok && |script| <= |old(script)| && (ok || !permfail ==> |script| < |old(script)|)
      ensures trace == old(trace) + [if ok then Opened else OpenFailed]
      ensures ok == NextAnswer(old(script)).ok && script == LaterAnswers(old(script))
    {
      var a := Next();
      ok, permfail, open := a.ok, a.permanent, a.ok;
      trace := trace + [if ok then Opened else OpenFailed];
    }

    /** plat_fini */
    method Fini()
      requires Valid() && open
      modifies this`open, this`trace
      ensures Valid() && !open && trace == old(trace) + [Closed]
    {
      open := false;
      trace := trace + [Closed];
    }

    /** plat_send */
    method Send(request: DynStr, ghost version: Version, ghost negotiating: bool) returns (ok: bool)
      requires Valid() && open && request.Valid()
      modifies this`script, this`trace
      ensures Valid() && |script| <= |old(script)|
      ensures trace == old(trace) + [if ok then Sent(request.Text(), version, negotiating) else SendFailed]
      ensures ok == NextAnswer(old(script)).ok && script == LaterAnswers(old(script))
    {
      var a := Next();
      ok := a.ok;
      trace := trace + [if ok then Sent(request.Text(), version, negotiating) else SendFailed];
    }

    /** plat_recv: a line without its newline is appended, one character at a time */
    method Recv(data: DynStr) returns (ok: bool, ghost line: string)
      requires Valid() && open && data.Valid()
      modifies this`script, this`trace, data, data.data
      ensures Valid() && |script| <= |old(script)| && (ok ==> |script| < |old(script)|)
      ensures data.Valid() && (data.data == old(data.data) || fresh(data.data))
      ensures !ok ==> trace == old(trace) + [TimedOut]
      ensures ok ==> trace == old(trace) + [Received(line)]
      ensures CText(line) && data.Text() == old(data.Text()) + line
      ensures data.data == null <==> old(data.data) == null && line == ""
      ensures ok == NextAnswer(old(script)).ok && line == NextAnswer(old(script)).line
      ensures script == LaterAnswers(old(script))
    {
      hide GoodAnswer, NextAnswer, LaterAnswers;
      var a := Next();
      ok, line := a.ok, a.line;
      trace := trace + [if ok then Received(a.line) else TimedOut];
      ghost var rest, events := script, trace;
      for i := 0 to |a.line|
        invariant data.Valid() && (data.data == old(data.data) || fresh(data.data))
        invariant data.Text() == old(data.Text()) + a.line[..i]
        invariant data.data == null <==> old(data.data) == null && i == 0
        invariant script == rest && trace == events
      {
        assert a.line[..i + 1] == a.line[..i] + [a.line[i]];
        data.AppendC(a.line[i]);
      }
      assert a.line[..|a.line|] == a.line;
    }

    /** reqid: eight random hex digits */
    method DrawId() returns (id: string)
      requires Valid()
      modifies this`script
      ensures Valid() && |script| <= |old(script)| && |id| == 8 && AllDigits(id, 16)
    {
      var a := Next();
      id := a.id;
    }
  }

  lemma NoAnswerIsGood()
    ensures GoodAnswer(NO_ANSWER)
  {
    assert forall i :: 0 <= i < 8 ==> NO_ANSWER.id[i] == '0';
  }
}
