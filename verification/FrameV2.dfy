/** Frames of version 2 of the metadata protocol: one line each, with the length and the CRC32 of
 *  the body in the header and the payload in base64.
 */
module FrameV2 {
  import Base64
  import Crc32
  import opened Dynstr
  import opened Folding
  import opened Numerals
  import opened Options
  import opened Words

  /** crc32_calc on the characters of a string, as a number */
  function Crc(s: string): (n: nat)
    ensures n < TWO32
  {
    ValueOf(Crc32.Checksum(BytesOf(s)))
  }

  // ---- parsing ----

  datatype Verdict = Accepted | NotV2 | BadLength | BadCrc | Mismatch | NoRequestId | NoCommand | BadBase64

  /** What a line was found to be, and the fields read from it before it was judged. */
  datatype Frame = Frame(verdict: Verdict, id: string, command: string, data: string)

  function SkipSpaces(s: string): string {
    if s != "" && s[0] == ' ' then SkipSpaces(s[1..]) else s
  }

  function Word(s: string): string {
    if s == "" || s[0] == ' ' then "" else [s[0]] + Word(s[1..])
  }

  function AfterWord(s: string): string {
    if s == "" || s[0] == ' ' then s else AfterWord(s[1..])
  }

  function ParseBody(body: string): Frame {
    var id := Word(body);
    if id == "" then Frame(NoRequestId, "", "", "") else
    var after := SkipSpaces(AfterWord(body));
    var command := Word(after);
    if command == "" then Frame(NoCommand, id, "", "") else
    var payload := Base64.DecodeText(SkipSpaces(AfterWord(after)));
    Frame(if payload.0 then Accepted else BadBase64, id, command, payload.1)
  }

  /** A header that was rejected, or its numbers and the rest of the line. */
  datatype Header = Bad(verdict: Verdict) | Good(length: nat, crc: nat, body: string)

  /** The checksum and what follows it */
  function CrcField(length: nat, s: string, max: nat): Header {
    var crc := Strtoul(s, 16, max);
    if Low32(crc.value) == 0 then Bad(BadCrc) else Good(length, Low32(crc.value), SkipSpaces(crc.rest))
  }

  /** The length and what follows it */
  function LengthField(s: string, max: nat): Header {
    var length := Strtoul(s, 10, max);
    if length.value == 0 then Bad(BadLength) else CrcField(length.value, SkipSpaces(length.rest), max)
  }

  function ParseHeader(line: string, max: nat): Header {
    if "V2 " <= line then LengthField(line[3..], max) else Bad(NotV2)
  }

  function Judge(h: Header): Frame {
    if h.Bad? then Frame(h.verdict, "", "", "")
    else if |h.body| != h.length || Crc(h.body) != h.crc then Frame(Mismatch, "", "", "")
    else ParseBody(h.body)
  }

  /** The line is read as far as its data. */
  predicate Decodes(line: string, max: nat) {
    ParseFrame(line, max).verdict in {Accepted, BadBase64}
  }

  /** How a line reads; max is ULONG_MAX. */
  function ParseFrame(line: string, max: nat): Frame {
    Judge(ParseHeader(line, max))
  }

  method CalcCrc(s: string) returns (n: nat)
    ensures n == Crc(s)
  {
    var c := Crc32.Crc32Calc(BytesOf(s));
    n := ValueOf(c);
  }

  /** Moves on past the spaces that come first. */
  method SkipSpacesAt(start: string) returns (endp: string)
    ensures endp == SkipSpaces(start)
  {
    endp := start;
    while endp != "" && endp[0] == ' '
      invariant SkipSpaces(endp) == SkipSpaces(start)
      decreases |endp|
    {
      endp := endp[1..];
    }
  }

  lemma WordStep(done: string, endp: string)
    requires endp != "" && endp[0] != ' '
    ensures done + Word(endp) == (done + [endp[0]]) + Word(endp[1..])
  {
  }

  /** Appends the characters before the next space, one at a time, and moves on past them. */
  method ReadWord(start: string, into: DynStr) returns (endp: string)
    requires into.Valid() && into.data == null
    modifies into
    ensures into.Valid() && into.Text() == Word(start) && (into.data == null || fresh(into.data))
    ensures endp == AfterWord(start)
  {
    endp := start;
    while endp != "" && endp[0] != ' '
      invariant into.Valid() && (into.data == null || fresh(into.data))
      invariant into.Text() + Word(endp) == Word(start) && AfterWord(endp) == AfterWord(start)
      decreases |endp|
    {
      WordStep(into.Text(), endp);
      into.AppendC(endp[0]);
      endp := endp[1..];
    }
  }

  /** proto_parse_v2 up to the body; a pointer into the line is the part of the line it points at. */
  method ReadHeader(input: string, max: nat) returns (h: Header)
    ensures h == ParseHeader(input, max)
  {
    if !("V2 " <= input) {
      return Bad(NotV2);
    }
    var length := Strtoul(input[3..], 10, max);
    if length.value == 0 {
      return Bad(BadLength);
    }
    var endp := SkipSpacesAt(length.rest);
    var number := Strtoul(endp, 16, max);
    var crc := Low32(number.value);
    if crc == 0 {
      return Bad(BadCrc);
    }
    endp := SkipSpacesAt(number.rest);
    return Good(length.value, crc, endp);
  }

  /** proto_parse_v2 from the body on */
  method ReadBody(body: string, requestId: DynStr, command: DynStr, responseData: DynStr) returns (verdict: Verdict)
    requires requestId.Valid() && command.Valid() && responseData.Valid()
    requires requestId.data == null && command.data == null
    requires requestId != command && requestId != responseData && command != responseData
    modifies requestId, command, responseData, responseData.data
    ensures requestId.Valid() && command.Valid() && responseData.Valid()
    ensures responseData.data == old(responseData.data) || fresh(responseData.data)
    ensures Frame(verdict, requestId.Text(), command.Text(), "") == ParseBody(body).(data := "")
    ensures responseData.Text() == old(responseData.Text()) + ParseBody(body).data
    ensures responseData.data == null <==> old(responseData.data) == null && verdict !in {Accepted, BadBase64}
  {
    ghost var before := responseData.Text();
    assert before + "" == before;
    var endp := ReadWord(body, requestId);
    if requestId.strlen == 0 {
      return NoRequestId;
    }
    endp := SkipSpacesAt(endp);
    endp := ReadWord(endp, command);
    if command.strlen == 0 {
      return NoCommand;
    }
    endp := SkipSpacesAt(endp);
    var ok := Base64.Decode(endp, responseData);
    return if ok then Accepted else BadBase64;
  }

  /** proto_parse_v2 */
  method ParseV2(input: string, max: nat, requestId: DynStr, command: DynStr, responseData: DynStr)
    returns (verdict: Verdict)
    requires requestId.Valid() && command.Valid() && responseData.Valid()
    requires requestId.data == null && command.data == null
    requires requestId != command && requestId != responseData && command != responseData
    modifies requestId, command, responseData, responseData.data
    ensures requestId.Valid() && command.Valid() && responseData.Valid()
    ensures responseData.data == old(responseData.data) || fresh(responseData.data)
    ensures Frame(verdict, requestId.Text(), command.Text(), "") == ParseFrame(input, max).(data := "")
    ensures responseData.Text() == old(responseData.Text()) + ParseFrame(input, max).data
    ensures responseData.data == null <==> old(responseData.data) == null && !Decodes(input, max)
  {
    ghost var before := responseData.Text();
    assert before + "" == before;
    var h := ReadHeader(input, max);
    if h.Bad? {
      return h.verdict;
    }
    var actual := CalcCrc(h.body);
    if |h.body| != h.length || actual != h.crc {
      return Mismatch;
    }
    verdict := ReadBody(h.body, requestId, command, responseData);
  }

  // ---- making a request ----

  function Payload(argument: Option<string>): string
    requires argument.Some? ==> CText(argument.value)
  {
    match argument
    case None => ""
    case Some(a) => " " + Base64.EncodeText(ArgumentBytes(a))
  }

  function ArgumentBytes(a: string): (b: seq<Base64.Byte>)
    requires CText(a)
    ensures |b| == |a| && forall i :: 0 <= i < |a| ==> b[i] == a[i] as int
  {
    seq(|a|, i requires 0 <= i < |a| => a[i] as int)
  }

  function BodyText(id: string, command: string, argument: Option<string>): string
    requires argument.Some? ==> CText(argument.value)
  {
    id + (" " + (command + Payload(argument)))
  }

  /** The line that carries a body, under a header with the given length and checksum. */
  function Line(length: nat, crc: nat, body: string): string {
    "V2 " + (Text(length, 10) + (" " + (ZeroPadded(Text(crc, 16), 8) + (" " + body))))
  }

  /** %u of a length keeps its low 32 bits. */
  function RequestLine(id: string, command: string, argument: Option<string>): string
    requires argument.Some? ==> CText(argument.value)
  {
    var body := BodyText(id, command, argument);
    Line(Low32(|body|), Crc(body), body)
  }

  // ---- reading back what was made ----

  lemma SkipsOne(s: string)
    requires s == "" || s[0] != ' '
    ensures SkipSpaces(s) == s && SkipSpaces(" " + s) == s
  {
    assert (" " + s)[1..] == s;
  }

  predicate NoSpace(s: string) {
    forall i :: 0 <= i < |s| ==> s[i] != ' '
  }

  lemma {:induction false} WordReads(w: string, rest: string)
    requires NoSpace(w) && (rest == "" || rest[0] == ' ')
    ensures Word(w + rest) == w && AfterWord(w + rest) == rest
  {
    if w == "" {
      assert w + rest == rest;
    } else {
      assert (w + rest)[1..] == w[1..] + rest;
      WordReads(w[1..], rest);
    }
  }

  lemma {:induction false} WordIsWord(s: string)
    ensures NoSpace(Word(s))
  {
    if s != "" && s[0] != ' ' {
      WordIsWord(s[1..]);
    }
  }

  lemma {:induction false} SkipSpacesSkips(s: string)
    ensures var t := SkipSpaces(s); |t| <= |s| && (t == "" || t[0] != ' ') && (t == s || |t| < |s|)
  {
    if s != "" && s[0] == ' ' {
      SkipSpacesSkips(s[1..]);
    }
  }

  lemma CrcReads(length: nat, crc: nat, body: string, max: nat)
    requires max >= TWO32 - 1 && crc < TWO32
    ensures CrcField(length, ZeroPadded(Text(crc, 16), 8) + (" " + body), max)
            == if crc == 0 then Bad(BadCrc) else Good(length, crc, SkipSpaces(body))
  {
    HexReads(crc, 8, max, " " + body);
    assert (" " + body)[1..] == body;
  }

  lemma LengthReads(length: nat, s: string, max: nat)
    requires max >= TWO32 - 1 && length < TWO32 && SkipSpaces(" " + s) == s
    ensures LengthField(Text(length, 10) + (" " + s), max)
            == if length == 0 then Bad(BadLength) else CrcField(length, s, max)
  {
    DecimalReads(length, max, " " + s);
  }

  lemma HexStart(crc: nat, end: string)
    ensures var hex := ZeroPadded(Text(crc, 16), 8); SkipSpaces(" " + (hex + end)) == hex + end
  {
    var hex := ZeroPadded(Text(crc, 16), 8);
    TextIsDigits(crc, 16);
    PaddingReads(Text(crc, 16), 8, 16, end);
    DigitIsPlain(hex[0], 16);
    SkipsOne(hex + end);
  }

  /** The header of a line gives its numbers and body. */
  lemma LineReads(length: nat, crc: nat, body: string, max: nat)
    requires max >= TWO32 - 1 && length < TWO32 && crc < TWO32
    ensures ParseHeader(Line(length, crc, body), max) ==
            if length == 0 then Bad(BadLength) else if crc == 0 then Bad(BadCrc)
            else Good(length, crc, SkipSpaces(body))
  {
    var s := ZeroPadded(Text(crc, 16), 8) + (" " + body);
    assert Line(length, crc, body)[3..] == Text(length, 10) + (" " + s);
    HexStart(crc, " " + body);
    LengthReads(length, s, max);
    CrcReads(length, crc, body, max);
  }

  lemma PayloadReads(argument: Option<string>)
    requires argument.Some? ==> CText(argument.value)
    ensures var p := Payload(argument);
            && (p == "" || p[0] == ' ')
            && Base64.DecodeText(SkipSpaces(p)) == (true, if argument.Some? then argument.value else "")
  {
    if argument.Some? {
      var x := ArgumentBytes(argument.value);
      Base64.EncodedIsText(x);
      SkipsOne(Base64.EncodeText(x));
      Base64.RoundTrip(x);
      assert Base64.Chars(x) == argument.value;
    }
  }

  lemma BodyReads(id: string, command: string, argument: Option<string>)
    requires id != "" && NoSpace(id) && command != "" && NoSpace(command)
    requires argument.Some? ==> CText(argument.value)
    ensures ParseBody(BodyText(id, command, argument)) == Sent(id, command, argument)
  {
    var p := Payload(argument);
    PayloadReads(argument);
    WordReads(id, " " + (command + p));
    assert (command + p)[0] == command[0];
    SkipsOne(command + p);
    WordReads(command, p);
  }

  lemma BodyStart(id: string, command: string, argument: Option<string>)
    requires id != "" && NoSpace(id)
    requires argument.Some? ==> CText(argument.value)
    ensures SkipSpaces(BodyText(id, command, argument)) == BodyText(id, command, argument)
  {
    assert BodyText(id, command, argument)[0] == id[0];
  }

  lemma AcceptedHasCommand(body: string)
    requires ParseBody(body).verdict == Accepted
    ensures ParseBody(body).command != "" && NoSpace(ParseBody(body).command)
  {
    WordIsWord(SkipSpaces(AfterWord(body)));
  }

  /** A line is accepted exactly when its length and checksum fit and its body is. */
  lemma LineIsJudged(body: string, max: nat)
    requires max >= TWO32 - 1 && body != "" && SkipSpaces(body) == body
    ensures ParseFrame(Line(Low32(|body|), Crc(body), body), max) ==
            if Low32(|body|) == 0 then Frame(BadLength, "", "", "")
            else if Crc(body) == 0 then Frame(BadCrc, "", "", "")
            else if |body| >= TWO32 then Frame(Mismatch, "", "", "")
            else ParseBody(body)
  {
    hide Crc, Line, ParseHeader, ParseBody;
    LineReads(Low32(|body|), Crc(body), body, max);
  }

  lemma LineAccepted(body: string, f: Frame, max: nat)
    requires max >= TWO32 - 1 && body != "" && SkipSpaces(body) == body && f.verdict == Accepted
    ensures ParseFrame(Line(Low32(|body|), Crc(body), body), max) == f
       <==> |body| < TWO32 && Crc(body) != 0 && ParseBody(body) == f
  {
    LineIsJudged(body, max);
  }

  /** A body parses back exactly when the command is a non-empty word. */
  lemma BodyRoundTrip(id: string, command: string, argument: Option<string>)
    requires id != "" && NoSpace(id)
    requires argument.Some? ==> CText(argument.value)
    ensures ParseBody(BodyText(id, command, argument)) == Sent(id, command, argument)
       <==> command != "" && NoSpace(command)
  {
    if command != "" && NoSpace(command) {
      BodyReads(id, command, argument);
    } else if ParseBody(BodyText(id, command, argument)).verdict == Accepted {
      AcceptedHasCommand(BodyText(id, command, argument));
    }
  }

  /** The accepted frame with these fields */
  function Sent(id: string, command: string, argument: Option<string>): Frame {
    Frame(Accepted, id, command, if argument.Some? then argument.value else "")
  }

  /** A request parses back to its id, command and argument exactly when the command is a non-empty
   *  word, the length fits the header and the checksum is not zero. */
  lemma RequestRoundTrip(id: string, command: string, argument: Option<string>, max: nat)
    requires id != "" && NoSpace(id) && max >= TWO32 - 1
    requires argument.Some? ==> CText(argument.value)
    ensures ParseFrame(RequestLine(id, command, argument), max) == Sent(id, command, argument)
       <==> && command != "" && NoSpace(command)
            && |BodyText(id, command, argument)| < TWO32
            && Crc(BodyText(id, command, argument)) != 0
  {
    BodyStart(id, command, argument);
    LineAccepted(BodyText(id, command, argument), Sent(id, command, argument), max);
    BodyRoundTrip(id, command, argument);
  }

  lemma BytesDifferInWindow(a: string, b: string, i: nat)
    requires DifferInWindow(a, b, i)
    ensures DifferInWindow(BytesOf(a), BytesOf(b), i)
  {
    forall k | 0 <= k < i ensures BytesOf(a)[k] == BytesOf(b)[k] {
      assert a[..i][k] == b[..i][k];
    }
    forall k | i + 4 <= k < |a| ensures BytesOf(a)[k] == BytesOf(b)[k] {
      assert a[i + 4..][k - (i + 4)] == b[i + 4..][k - (i + 4)];
    }
  }

  lemma DamageChangesCrc(body: string, damaged: string, i: nat)
    requires CText(body) && CText(damaged) && DifferInWindow(body, damaged, i) && body != damaged
    ensures Crc(body) != Crc(damaged)
  {
    BytesDifferInWindow(body, damaged, i);
    if BytesOf(body) == BytesOf(damaged) {
      BytesAreInjective(body, damaged);
    }
    Crc32.BurstDetected(BytesOf(body), BytesOf(damaged), i);
    if Crc(body) == Crc(damaged) {
      ValueIsInjective(Crc32.Checksum(BytesOf(body)), Crc32.Checksum(BytesOf(damaged)));
    }
  }

  /** A frame whose body was changed within four consecutive characters is never accepted. */
  lemma DamagedBodyDropped(body: string, damaged: string, i: nat, max: nat)
    requires CText(body) && CText(damaged) && |body| < TWO32 && max >= TWO32 - 1
    requires DifferInWindow(body, damaged, i) && body != damaged
    ensures ParseFrame(Line(|body|, Crc(body), damaged), max).verdict in {BadLength, BadCrc, Mismatch}
  {
    LineReads(|body|, Crc(body), damaged, max);
    SkipSpacesSkips(damaged);
    DamageChangesCrc(body, damaged, i);
  }

  lemma HeaderBodyStart(line: string, max: nat)
    ensures var h := ParseHeader(line, max); h.Good? ==> h.length != 0 && (h.body == "" || h.body[0] != ' ')
  {
    if "V2 " <= line {
      var length := Strtoul(line[3..], 10, max);
      SkipSpacesSkips(Strtoul(SkipSpaces(length.rest), 16, max).rest);
    }
  }

  /** The check for a missing request id can never fire: the length was checked before. */
  lemma RequestIdIsPresent(line: string, max: nat)
    ensures ParseFrame(line, max).verdict != NoRequestId
  {
    HeaderBodyStart(line, max);
  }

  lemma DigitsAreText(s: string)
    requires AllDigits(s, 16)
    ensures NulFree(s)
  {
    forall i | 0 <= i < |s| ensures s[i] != '\0' {
      DigitIsPlain(s[i], 16);
    }
  }

  lemma HeaderIsText(length: nat, crc: nat)
    ensures NulFree(Text(length, 10) + (" " + ZeroPadded(Text(crc, 16), 8)))
  {
    TextIsDigits(length, 10);
    DigitsAreText(Text(length, 10));
    TextIsDigits(crc, 16);
    PaddingReads(Text(crc, 16), 8, 16, "");
    DigitsAreText(ZeroPadded(Text(crc, 16), 8));
  }

  lemma BodyIsText(id: string, command: string, argument: Option<string>)
    requires NulFree(id) && CText(command) && (argument.Some? ==> CText(argument.value))
    ensures NulFree(BodyText(id, command, argument))
  {
    hide Base64.EncodeText;
    if argument.Some? {
      Base64.EncodedIsText(ArgumentBytes(argument.value));
    }
  }

  lemma BodyPieces(id: string, command: string, p: string)
    ensures "" + id + " " + command + p == id + (" " + (command + p))
  {
  }

  lemma LinePieces(a: string, b: string, c: string, d: string, body: string)
    ensures a + "V2 " + (b + (c + d)) + " " + body + "\n" == a + (("V2 " + (b + (c + (d + (" " + body))))) + "\n")
  {
  }

  /** proto_make_request_v2, where reqid is the id it draws */
  method MakeRequestV2(command: string, argument: Option<string>, output: DynStr, reqid: string)
    requires output.Valid() && CText(command) && (argument.Some? ==> CText(argument.value))
    requires |reqid| == 8 && AllDigits(reqid, 16)
    modifies output, output.data
    ensures output.Valid() && output.data != null && (output.data == old(output.data) || fresh(output.data))
    ensures output.Text() == old(output.Text()) + (RequestLine(reqid, command, argument) + "\n")
  {
    hide Crc, BodyText, ZeroPadded, Text, IsDoubled, AllDigits;
    var body := MakeBody(command, argument, reqid);
    output.AppendShort("V2 ");
    var length := Low32(|body|);
    var crc := CalcCrc(body);
    var strbuf := Text(length, 10) + (" " + ZeroPadded(Text(crc, 16), 8));
    HeaderIsText(length, crc);
    output.Extend(strbuf);
    output.Extend(" ");
    output.Extend(body);
    output.Extend("\n");
    LinePieces(old(output.Text()), Text(length, 10), " ", ZeroPadded(Text(crc, 16), 8), body);
  }

  method AddArgument(argument: Option<string>, body: DynStr)
    requires body.Valid() && body.data != null && (argument.Some? ==> CText(argument.value))
    modifies body, body.data
    ensures body.Valid() && body.data != null && (body.data == old(body.data) || fresh(body.data))
    ensures body.Text() == old(body.Text()) + Payload(argument)
  {
    hide Base64.EncodeText;
    if argument.Some? {
      body.Extend(" ");
      Base64.Encode(ArgumentBytes(argument.value), body);
    }
  }

  /** The body that the header is computed from */
  method MakeBody(command: string, argument: Option<string>, reqid: string) returns (text: string)
    requires CText(command) && (argument.Some? ==> CText(argument.value))
    requires |reqid| == 8 && AllDigits(reqid, 16)
    ensures text == BodyText(reqid, command, argument) && NulFree(text)
  {
    var body := new DynStr();
    DigitsAreText(reqid);
    body.AppendShort(reqid);
    body.Extend(" ");
    body.Extend(command);
    AddArgument(argument, body);
    BodyPieces(reqid, command, Payload(argument));
    BodyIsText(reqid, command, argument);
    text := body.Text();
  }
}
