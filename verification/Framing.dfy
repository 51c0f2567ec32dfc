/** Content-Length framing of the language server, as the "Base Protocol" section of the Language Server
    Protocol 3.17 specifies it. A byte string is a string with one character per byte. */
module Framing {
  import opened Outcomes
  import opened Decimal
  import opened Sequences
  import opened Text

  datatype Reading =
    | Body(bytes: string)
    | EndOfStream      // also the answer to a message of length zero
    | BadLength        // ValueError, from `int` or from reading a length below -1

  const LENGTH_FIELD := "content-length:"

  function Frame(body: string): string {
    "Content-Length: " + Print(|body|) + "\r\n\r\n" + body
  }

  // ----- the stream -----

  /** The length of the first line, its newline included. */
  function LineLength(data: string): (n: nat)
    ensures n <= |data| && (data != [] ==> n > 0)
  {
    if data == [] then 0 else if data[0] == '\n' then 1 else 1 + LineLength(data[1..])
  }

  /** `read(n)`: at most n bytes, or everything when n is -1. */
  function TakeLength(data: string, n: int): nat
    requires n >= -1
  {
    if n == -1 || n > |data| then |data| else n
  }

  function AfterColon(line: string): string {
    if line == [] then [] else if line[0] == ':' then line[1..] else AfterColon(line[1..])
  }

  predicate IsLengthLine(line: string) {
    LENGTH_FIELD <= Lower(line)
  }

  /** The headers: the length they announce, and what follows them; None at end of stream. */
  datatype Headers = Announced(length: int, rest: string) | NoMore | Malformed(rest: string)

  function ReadHeaders(data: string, length: int): Headers
    decreases |data|
  {
    if data == [] then NoMore
    else
      var n := LineLength(data);
      var line, rest := Strip(data[..n]), data[n..];
      if line == [] then Announced(length, rest)
      else if !IsLengthLine(line) then ReadHeaders(rest, length)
      else
        match ParseInt(Strip(AfterColon(line)))
        case None => Malformed(rest)
        case Some(v) => ReadHeaders(rest, v)
  }

  /** One message, and what is left of the stream. */
  function Read(data: string): (Reading, string) {
    match ReadHeaders(data, 0)
    case NoMore => (EndOfStream, [])
    case Malformed(rest) => (BadLength, rest)
    case Announced(length, rest) =>
      if length == 0 then (EndOfStream, rest)
      else if length < -1 then (BadLength, rest)
      else
        var n := TakeLength(rest, length);
        (Body(rest[..n]), rest[n..])
  }

  class Stream {
    var data: string  // what has not been read yet

    constructor (data: string)
      ensures this.data == data
    {
      this.data := data;
    }

    method ReadLine() returns (line: string)
      modifies this
      ensures line == old(data)[..LineLength(old(data))] && data == old(data)[LineLength(old(data))..]
    {
      var n := LineLength(data);
      line, data := data[..n], data[n..];
    }

    method ReadBytes(n: int) returns (bytes: string)
      requires n >= -1
      modifies this
      ensures bytes == old(data)[..TakeLength(old(data), n)] && data == old(data)[TakeLength(old(data), n)..]
    {
      var k := TakeLength(data, n);
      bytes, data := data[..k], data[k..];
    }
  }

  method ReadMessage(stream: Stream) returns (r: Reading)
    modifies stream
    ensures (r, stream.data) == Read(old(stream.data))
  {
    var contentLength := 0;
    while true
      invariant ReadHeaders(stream.data, contentLength) == ReadHeaders(old(stream.data), 0)
      decreases |stream.data|
    {
      var line := stream.ReadLine();
      if line == [] {
        return EndOfStream;
      }
      line := Strip(line);
      if line == [] {
        break;
      }
      if IsLengthLine(line) {
        var parsed := ParseInt(Strip(AfterColon(line)));
        if parsed.None? {
          return BadLength;
        }
        contentLength := parsed.value;
      }
    }
    if contentLength == 0 {
      return EndOfStream;
    }
    if contentLength < -1 {
      return BadLength;
    }
    var body := stream.ReadBytes(contentLength);
    r := Body(body);
  }

  method WriteMessage(stream: Stream, body: string)
    modifies stream
    ensures stream.data == old(stream.data) + Frame(body)
  {
    var header := "Content-Length: " + Print(|body|) + "\r\n\r\n";
    stream.data := stream.data + (header + body);
    assert Frame(body) == header + body;
  }

  // ----- reading what was written -----

  predicate NoNewline(s: string) {
    forall i :: 0 <= i < |s| ==> s[i] != '\n'
  }

  lemma {:induction false} LineLengthIs(line: string, rest: string)
    requires NoNewline(line)
    ensures LineLength(line + "\n" + rest) == |line| + 1
  {
    var data := line + "\n" + rest;
    if line != [] {
      LineLengthIs(line[1..], rest);
      assert data[1..] == line[1..] + "\n" + rest;
    }
  }

  lemma {:induction false} StripKeeps(s: string)
    requires s != [] && !IsSpace(s[0]) && !IsSpace(s[|s| - 1])
    ensures Strip(s + "\r\n") == s && Strip([' '] + s) == s && Strip(s) == s
  {
    var t := s + "\r\n";
    assert LStrip(t) == t;
    assert t[..|t| - 1] == s + "\r";
    assert (s + "\r")[..|s + "\r"| - 1] == s;
    assert RStrip(t) == RStrip(s + "\r") == RStrip(s) == s;
    assert ([' '] + s)[1..] == s;
    assert LStrip([' '] + s) == LStrip(s) == s;
  }

  /** A header other than the length: its line is skipped, whatever it says. */
  predicate OtherHeader(line: string) {
    line != [] && !IsSpace(line[0]) && !IsSpace(line[|line| - 1]) && NoNewline(line) && !IsLengthLine(line)
  }

  lemma OtherHeaderSkipped(line: string, rest: string, length: int)
    requires OtherHeader(line)
    ensures ReadHeaders(line + "\r\n" + rest, length) == ReadHeaders(rest, length)
  {
    var data := line + "\r\n" + rest;
    assert data == (line + "\r") + "\n" + rest;
    LineLengthIs(line + "\r", rest);
    assert data[..|line| + 2] == line + "\r\n";
    assert data[|line| + 2..] == rest;
    StripKeeps(line);
  }

  lemma LengthLineRead(n: nat, rest: string, length: int)
    ensures ReadHeaders("Content-Length: " + Print(n) + "\r\n" + rest, length) == ReadHeaders(rest, n)
  {
    var name, digits := "Content-Length: ", Print(n);
    var line := name + digits;
    var data := name + digits + "\r\n" + rest;
    assert NoNewline(line + "\r") by {
      forall i | 0 <= i < |line|
        ensures line[i] != '\n'
      {
        assert i >= |name| ==> line[i] == digits[i - |name|] && IsDigit(digits[i - |name|]);
      }
    }
    assert data == (line + "\r") + "\n" + rest;
    LineLengthIs(line + "\r", rest);
    assert data[..|line| + 2] == line + "\r\n";
    assert data[|line| + 2..] == rest;
    assert line[|line| - 1] == digits[|digits| - 1];
    StripKeeps(line);
    LengthFieldOf(digits);
    assert !IsSpace(digits[0]) && !IsSpace(digits[|digits| - 1]) by {
      assert IsDigit(digits[0]) && IsDigit(digits[|digits| - 1]);
    }
    StripKeeps(digits);
    ParsePrint(n);
  }

  lemma LengthFieldOf(digits: string)
    ensures IsLengthLine("Content-Length: " + digits)
    ensures AfterColon("Content-Length: " + digits) == [' '] + digits
  {
    var line := "Content-Length: " + digits;
    assert Lower(line)[..15] == LENGTH_FIELD;
    ColonAt(line, 14);
    assert line[15..] == [' '] + digits;
  }

  lemma {:induction false} ColonAt(line: string, k: nat)
    requires k < |line| && line[k] == ':' && forall i :: 0 <= i < k ==> line[i] != ':'
    ensures AfterColon(line) == line[k + 1..]
  {
    if k > 0 {
      ColonAt(line[1..], k - 1);
      assert line[1..][k..] == line[k + 1..];
    }
  }

  lemma BlankLineEnds(rest: string, length: int)
    ensures ReadHeaders("\r\n" + rest, length) == Announced(length, rest)
  {
    var data := "\r\n" + rest;
    assert data == "\r" + "\n" + rest;
    LineLengthIs("\r", rest);
    assert data[..2] == "\r\n" && data[2..] == rest;
    assert LStrip("\r\n") == LStrip("\n") == [];
  }

  function Lines(headers: seq<string>): string {
    if headers == [] then [] else headers[0] + "\r\n" + Lines(headers[1..])
  }

  lemma {:induction false} OtherHeadersSkipped(headers: seq<string>, rest: string, length: int)
    requires forall h :: h in headers ==> OtherHeader(h)
    ensures ReadHeaders(Lines(headers) + rest, length) == ReadHeaders(rest, length)
  {
    if headers == [] {
      assert Lines(headers) + rest == rest;
    } else {
      assert Lines(headers) + rest == headers[0] + "\r\n" + (Lines(headers[1..]) + rest);
      OtherHeaderSkipped(headers[0], Lines(headers[1..]) + rest, length);
      OtherHeadersSkipped(headers[1..], rest, length);
    }
  }

  /** A message with any further headers, before or after the length, is read back whole, and the stream is
      left at the first byte after it. Only a body of length zero reads as the end of the stream. */
  lemma ReadOfFramed(before: seq<string>, behind: seq<string>, body: string, tail: string)
    requires forall h :: h in before || h in behind ==> OtherHeader(h)
    ensures Read(Lines(before)
                 + ("Content-Length: " + Print(|body|) + "\r\n" + (Lines(behind) + ("\r\n" + (body + tail)))))
         == (if body == [] then EndOfStream else Body(body), tail)
  {
    var end := "\r\n" + (body + tail);
    var announced := "Content-Length: " + Print(|body|) + "\r\n" + (Lines(behind) + end);
    OtherHeadersSkipped(before, announced, 0);
    LengthLineRead(|body|, Lines(behind) + end, 0);
    OtherHeadersSkipped(behind, end, |body|);
    BlankLineEnds(body + tail, |body|);
    assert (body + tail)[..|body|] == body && (body + tail)[|body|..] == tail;
  }

  lemma ReadOfFrame(body: string, tail: string)
    ensures Read(Frame(body) + tail) == (if body == [] then EndOfStream else Body(body), tail)
  {
    ReadOfFramed([], [], body, tail);
    assert Lines([]) == [];
    assert Frame(body) + tail
        == Lines([]) + ("Content-Length: " + Print(|body|) + "\r\n" + (Lines([]) + ("\r\n" + (body + tail))));
  }

  function Frames(bodies: seq<string>): string {
    if bodies == [] then [] else Frame(bodies[0]) + Frames(bodies[1..])
  }

  lemma ReadShortens(data: string)
    ensures Read(data).0.Body? ==> |Read(data).1| < |data|
  {
    HeadersShorten(data, 0);
  }

  lemma {:induction false} HeadersShorten(data: string, length: int)
    ensures ReadHeaders(data, length).Announced? ==> |ReadHeaders(data, length).rest| < |data|
    decreases |data|
  {
    if data != [] {
      var n := LineLength(data);
      var line := Strip(data[..n]);
      if line != [] {
        if !IsLengthLine(line) {
          HeadersShorten(data[n..], length);
        } else if ParseInt(Strip(AfterColon(line))).Some? {
          HeadersShorten(data[n..], ParseInt(Strip(AfterColon(line))).value);
        }
      }
    }
  }

  /** The server's main loop: read messages until the stream ends or a header is malformed. */
  function ReadAll(data: string): (seq<string>, Reading)
    decreases |data|
  {
    var (r, rest) := Read(data);
    if !r.Body? then ([], r)
    else
      ReadShortens(data);
      var (bodies, end) := ReadAll(rest);
      ([r.bytes] + bodies, end)
  }

  lemma ReadAllOfFrame(body: string, rest: string)
    requires body != []
    ensures ReadAll(Frame(body) + rest) == ([body] + ReadAll(rest).0, ReadAll(rest).1)
  {
    ReadOfFrame(body, rest);
  }

  lemma ReadAllOfEmptyFrame(rest: string)
    ensures ReadAll(Frame([]) + rest) == ([], EndOfStream)
  {
    ReadOfFrame([], rest);
  }

  /** The bodies before the first empty one. */
  function BeforeEmpty(bodies: seq<string>): seq<string> {
    if bodies == [] || bodies[0] == [] then [] else [bodies[0]] + BeforeEmpty(bodies[1..])
  }

  /** Reading written frames gives the bodies up to the first empty one, in order and whatever bytes they contain,
      and then end of stream. */
  lemma {:induction false} ReadAllOfFrames(bodies: seq<string>)
    ensures ReadAll(Frames(bodies)) == (BeforeEmpty(bodies), EndOfStream)
  {
    if bodies != [] {
      if bodies[0] == [] {
        ReadAllOfEmptyFrame(Frames(bodies[1..]));
      } else {
        ReadAllOfFrame(bodies[0], Frames(bodies[1..]));
        ReadAllOfFrames(bodies[1..]);
      }
    }
  }

  lemma {:induction false} BeforeEmptyIff(bodies: seq<string>)
    ensures BeforeEmpty(bodies) == bodies <==> [] !in bodies
  {
    if bodies != [] {
      BeforeEmptyIff(bodies[1..]);
      assert bodies == [bodies[0]] + bodies[1..];
      if bodies[0] != [] {
        SameCons(bodies[0], BeforeEmpty(bodies[1..]), bodies[0], bodies[1..]);
      }
    }
  }

  /** So a list of bodies survives the wire exactly when none of them is empty. */
  lemma AllBodiesSurviveIff(bodies: seq<string>)
    ensures ReadAll(Frames(bodies)) == (bodies, EndOfStream) <==> [] !in bodies
  {
    ReadAllOfFrames(bodies);
    BeforeEmptyIff(bodies);
  }

  // ----- any headers at all -----

  /** A header line: one that says nothing about the length, or the length field with its value, if any, between
      blanks. */
  datatype Header = Other(line: string) | Length(name: string, lead: string, value: string, trail: string)

  predicate IsHeader(h: Header) {
    match h
    case Other(line) => OtherHeader(line)
    case Length(name, lead, value, trail) =>
      && |name| == 14 && Lower(name) == "content-length"
      && NoNewline(lead + value + trail) && AllSpaces(lead) && AllSpaces(trail)
      && Trimmed(value) && (value == [] ==> lead == [])
  }

  function Field(h: Header): string {
    match h
    case Other(line) => line
    case Length(name, lead, value, trail) => name + ":" + lead + value + trail
  }

  function Block(headers: seq<Header>): string {
    if headers == [] then [] else Field(headers[0]) + "\r\n" + Block(headers[1..])
  }

  /** The length announced last. */
  function LastLength(headers: seq<Header>, before: int): int
    requires forall h :: h in headers && h.Length? ==> ParseInt(h.value).Some?
  {
    if headers == [] then before
    else LastLength(headers[1..], if headers[0].Length? then ParseInt(headers[0].value).value else before)
  }

  lemma LineIsRead(line: string, rest: string, length: int)
    requires NoNewline(line)
    ensures var data := line + "\r\n" + rest;
            && data != [] && LineLength(data) == |line| + 2
            && data[..|line| + 2] == line + "\r\n" && data[|line| + 2..] == rest
  {
    var data := line + "\r\n" + rest;
    assert data == (line + "\r") + "\n" + rest;
    LineLengthIs(line + "\r", rest);
  }

  lemma {:induction false} LowerConcat(a: string, b: string)
    ensures Lower(a + b) == Lower(a) + Lower(b)
  {
  }

  lemma NameHasNoMark(name: string)
    requires |name| == 14 && Lower(name) == "content-length"
    ensures forall i :: 0 <= i < 14 ==> name[i] != ':' && name[i] != '\n'
  {
    assert ':' !in "content-length" && '\n' !in "content-length";
    forall i | 0 <= i < 14
      ensures name[i] != ':' && name[i] != '\n'
    {
      assert Lower(name)[i] in "content-length";
    }
  }

  /** What is left of a length line once the blanks around it are gone. */
  lemma LengthLineStripped(name: string, lead: string, value: string, trail: string)
    requires IsHeader(Length(name, lead, value, trail))
    ensures Strip(name + ":" + lead + value + trail + "\r\n") == name + ":" + lead + value
    ensures IsLengthLine(name + ":" + lead + value)
    ensures Strip(AfterColon(name + ":" + lead + value)) == value
  {
    var line := name + ":" + lead + value;
    assert Lower(name)[0] == 'c';
    assert line[0] == name[0] && line[|line| - 1] == if value == [] then ':' else value[|value| - 1];
    assert name[0] !in BLANKS;
    assert AllSpaces(trail + "\r\n");
    StripOf([], line, trail + "\r\n");
    assert [] + line + (trail + "\r\n") == name + ":" + lead + value + trail + "\r\n";
    LowerConcat(name + ":", lead + value);
    LowerConcat(name, ":");
    assert line == (name + ":") + (lead + value) && Lower(":") == ":" && "content-length" + ":" == LENGTH_FIELD;
    NameHasNoMark(name);
    ColonAt(line, 14);
    assert line[15..] == lead + value && lead + value == lead + value + [];
    StripOf(lead, value, []);
  }

  lemma HeaderRead(h: Header, rest: string, length: int)
    requires IsHeader(h)
    ensures ReadHeaders(Field(h) + "\r\n" + rest, length)
         == match h
            case Other(_) => ReadHeaders(rest, length)
            case Length(_, _, value, _) =>
              if ParseInt(value).Some? then ReadHeaders(rest, ParseInt(value).value) else Malformed(rest)
  {
    match h
    case Other(line) => OtherHeaderSkipped(line, rest, length);
    case Length(name, lead, value, trail) =>
      var line := name + ":" + lead + value + trail;
      assert NoNewline(line) by {
        NameHasNoMark(name);
        assert line == (name + ":") + (lead + value + trail);
      }
      LineIsRead(line, rest, length);
      LengthLineStripped(name, lead, value, trail);
  }

  lemma {:induction false} BlockRead(headers: seq<Header>, rest: string, length: int)
    requires forall h :: h in headers ==> IsHeader(h)
    requires forall h :: h in headers && h.Length? ==> ParseInt(h.value).Some?
    ensures ReadHeaders(Block(headers) + rest, length) == ReadHeaders(rest, LastLength(headers, length))
    decreases |headers|
  {
    if headers == [] {
      assert Block(headers) + rest == rest;
    } else {
      var tail := Block(headers[1..]) + rest;
      assert headers[0] in headers && Block(headers) + rest == Field(headers[0]) + "\r\n" + tail;
      HeaderRead(headers[0], tail, length);
      BlockRead(headers[1..], rest, if headers[0].Length? then ParseInt(headers[0].value).value else length);
    }
  }

  /** A message under any headers: of several lengths the last one counts, whatever its case and the blanks around it.
      No length, or zero, reads as the end of the stream, -1 as everything there is, less than that is an error, and a
      body that is cut short comes as far as it goes. */
  lemma ReadOfHeaders(headers: seq<Header>, rest: string)
    requires forall h :: h in headers ==> IsHeader(h)
    requires forall h :: h in headers && h.Length? ==> ParseInt(h.value).Some?
    ensures var length := LastLength(headers, 0);
            Read(Block(headers) + ("\r\n" + rest))
            == if length == 0 then (EndOfStream, rest)
               else if length < -1 then (BadLength, rest)
               else if length == -1 || length >= |rest| then (Body(rest), [])
               else (Body(rest[..length]), rest[length..])
  {
    BlockRead(headers, "\r\n" + rest, 0);
    BlankLineEnds(rest, LastLength(headers, 0));
    assert rest[..|rest|] == rest && rest[|rest|..] == [];
  }

  /** The first length that is no number ends the message, and the stream is left behind its line. */
  lemma ReadOfBadLength(front: seq<Header>, bad: Header, rest: string)
    requires forall h :: h in front ==> IsHeader(h)
    requires forall h :: h in front && h.Length? ==> ParseInt(h.value).Some?
    requires IsHeader(bad) && bad.Length? && ParseInt(bad.value).None?
    ensures Read(Block(front) + (Field(bad) + "\r\n" + rest)) == (BadLength, rest)
  {
    BlockRead(front, Field(bad) + "\r\n" + rest, 0);
    HeaderRead(bad, rest, LastLength(front, 0));
  }

  /** Headers without a blank line after them are the end of the stream. */
  lemma ReadOfNoBlankLine(headers: seq<Header>)
    requires forall h :: h in headers ==> IsHeader(h)
    requires forall h :: h in headers && h.Length? ==> ParseInt(h.value).Some?
    ensures Read(Block(headers)) == (EndOfStream, [])
  {
    BlockRead(headers, [], 0);
    assert Block(headers) + [] == Block(headers);
  }
}
