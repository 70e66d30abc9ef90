/** The two event stream grammars, printed and parsed (protocol/codec.go). A string is a sequence of bytes. */
module Framing {
  import opened Journal
  import opened Wrappers
  import opened Decimals
  import EventNames

  /** JSON as this module sees it: the bytes of an envelope, what a frame unmarshals to, and the payload check. */
  datatype Json = Json(marshal: Envelope -> string, unmarshal: string -> Option<Envelope>, dataOk: Event -> bool)

  predicate Validates(j: Json, e: Envelope) {
    && e.number != 0 && e.time != 0
    && EventNames.IsId(e.session, 's') && EventNames.IsId(e.event.turn, 't')
    && EventNames.IsEventType(e.event.etype) && j.dataOk(e.event)
  }

  /** A valid envelope that some uint64 numbers and whose frame is within the stream limit. */
  predicate Sendable(j: Json, e: Envelope) {
    Validates(j, e) && e.number <= MAX_UINT64 && |j.marshal(e)| <= MAX_FRAME
  }

  /** What is assumed of the encoder: one object on one line, read back as it was written, its type among its bytes. */
  ghost predicate Lawful(j: Json) {
    forall e :: Validates(j, e) ==>
      var frame := j.marshal(e);
      && j.unmarshal(frame) == Some(e)
      && '\n' !in frame && '\r' !in frame
      && |frame| >= |e.event.etype| + 7 && frame[0] == '{' && frame[|frame|-1] == '}'
  }

  function Decode(j: Json, frame: string): Option<Envelope> {
    match j.unmarshal(frame)
    case Some(e) => if Validates(j, e) then Some(e) else None
    case None => None
  }

  // ---- Printing ----

  function EncodeNdjson(j: Json, e: Envelope): Option<string> {
    if Validates(j, e) then Some(j.marshal(e) + "\n") else None
  }

  function Line(text: string, rest: string): string {
    text + ("\n" + rest)
  }

  /** One SSE block followed by whatever comes next. */
  function SseBlock(e: Envelope, frame: string, rest: string): string {
    Line("id: " + Decimal(e.number), Line("event: " + e.event.etype, Line("data: " + frame, Line("", rest))))
  }

  const PING := ": ping"

  function Heartbeat(rest: string): string {
    Line(PING, Line("", rest))
  }

  method EncodeSse(j: Json, e: Envelope) returns (r: Option<string>)
    ensures r == if Validates(j, e) then Some(SseBlock(e, j.marshal(e), "")) else None
  {
    if !Validates(j, e) { return None; }
    var frame := j.marshal(e);
    var out := "id: " + Decimal(e.number);
    out := out + "\n";
    out := out + "event: ";
    out := out + e.event.etype;
    out := out + "\n";
    out := out + "data: ";
    out := out + frame;
    out := out + "\n\n";
    Regroup("id: " + Decimal(e.number), "event: ", e.event.etype, "data: ", frame);
    r := Some(out);
  }

  lemma Regroup(id: string, event: string, etype: string, data: string, frame: string)
    ensures id + "\n" + event + etype + "\n" + data + frame + "\n\n" ==
            Line(id, Line(event + etype, Line(data + frame, Line("", ""))))
  {
    assert Line("", "") == "\n";
    assert data + frame + "\n\n" == Line(data + frame, "\n");
    var tail := Line(data + frame, "\n");
    assert event + etype + "\n" + (data + frame + "\n\n") == Line(event + etype, tail);
  }

  // ---- Reading lines ----

  datatype LineResult = Text(line: string, rest: string) | AtEnd | BadLine

  /** The position of the first newline, or the length when there is none. */
  function NewlineAt(s: string): (n: nat)
    ensures n <= |s| && (n < |s| ==> s[n] == '\n') && '\n' !in s[..n]
  {
    if s == "" || s[0] == '\n' then 0
    else
      var n := 1 + NewlineAt(s[1..]);
      assert s[..n] == [s[0]] + s[1..][..n-1];
      n
  }

  /** One line of at most `max` bytes, without its newline and without any carriage return. */
  function ReadLine(s: string, max: nat): LineResult {
    if s == "" then AtEnd
    else
      var n := NewlineAt(s);
      if n == |s| || n > max || '\r' in s[..n] then BadLine else Text(s[..n], s[n+1..])
  }

  /** The unread bytes. `ReadSlice` is bufio's: the rest of a line, or as much of it as happened to fit the buffer. */
  class Reader {
    var unread: string

    constructor (bytes: string)
      ensures unread == bytes
    {
      unread := bytes;
    }

    method ReadSlice() returns (fragment: string, status: SliceStatus)
      modifies this
      ensures old(unread) == fragment + unread
      ensures status.Complete? ==> fragment != "" && fragment[|fragment|-1] == '\n' && '\n' !in fragment[..|fragment|-1]
      ensures status.BufferFull? ==> fragment != "" && '\n' !in fragment
      ensures status.Ended? ==> unread == "" && '\n' !in fragment
    {
      var n := NewlineAt(unread);
      var size: nat := *;
      if 0 < size <= n {
        fragment, status := unread[..size], BufferFull;
        assert '\n' !in unread[..n] && unread[..size] == unread[..n][..size];
      } else if n < |unread| {
        fragment, status := unread[..n+1], Complete;
        assert unread[..n+1][..n] == unread[..n];
      } else {
        fragment, status := unread, Ended;
        assert unread[..n] == unread;
      }
      assert unread == fragment + unread[|fragment|..];
      unread := unread[|fragment|..];
    }
  }

  datatype SliceStatus = Complete | BufferFull | Ended

  /** However the buffer cuts the bytes, the result is that of reading the whole line at once. */
  method ReadStreamLine(reader: Reader, max: nat) returns (r: LineResult)
    modifies reader
    ensures r == ReadLine(old(reader.unread), max)
    ensures r.Text? ==> reader.unread == r.rest
    ensures r.AtEnd? ==> reader.unread == ""
  {
    hide NewlineAt, ReadLine;
    var line := "";
    ghost var all := reader.unread;
    while true
      invariant all == line + reader.unread && '\n' !in line && |line| <= max
      decreases |reader.unread|
    {
      var fragment, status := reader.ReadSlice();
      match status {
        case Complete =>
          var payload := fragment[..|fragment|-1];
          Completed(all, line, fragment, reader.unread, max);
          if |line| + |payload| > max { return BadLine; }
          line := line + payload;
          if '\r' in line { return BadLine; }
          return Text(line, reader.unread);
        case BufferFull =>
          OneMore(all, line, fragment, reader.unread);
          if |line| + |fragment| > max {
            LongLine(all, line + fragment, reader.unread, max);
            return BadLine;
          }
          line := line + fragment;
        case Ended =>
          OneMore(all, line, fragment, reader.unread);
          NoNewline(all, line + fragment, max);
          if line == "" && fragment == "" { return AtEnd; }
          return BadLine;
      }
    }
  }

  lemma {:induction false} NewlineAfter(text: string, rest: string)
    requires '\n' !in text
    ensures NewlineAt(text + rest) == |text| + NewlineAt(rest)
  {
    if text == "" {
      assert text + rest == rest;
    } else {
      assert (text + rest)[1..] == text[1..] + rest;
      NewlineAfter(text[1..], rest);
    }
  }

  lemma WholeLine(all: string, text: string, rest: string)
    requires '\n' !in text && all == text + ("\n" + rest)
    ensures NewlineAt(all) == |text| && all[..|text|] == text && all[|text|+1..] == rest && all != ""
  {
    NewlineAfter(text, "\n" + rest);
  }

  lemma Completed(all: string, line: string, fragment: string, rest: string, max: nat)
    requires all == line + (fragment + rest) && '\n' !in line && fragment != ""
    requires fragment[|fragment|-1] == '\n' && '\n' !in fragment[..|fragment|-1]
    ensures var text := line + fragment[..|fragment|-1];
            ReadLine(all, max) == if |text| > max || '\r' in text then BadLine else Text(text, rest)
  {
    var payload := fragment[..|fragment|-1];
    assert fragment == payload + "\n";
    assert all == (line + payload) + ("\n" + rest);
    WholeLine(all, line + payload, rest);
  }

  lemma OneMore(all: string, line: string, fragment: string, rest: string)
    requires all == line + (fragment + rest) && '\n' !in line && '\n' !in fragment
    ensures all == (line + fragment) + rest && '\n' !in line + fragment
  {
  }

  lemma LongLine(all: string, text: string, rest: string, max: nat)
    requires '\n' !in text && all == text + rest && |text| > max
    ensures ReadLine(all, max) == BadLine
  {
    NewlineAfter(text, rest);
  }

  lemma NoNewline(all: string, text: string, max: nat)
    requires '\n' !in text && all == text + ""
    ensures ReadLine(all, max) == if text == "" then AtEnd else BadLine
  {
    NewlineAfter(text, "");
    assert text + "" == text;
  }

  /** A line that was read was printed. */
  lemma LineWasPrinted(s: string, max: nat)
    requires ReadLine(s, max).Text?
    ensures var line := ReadLine(s, max).line;
            s == Line(line, ReadLine(s, max).rest) && '\n' !in line && '\r' !in line && |line| <= max
  {
    hide NewlineAt;
    var n := NewlineAt(s);
    assert s == s[..n] + ([s[n]] + s[n+1..]);
  }

  /** A printed line is read back, with everything after it left unread. */
  lemma ReadPrinted(text: string, rest: string, max: nat)
    requires '\n' !in text && '\r' !in text && |text| <= max
    ensures ReadLine(Line(text, rest), max) == Text(text, rest)
  {
    WholeLine(Line(text, rest), text, rest);
  }
}
