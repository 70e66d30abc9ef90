/** Decoding whole streams, and why printing and parsing undo each other (protocol/codec.go). */
module Streams {
  import opened Journal
  import opened Wrappers
  import opened Decimals
  import opened Framing
  import EventNames

  datatype Format = Ndjson | Sse

  datatype Next = Got(envelope: Envelope, rest: string) | End | Malformed

  predicate JsonWhitespace(c: char) { c == ' ' || c == '\t' || c == '\r' || c == '\n' }

  predicate CleanFrame(frame: string) {
    frame != "" && !JsonWhitespace(frame[0]) && !JsonWhitespace(frame[|frame|-1])
  }

  /** strconv.ParseUint in base 10, at 64 bits. */
  function ParseUint(text: string): Option<nat> {
    if text != "" && (forall c <- text :: IsDigit(c)) && Value(text) <= MAX_UINT64 then Some(Value(text)) else None
  }

  // ---- One envelope ----

  function NextNdjson(j: Json, s: string): Next {
    match ReadLine(s, MAX_FRAME)
    case AtEnd => End
    case BadLine => Malformed
    case Text(line, rest) =>
      if !CleanFrame(line) then Malformed
      else match Decode(j, line) case None => Malformed case Some(e) => Got(e, rest)
  }

  const ID_LINE := 24  // "id: " and twenty digits

  function NextSse(j: Json, s: string): Next
    decreases |s|
  {
    match ReadLine(s, ID_LINE)
    case AtEnd => End
    case BadLine => Malformed
    case Text(first, rest) =>
      if first == PING then
        match ReadLine(rest, 0)
        case Text(_, rest') => NextSse(j, rest')
        case _ => Malformed
      else if first == "" || first[0] == ':' || !("id: " <= first) then Malformed
      else match ParseUint(first[4..])
        case None => Malformed
        case Some(number) => if Decimal(number) != first[4..] then Malformed else SseBody(j, number, rest)
  }

  /** The rest of a block whose id has been read. */
  function SseBody(j: Json, number: nat, s: string): Next {
    match ReadLine(s, MAX_FRAME)
    case Text(event, rest) =>
      if !("event: " <= event) || |event| == 7 then Malformed
      else (match ReadLine(rest, MAX_FRAME + 6)
        case Text(data, rest') =>
          if !("data: " <= data) then Malformed else SseFrame(j, number, event[7..], data[6..], rest')
        case _ => Malformed)
    case _ => Malformed
  }

  function SseFrame(j: Json, number: nat, etype: string, frame: string, s: string): Next {
    if |frame| > MAX_FRAME || !CleanFrame(frame) then Malformed
    else match ReadLine(s, 0)
      case Text(_, rest) =>
        (match Decode(j, frame)
         case Some(e) => if e.number == number && e.event.etype == etype then Got(e, rest) else Malformed
         case None => Malformed)
      case _ => Malformed
  }

  method DecodeNdjsonEnvelope(j: Json, reader: Reader) returns (r: Next)
    modifies reader
    ensures r == NextNdjson(j, old(reader.unread))
    ensures r.Got? ==> reader.unread == r.rest
  {
    var line := ReadStreamLine(reader, MAX_FRAME);
    match line {
      case AtEnd => r := End;
      case BadLine => r := Malformed;
      case Text(frame, rest) =>
        if !CleanFrame(frame) { return Malformed; }
        var decoded := Decode(j, frame);
        r := match decoded case None => Malformed case Some(e) => Got(e, rest);
    }
  }

  method DecodeSseEnvelope(j: Json, reader: Reader) returns (r: Next)
    modifies reader
    ensures r == NextSse(j, old(reader.unread))
    ensures r.Got? ==> reader.unread == r.rest
  {
    while true
      invariant NextSse(j, reader.unread) == NextSse(j, old(reader.unread))
      decreases |reader.unread|
    {
      var first := ReadStreamLine(reader, ID_LINE);
      if first.AtEnd? { return End; }
      if first.BadLine? { return Malformed; }
      if first.line == PING {
        var blank := ReadStreamLine(reader, 0);
        if !blank.Text? { return Malformed; }
        continue;
      }
      if first.line == "" || first.line[0] == ':' || !("id: " <= first.line) { return Malformed; }
      var number := ParseUint(first.line[4..]);
      if number.None? || Decimal(number.value) != first.line[4..] { return Malformed; }
      r := DecodeSseBody(j, reader, number.value);
      return;
    }
  }

  method DecodeSseBody(j: Json, reader: Reader, number: nat) returns (r: Next)
    modifies reader
    ensures r == SseBody(j, number, old(reader.unread))
    ensures r.Got? ==> reader.unread == r.rest
  {
    var event := ReadStreamLine(reader, MAX_FRAME);
    if !event.Text? || !("event: " <= event.line) || |event.line| == 7 { return Malformed; }
    var data := ReadStreamLine(reader, MAX_FRAME + 6);
    if !data.Text? || !("data: " <= data.line) { return Malformed; }
    var frame := data.line[6..];
    if |frame| > MAX_FRAME || !CleanFrame(frame) { return Malformed; }
    var blank := ReadStreamLine(reader, 0);
    if !blank.Text? { return Malformed; }
    var decoded := Decode(j, frame);
    if decoded.None? || decoded.value.number != number
        || decoded.value.event.etype != event.line[7..] { return Malformed; }
    r := Got(decoded.value, blank.rest);
  }

  // ---- A whole stream ----

  function NextOf(j: Json, format: Format, s: string): Next {
    match format case Ndjson => NextNdjson(j, s) case Sse => NextSse(j, s)
  }

  lemma {:induction false} NextShrinks(j: Json, format: Format, s: string)
    ensures NextOf(j, format, s).Got? ==> |NextOf(j, format, s).rest| < |s|
    decreases |s|
  {
    if format.Sse? {
      var first := ReadLine(s, ID_LINE);
      if first.Text? && first.line == PING {
        var blank := ReadLine(first.rest, 0);
        if blank.Text? { NextShrinks(j, format, blank.rest); }
      }
    }
  }

  /** Everything a stream delivers, and whether it ends cleanly. */
  datatype Decoded = Decoded(envelopes: seq<Envelope>, clean: bool)

  function DecodeAll(j: Json, format: Format, s: string): Decoded
    decreases |s|
  {
    match NextOf(j, format, s)
    case End => Decoded([], true)
    case Malformed => Decoded([], false)
    case Got(e, rest) =>
      NextShrinks(j, format, s);
      var more := DecodeAll(j, format, rest);
      Decoded([e] + more.envelopes, more.clean)
  }

  datatype StreamResult = Done | DecodeError | Stopped

  /** What the callback has been given when decoding ends: everything, unless it refused an envelope, after which
      it was given nothing more. */
  ghost predicate Delivered(all: Decoded, accept: Envelope -> bool, out: seq<Envelope>, r: StreamResult) {
    && out <= all.envelopes
    && (r.Stopped? ==> out != [] && !accept(out[|out|-1]) && forall k :: 0 <= k < |out| - 1 ==> accept(out[k]))
    && (!r.Stopped? ==> out == all.envelopes && (r.Done? <==> all.clean) && forall k :: 0 <= k < |out| ==>
      accept(out[k]))
  }

  /** What is delivered was in the bytes, from their start on; it is all of a stream when decoding ends without an
      error, and when it ends with one the bytes are no stream. */
  ghost predicate FromStream(j: Json, format: Format, s: string, out: seq<Envelope>, r: StreamResult) {
    && (exists items, tail :: Begins(j, format, s, items, tail) && Envelopes(items) == out)
    && (r.Done? ==> IsStream(j, format, s, out))
    && (r.DecodeError? ==> forall envelopes :: !IsStream(j, format, s, envelopes))
  }

  lemma ReadFrom(j: Json, format: Format, s: string, accept: Envelope -> bool, out: seq<Envelope>, r: StreamResult)
    requires Delivered(DecodeAll(j, format, s), accept, out, r)
    ensures FromStream(j, format, s, out, r)
  {
    hide DecodeAll, IsStream, Begins;
    var all := DecodeAll(j, format, s);
    var items, tail := DecodedWas(j, format, s, |out|);
    forall envelopes ensures IsStream(j, format, s, envelopes) <==> all == Decoded(envelopes, true) {
      ReadsExactly(j, format, s, envelopes);
    }
  }

  method DecodeStream(j: Json, format: Format, reader: Reader, accept: Envelope -> bool)
    returns (out: seq<Envelope>, r: StreamResult)
    modifies reader
    ensures Delivered(DecodeAll(j, format, old(reader.unread)), accept, out, r)
    ensures FromStream(j, format, old(reader.unread), out, r)
  {
    hide NextOf, DecodeAll, IsStream, FromStream;
    ghost var bytes := reader.unread;
    out := [];
    ghost var all := DecodeAll(j, format, reader.unread);
    while true
      invariant all == Prepended(out, DecodeAll(j, format, reader.unread))
      invariant forall k :: 0 <= k < |out| ==> accept(out[k])
      decreases |reader.unread|
    {
      DecodeAllStep(j, format, reader.unread);
      ghost var more := DecodeAll(j, format, reader.unread);
      var next := DecodeNext(j, format, reader);
      match next {
        case End =>
          ReadFrom(j, format, bytes, accept, out, Done);
          return out, Done;
        case Malformed =>
          ReadFrom(j, format, bytes, accept, out, DecodeError);
          return out, DecodeError;
        case Got(e, rest) =>
          assert out + more.envelopes == (out + [e]) + DecodeAll(j, format, rest).envelopes;
          out := out + [e];
          if !accept(e) {
            ReadFrom(j, format, bytes, accept, out, Stopped);
            return out, Stopped;
          }
      }
    }
  }

  function Prepended(first: seq<Envelope>, more: Decoded): Decoded {
    Decoded(first + more.envelopes, more.clean)
  }

  lemma DecodeAllStep(j: Json, format: Format, s: string)
    ensures DecodeAll(j, format, s) ==
            match NextOf(j, format, s)
            case End => Decoded([], true)
            case Malformed => Decoded([], false)
            case Got(e, rest) => Prepended([e], DecodeAll(j, format, rest))
    ensures NextOf(j, format, s).Got? ==> |NextOf(j, format, s).rest| < |s|
  {
    NextShrinks(j, format, s);
  }

  method DecodeNext(j: Json, format: Format, reader: Reader) returns (r: Next)
    modifies reader
    ensures r == NextOf(j, format, old(reader.unread))
    ensures r.Got? ==> reader.unread == r.rest
  {
    if format.Ndjson? { r := DecodeNdjsonEnvelope(j, reader); } else { r := DecodeSseEnvelope(j, reader); }
  }

  // ---- Printing then parsing ----

  /** A heartbeat, or an envelope in one of the frames that hold it. */
  datatype Item = Beat | Sent(envelope: Envelope, frame: string)

  /** The bytes of a stream, NDJSON lines or SSE blocks with heartbeats anywhere between them, then a tail. */
  function Printed(format: Format, items: seq<Item>, tail: string): string
    decreases |items|
  {
    if items == [] then tail else Block(format, items[0], Printed(format, items[1..], tail))
  }

  function Block(format: Format, item: Item, rest: string): string {
    match item
    case Beat => if format.Sse? then Heartbeat(rest) else rest
    case Sent(e, frame) => if format.Sse? then SseBlock(e, frame, rest) else Line(frame, rest)
  }

  /** What a stream of this format may hold: heartbeats in SSE only, and valid envelopes, each in a bare frame of one
      line within the limit. In SSE the number has 64 bits and the line of the type is within the limit as well. */
  predicate Readable(j: Json, format: Format, item: Item) {
    match item
    case Beat => format.Sse?
    case Sent(e, frame) =>
      && j.unmarshal(frame) == Some(e) && Validates(j, e)
      && CleanFrame(frame) && '\n' !in frame && '\r' !in frame && |frame| <= MAX_FRAME
      && (format.Sse? ==> e.number <= MAX_UINT64 && 7 + |e.event.etype| <= MAX_FRAME)
  }

  predicate Streamable(j: Json, format: Format, items: seq<Item>) {
    forall item <- items :: Readable(j, format, item)
  }

  /** The encoders print exactly such blocks. */
  lemma EncodersPrintBlocks(j: Json, e: Envelope)
    requires Validates(j, e)
    ensures EncodeNdjson(j, e) == Some(Block(Ndjson, Sent(e, j.marshal(e)), ""))
    ensures SseBlock(e, j.marshal(e), "") == Block(Sse, Sent(e, j.marshal(e)), "")
    ensures Lawful(j) && Sendable(j, e) ==> forall format :: Readable(j, format, Sent(e, j.marshal(e)))
  {
    assert "\n" + "" == "\n";
  }

  function Envelopes(items: seq<Item>): seq<Envelope>
    decreases |items|
  {
    if items == [] then [] else (if items[0].Sent? then [items[0].envelope] else []) + Envelopes(items[1..])
  }

  lemma TypeFacts(j: Json, e: Envelope)
    requires Validates(j, e)
    ensures e.event.etype != "" && '\n' !in e.event.etype && '\r' !in e.event.etype
  {
    EventNames.EventTypeIsOneLine(e.event.etype);
  }

  lemma IdFacts(number: nat)
    requires number <= MAX_UINT64
    ensures var id := "id: " + Decimal(number);
            && |id| <= ID_LINE && '\n' !in id && '\r' !in id && id[0] == 'i' && id != PING
            && id[4..] == Decimal(number) && ParseUint(Decimal(number)) == Some(number)
  {
    DecimalValue(number);
    UInt64Length(number);
  }

  /** A block is read back, whatever follows it. */
  lemma SseBlockReads(j: Json, e: Envelope, frame: string, rest: string)
    requires Readable(j, Sse, Sent(e, frame))
    ensures NextSse(j, SseBlock(e, frame, rest)) == Got(e, rest)
  {
    hide ParseUint, Decode, CleanFrame, SseBody, ReadLine, Line, Validates;
    IdFacts(e.number);
    var id := "id: " + Decimal(e.number);
    var body := Line("event: " + e.event.etype, Line("data: " + frame, Line("", rest)));
    ReadPrinted(id, body, ID_LINE);
    SseBodyReads(j, e, frame, rest);
  }

  lemma SseBodyReads(j: Json, e: Envelope, frame: string, rest: string)
    requires Readable(j, Sse, Sent(e, frame))
    ensures SseBody(j, e.number, Line("event: " + e.event.etype, Line("data: " + frame, Line("", rest)))) ==
      Got(e, rest)
  {
    hide CleanFrame, ReadLine, Line, Validates;
    TypeFacts(j, e);
    var event, data := "event: " + e.event.etype, "data: " + frame;
    ReadPrinted(event, Line(data, Line("", rest)), MAX_FRAME);
    ReadPrinted(data, Line("", rest), MAX_FRAME + 6);
    ReadPrinted("", rest, 0);
    assert event[7..] == e.event.etype && data[6..] == frame;
  }

  lemma NdjsonLineReads(j: Json, e: Envelope, frame: string, rest: string)
    requires Readable(j, Ndjson, Sent(e, frame))
    ensures NextNdjson(j, Line(frame, rest)) == Got(e, rest)
  {
    hide CleanFrame, ReadLine, Line, Validates;
    ReadPrinted(frame, rest, MAX_FRAME);
  }

  lemma HeartbeatSkipped(j: Json, rest: string)
    ensures NextSse(j, Heartbeat(rest)) == NextSse(j, rest)
  {
    hide ReadLine, Line;
    ReadPrinted(PING, Line("", rest), ID_LINE);
    ReadPrinted("", rest, 0);
  }

  /** The parser undoes the printer on every list of readable items, heartbeats or not, up to what follows. */
  lemma {:induction false} PrintedReads(j: Json, format: Format, items: seq<Item>, tail: string)
    requires Streamable(j, format, items)
    ensures DecodeAll(j, format, Printed(format, items, tail)) ==
            Decoded(Envelopes(items) + DecodeAll(j, format, tail).envelopes, DecodeAll(j, format, tail).clean)
    decreases |items|
  {
    hide Block, NextOf, Streamable;
    if items != [] {
      StreamableParts(j, format, items);
      PrintedReads(j, format, items[1..], tail);
      OneBlockReads(j, format, items[0], Printed(format, items[1..], tail));
      var first, more, last := if items[0].Sent? then [items[0].envelope] else [], Envelopes(items[1..]),
          DecodeAll(j, format, tail);
      assert first + (more + last.envelopes) == (first + more) + last.envelopes;
    }
  }

  // ---- Parsing back to what was printed ----

  /** A text begins with these items. */
  ghost predicate Begins(j: Json, format: Format, s: string, items: seq<Item>, tail: string) {
    Streamable(j, format, items) && s == Printed(format, items, tail)
  }

  lemma BeginsWith(j: Json, format: Format, item: Item, s: string, items: seq<Item>, tail: string)
    requires Readable(j, format, item) && Begins(j, format, s, items, tail)
    ensures Begins(j, format, Block(format, item, s), [item] + items, tail)
    ensures Envelopes([item] + items) == (if item.Sent? then [item.envelope] else []) + Envelopes(items)
  {
    hide Block, Readable;
    assert ([item] + items)[1..] == items;
  }

  lemma {:induction false} PrintedConcat(format: Format, items: seq<Item>, more: seq<Item>, tail: string)
    ensures Printed(format, items + more, tail) == Printed(format, items, Printed(format, more, tail))
    ensures Envelopes(items + more) == Envelopes(items) + Envelopes(more)
    decreases |items|
  {
    hide Block;
    if items == [] {
      assert items + more == more;
    } else {
      assert (items + more)[1..] == items[1..] + more;
      PrintedConcat(format, items[1..], more, tail);
    }
  }

  lemma BeginsThen(j: Json, format: Format, s: string, items: seq<Item>, t: string, more: seq<Item>, tail: string)
    requires Begins(j, format, s, items, t) && Begins(j, format, t, more, tail)
    ensures Begins(j, format, s, items + more, tail) && Envelopes(items + more) == Envelopes(items) + Envelopes(more)
  {
    hide Readable, Printed, Envelopes;
    PrintedConcat(format, items, more, tail);
  }

  /** The envelope that was read was in the bytes: after some heartbeats one block of it, and what is left follows. */
  lemma NextWas(j: Json, format: Format, s: string) returns (items: seq<Item>)
    requires NextOf(j, format, s).Got?
    ensures Begins(j, format, s, items, NextOf(j, format, s).rest)
    ensures Envelopes(items) == [NextOf(j, format, s).envelope]
  {
    if format.Sse? {
      items := NextSseWas(j, s);
    } else {
      LineWasPrinted(s, MAX_FRAME);
      var item := Sent(NextNdjson(j, s).envelope, ReadLine(s, MAX_FRAME).line);
      BeginsWith(j, format, item, NextNdjson(j, s).rest, [], NextNdjson(j, s).rest);
      items := [item] + [];
    }
  }

  lemma {:induction false} NextSseWas(j: Json, s: string) returns (items: seq<Item>)
    requires NextSse(j, s).Got?
    ensures Begins(j, Sse, s, items, NextSse(j, s).rest) && Envelopes(items) == [NextSse(j, s).envelope]
    decreases |s|
  {
    hide ReadLine, Line, Begins, SseBody, Envelopes;
    LineWasPrinted(s, ID_LINE);
    var first, rest := ReadLine(s, ID_LINE).line, ReadLine(s, ID_LINE).rest;
    LineLength(first, rest);
    if first == PING {
      LineWasPrinted(rest, 0);
      var after := ReadLine(rest, 0).rest;
      LineLength("", after);
      items := NextSseWas(j, after);
      BeginsWith(j, Sse, Beat, after, items, NextSse(j, s).rest);
      items := [Beat] + items;
    } else {
      var frame := SseBlockWas(j, s);
      items := OneItem(j, Sent(NextSse(j, s).envelope, frame), NextSse(j, s).rest);
    }
  }

  lemma OneItem(j: Json, item: Item, rest: string) returns (items: seq<Item>)
    requires item.Sent? && Readable(j, Sse, item)
    ensures Begins(j, Sse, Block(Sse, item, rest), items, rest) && Envelopes(items) == [item.envelope]
  {
    BeginsWith(j, Sse, item, rest, [], rest);
    items := [item] + [];
  }

  lemma SseBlockWas(j: Json, s: string) returns (frame: string)
    requires NextSse(j, s).Got? && ReadLine(s, ID_LINE).line != PING
    ensures Readable(j, Sse, Sent(NextSse(j, s).envelope, frame))
    ensures s == SseBlock(NextSse(j, s).envelope, frame, NextSse(j, s).rest)
  {
    hide ReadLine, Line, Validates, CleanFrame;
    LineWasPrinted(s, ID_LINE);
    var first, rest := ReadLine(s, ID_LINE).line, ReadLine(s, ID_LINE).rest;
    assert first == "id: " + first[4..];
    frame := SseBodyWas(j, ParseUint(first[4..]).value, rest);
  }

  lemma SseBodyWas(j: Json, number: nat, s: string) returns (frame: string)
    requires number <= MAX_UINT64 && SseBody(j, number, s).Got?
    ensures var e := SseBody(j, number, s).envelope;
            && e.number == number && Readable(j, Sse, Sent(e, frame))
            && s == Line("event: " + e.event.etype, Line("data: " + frame, Line("", SseBody(j, number, s).rest)))
  {
    hide ReadLine, Line, Validates, CleanFrame;
    LineWasPrinted(s, MAX_FRAME);
    var event, rest := ReadLine(s, MAX_FRAME).line, ReadLine(s, MAX_FRAME).rest;
    LineWasPrinted(rest, MAX_FRAME + 6);
    var data, rest' := ReadLine(rest, MAX_FRAME + 6).line, ReadLine(rest, MAX_FRAME + 6).rest;
    LineWasPrinted(rest', 0);
    frame := data[6..];
    assert event == "event: " + event[7..] && data == "data: " + frame;
    assert forall c <- frame :: c in data;
  }

  /** A stream that is said to be at its end held heartbeats only. */
  lemma {:induction false} EndWas(j: Json, format: Format, s: string) returns (items: seq<Item>)
    requires NextOf(j, format, s) == End
    ensures Begins(j, format, s, items, "") && Envelopes(items) == []
    decreases |s|
  {
    hide Line;
    var max := if format.Sse? then ID_LINE else MAX_FRAME;
    if s == "" { return []; }
    LineWasPrinted(s, max);
    var rest := ReadLine(s, max).rest;
    LineLength(PING, rest);
    LineWasPrinted(rest, 0);
    var after := ReadLine(rest, 0).rest;
    LineLength("", after);
    items := EndWas(j, format, after);
    BeginsWith(j, Sse, Beat, after, items, "");
    items := [Beat] + items;
  }

  /** These bytes are a stream of these envelopes. */
  ghost predicate IsStream(j: Json, format: Format, s: string, envelopes: seq<Envelope>) {
    exists items :: Begins(j, format, s, items, "") && Envelopes(items) == envelopes
  }

  /** The first k envelopes that were read were in the bytes, one after another from their start. */
  lemma {:induction false} DecodedWas(j: Json, format: Format, s: string, k: nat)
    returns (items: seq<Item>, tail: string)
    requires k <= |DecodeAll(j, format, s).envelopes|
    ensures Begins(j, format, s, items, tail) && Envelopes(items) == DecodeAll(j, format, s).envelopes[..k]
    ensures DecodeAll(j, format, tail).envelopes == DecodeAll(j, format, s).envelopes[k..]
    ensures DecodeAll(j, format, tail).clean == DecodeAll(j, format, s).clean
    decreases k
  {
    hide NextOf, Block, Readable;
    if k == 0 { return [], s; }
    var e, rest := NextOf(j, format, s).envelope, NextOf(j, format, s).rest;
    var first := NextWas(j, format, s);
    items, tail := DecodedWas(j, format, rest, k - 1);
    BeginsThen(j, format, s, first, rest, items, tail);
    items := first + items;
  }

  /** Bytes are read to a clean end exactly when they are a stream, and as exactly its envelopes. */
  lemma ReadsExactly(j: Json, format: Format, s: string, envelopes: seq<Envelope>)
    ensures IsStream(j, format, s, envelopes) <==> DecodeAll(j, format, s) == Decoded(envelopes, true)
  {
    hide NextOf, Block, Readable;
    if IsStream(j, format, s, envelopes) {
      var items :| Begins(j, format, s, items, "") && Envelopes(items) == envelopes;
      PrintedReads(j, format, items, "");
      EmptyStream(j, format);
      assert envelopes + [] == envelopes;
    }
    if DecodeAll(j, format, s) == Decoded(envelopes, true) {
      var items, tail := DecodedWas(j, format, s, |envelopes|);
      var beats := EndWas(j, format, tail);
      BeginsThen(j, format, s, items, tail, beats, "");
      assert envelopes[..|envelopes|] + [] == envelopes;
    }
  }

  // ---- Cutting a stream ----

  /** A line cut short reads as the end, when nothing of it is left, or as an error; otherwise it is whole. */
  lemma CutLine(text: string, rest: string, k: nat, max: nat)
    requires '\n' !in text && k <= |Line(text, rest)|
    ensures k <= |text| ==> ReadLine(Line(text, rest)[..k], max) == if k == 0 then AtEnd else BadLine
    ensures k > |text| ==> k - |text| - 1 <= |rest| && Line(text, rest)[..k] == Line(text, rest[..k-|text|-1])
  {
    if 0 < k <= |text| {
      assert Line(text, rest)[..k] == text[..k];
      NoNewline(Line(text, rest)[..k], text[..k], max);
    }
  }

  lemma SseBodyCut(j: Json, e: Envelope, frame: string, k: nat)
    requires Readable(j, Sse, Sent(e, frame))
    requires var event, data := "event: " + e.event.etype, "data: " + frame; k < |event| + |data| + 3
    ensures var event, data := "event: " + e.event.etype, "data: " + frame;
            SseBody(j, e.number, Line(event, Line(data, Line("", "")))[..k]) == Malformed
  {
    hide Decode, CleanFrame, ReadLine, Line, Validates;
    TypeFacts(j, e);
    var event, data := "event: " + e.event.etype, "data: " + frame;
    LineLength(event, Line(data, Line("", "")));
    LineLength(data, Line("", ""));
    LineLength("", "");
    CutLine(event, Line(data, Line("", "")), k, MAX_FRAME);
    if k > |event| {
      var k2 := k - |event| - 1;
      ReadPrinted(event, Line(data, Line("", ""))[..k2], MAX_FRAME);
      CutLine(data, Line("", ""), k2, MAX_FRAME + 6);
      if k2 > |data| {
        ReadPrinted(data, Line("", "")[..0], MAX_FRAME + 6);
        CutLine("", "", 0, 0);
        assert event[7..] == e.event.etype && data[6..] == frame;
      }
    }
  }

  lemma LineLength(text: string, rest: string)
    ensures |Line(text, rest)| == |text| + 1 + |rest|
  {
  }

  /** An SSE block, a heartbeat or an NDJSON line cut anywhere inside is an error. */
  lemma BlockCut(j: Json, format: Format, item: Item, k: nat)
    requires Streamable(j, format, [item]) && 0 < k < |Block(format, item, "")|
    ensures NextOf(j, format, Block(format, item, "")[..k]) == Malformed
  {
    hide Decode, CleanFrame, ReadLine, Line, ParseUint, SseBody, Validates;
    assert item in [item];
    match item {
      case Beat =>
        LineLength(PING, Line("", ""));
        LineLength("", "");
        CutLine(PING, Line("", ""), k, ID_LINE);
        if k > |PING| {
          ReadPrinted(PING, Line("", "")[..0], ID_LINE);
          CutLine("", "", 0, 0);
        }
      case Sent(e, frame) =>
        if format.Ndjson? {
          LineLength(frame, "");
          CutLine(frame, "", k, MAX_FRAME);
        } else {
          SseBlockCut(j, e, frame, k);
        }
    }
  }

  lemma SseBlockCut(j: Json, e: Envelope, frame: string, k: nat)
    requires Readable(j, Sse, Sent(e, frame)) && 0 < k < |SseBlock(e, frame, "")|
    ensures NextSse(j, SseBlock(e, frame, "")[..k]) == Malformed
  {
    hide Decode, CleanFrame, ReadLine, Line, ParseUint, SseBody, Validates;
    TypeFacts(j, e);
    IdFacts(e.number);
    var id, event, data := "id: " + Decimal(e.number), "event: " + e.event.etype, "data: " + frame;
    var body := Line(event, Line(data, Line("", "")));
    LineLength(id, body);
    LineLength(event, Line(data, Line("", "")));
    LineLength(data, Line("", ""));
    LineLength("", "");
    CutLine(id, body, k, ID_LINE);
    if k > |id| {
      ReadPrinted(id, body[..k-|id|-1], ID_LINE);
      SseBodyCut(j, e, frame, k - |id| - 1);
    }
  }

  lemma BlockThen(format: Format, item: Item, rest: string)
    ensures Block(format, item, rest) == Block(format, item, "") + rest
  {
    hide Decimal;
    match item {
      case Beat =>
        LineThen("", "", rest);
        LineThen(PING, Line("", ""), rest);
      case Sent(e, frame) =>
        var event, data := "event: " + e.event.etype, "data: " + frame;
        LineThen(frame, "", rest);
        LineThen("", "", rest);
        LineThen(data, Line("", ""), rest);
        LineThen(event, Line(data, Line("", "")), rest);
        LineThen("id: " + Decimal(e.number), Line(event, Line(data, Line("", ""))), rest);
        assert "" + rest == rest;
    }
  }

  lemma LineThen(text: string, body: string, rest: string)
    ensures Line(text, body) + rest == Line(text, body + rest)
  {
  }

  /** How many blocks lie wholly within the first k bytes. */
  function WholeBlocks(format: Format, items: seq<Item>, k: nat): (m: nat)
    ensures m <= |items|
    decreases |items|
  {
    if items == [] || |Block(format, items[0], "")| > k then 0
    else 1 + WholeBlocks(format, items[1..], k - |Block(format, items[0], "")|)
  }

  /** A stream cut after any number of bytes delivers exactly the blocks that were whole, and ends cleanly only when
      the cut falls between two blocks. */
  lemma {:induction false} CutStream(j: Json, format: Format, items: seq<Item>, k: nat)
    requires Streamable(j, format, items) && k <= |Printed(format, items, "")|
    ensures var m := WholeBlocks(format, items, k);
            DecodeAll(j, format, Printed(format, items, "")[..k]) ==
            Decoded(Envelopes(items[..m]), k == |Printed(format, items[..m], "")|)
    decreases |items|
  {
    hide Block, NextOf, Streamable;
    if items != [] {
      var item, after := items[0], Printed(format, items[1..], "");
      var block := Block(format, item, "");
      BlockThen(format, item, after);
      StreamableParts(j, format, items);
      if |block| > k {
        assert Printed(format, items, "")[..k] == block[..k];
        if k > 0 { BlockCut(j, format, item, k); } else { EmptyStream(j, format); }
      } else {
        var m := WholeBlocks(format, items[1..], k - |block|);
        CutStream(j, format, items[1..], k - |block|);
        assert Printed(format, items, "")[..k] == block + after[..k-|block|];
        BlockThen(format, item, after[..k-|block|]);
        OneBlockReads(j, format, item, after[..k-|block|]);
        assert items[..m+1][1..] == items[1..][..m];
        BlockThen(format, item, Printed(format, items[1..][..m], ""));
      }
    } else {
      EmptyStream(j, format);
    }
  }

  lemma StreamableParts(j: Json, format: Format, items: seq<Item>)
    requires Streamable(j, format, items) && items != []
    ensures Streamable(j, format, items[1..]) && Streamable(j, format, [items[0]])
  {
    hide Readable;
  }

  lemma EmptyStream(j: Json, format: Format)
    ensures DecodeAll(j, format, "") == Decoded([], true)
  {
  }

  lemma OneBlockReads(j: Json, format: Format, item: Item, rest: string)
    requires Streamable(j, format, [item])
    ensures var more := DecodeAll(j, format, rest);
            DecodeAll(j, format, Block(format, item, rest)) ==
            Decoded((if item.Sent? then [item.envelope] else []) + more.envelopes, more.clean)
  {
    hide NextSse, NextNdjson, Heartbeat, SseBlock, Line;
    assert item in [item];
    if item.Beat? {
      HeartbeatSkipped(j, rest);
    } else if format.Sse? {
      SseBlockReads(j, item.envelope, item.frame, rest);
    } else {
      NdjsonLineReads(j, item.envelope, item.frame, rest);
    }
  }
}
