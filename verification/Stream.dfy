/** The incremental frame decoder (src/protocol/framing.cpp) and its independence of how a byte stream is
    cut into chunks. */
module Stream {
  import opened Words
  import opened Fields
  import opened Crc32
  import opened Framing

  /** Decoder state: unconsumed bytes, and whether a protocol error was seen. */
  datatype Decoder = Decoder(buffer: seq<byte>, fatal: bool)

  function PopOnce(d: Decoder): (Decoder, Option<Message>) {
    if d.fatal then (d, None)
    else match PopFront(d.buffer)
      case NeedMore => (d, None)
      case Corrupt => (Decoder([], true), None)
      case Got(m, rest) => (Decoder(rest, false), Some(m))
  }

  // ---- reference: one drain of the whole stream ----

  datatype Drained = Drained(messages: seq<Message>, fatal: bool, left: seq<byte>)

  function Drain(b: seq<byte>): Drained
    decreases |b|
  {
    match PopFront(b)
    case NeedMore => Drained([], false, b)
    case Corrupt => Drained([], true, [])
    case Got(m, rest) =>
      PopAgreesWithParse(b);
      var d := Drain(rest);
      d.(messages := [m] + d.messages)
  }

  // ---- any interleaving of feeds and pops ----

  datatype Event = Arrival(chunk: seq<byte>) | Pop

  function Fed(events: seq<Event>): seq<byte> {
    if events == [] then []
    else (match events[0] case Arrival(c) => c case Pop => []) + Fed(events[1..])
  }

  /** The decoder after the events, and the messages its pops returned, in order. */
  function Play(d: Decoder, events: seq<Event>): (Decoder, seq<Message>)
    decreases |events|
  {
    if events == [] then (d, [])
    else match events[0]
      case Arrival(c) => Play(d.(buffer := d.buffer + c), events[1..])
      case Pop =>
        var (d1, got) := PopOnce(d);
        var (d2, out) := Play(d1, events[1..]);
        (d2, (if got.Some? then [got.value] else []) + out)
  }

  /** What a pop decides is not revised by bytes that arrive later. */
  lemma {:induction false} PopStable(b: seq<byte>, more: seq<byte>)
    ensures PopFront(b).Corrupt? ==> PopFront(b + more).Corrupt?
    ensures PopFront(b).Got? ==> PopFront(b + more) == Got(PopFront(b).message, PopFront(b).rest + more)
  {
    hide WordAt, Sealed, ParseBody;
    if |b| >= 24 {
      SameWords(b, b + more);
      var total := 24 + WordAt(b, 4);
      if total <= |b| {
        SliceOfPrefix(b, more, 0, total);
        SliceOfPrefix(b, more, 20, total - 4);
      }
    }
  }

  /** What the decoder will yet return once the bytes to come are added to those it holds. */
  function Pending(d: Decoder, more: seq<byte>): Drained {
    if d.fatal then Drained([], true, []) else Drain(d.buffer + more)
  }

  function Prepend(out: seq<Message>, d: Drained): Drained {
    d.(messages := out + d.messages)
  }

  lemma {:induction false} PopKeepsPending(d: Decoder, more: seq<byte>)
    ensures var (d1, got) := PopOnce(d);
      Pending(d, more) == Prepend(if got.Some? then [got.value] else [], Pending(d1, more))
  {
    PopStable(d.buffer, more);
    hide PopFront;
    var (d1, got) := PopOnce(d);
    assert [] + Pending(d1, more).messages == Pending(d1, more).messages;
  }

  lemma {:induction false} PendingAppend(d: Decoder, chunk: seq<byte>, more: seq<byte>)
    ensures Pending(d, chunk + more) == Pending(d.(buffer := d.buffer + chunk), more)
  {
    assert d.buffer + (chunk + more) == d.buffer + chunk + more;
  }

  /** Nothing is lost or invented: what was returned, then what is pending, is one drain of everything. */
  lemma {:induction false} PlayKeepsPending(d: Decoder, events: seq<Event>)
    ensures var (d', out) := Play(d, events); Pending(d, Fed(events)) == Prepend(out, Pending(d', []))
    decreases |events|
  {
    hide Pending, PopOnce;
    if events != [] {
      var tail := events[1..];
      match events[0]
      case Arrival(c) =>
        PendingAppend(d, c, Fed(tail));
        PlayKeepsPending(d.(buffer := d.buffer + c), tail);
      case Pop =>
        assert Fed(events) == Fed(tail);
        PopKeepsPending(d, Fed(tail));
        PlayKeepsPending(PopOnce(d).0, tail);
    }
  }

  /** Before the stream is drained, what was popped is a prefix of what one drain of the whole yields. */
  lemma {:induction false} PoppedIsPrefix(events: seq<Event>)
    ensures Play(Decoder([], false), events).1 <= Drain(Fed(events)).messages
  {
    hide Play, Drain;
    PlayKeepsPending(Decoder([], false), events);
    assert [] + Fed(events) == Fed(events);
  }

  /** Chunking does not matter: once a pop finds nothing more, the messages, the fatal flag and (unless
      fatal) the bytes left are those of one drain of the whole stream, and fewer than 65,560 bytes are held. */
  lemma {:induction false} ChunkingIrrelevant(events: seq<Event>)
    requires PopOnce(Play(Decoder([], false), events).0).1.None?
    ensures var (d, out) := Play(Decoder([], false), events);
      var final := PopOnce(d).0;
      var whole := Drain(Fed(events));
      && out == whole.messages
      && final.fatal == whole.fatal
      && (!final.fatal ==> final.buffer == whole.left && |final.buffer| < 65_560)
  {
    hide Play, Pending, PopOnce;
    PlayKeepsPending(Decoder([], false), events);
    NothingReturned(events);
    var (d, out) := Play(Decoder([], false), events);
    LastPop(d);
    assert out + [] == out;
  }

  lemma {:induction false} NothingReturned(events: seq<Event>)
    ensures Pending(Decoder([], false), Fed(events)) == Drain(Fed(events))
  {
    hide Drain;
    assert [] + Fed(events) == Fed(events);
  }

  lemma {:induction false} LastPop(d: Decoder)
    requires PopOnce(d).1.None?
    ensures var final := PopOnce(d).0;
      && Pending(d, []) == Drained([], final.fatal, if final.fatal then [] else final.buffer)
      && (!final.fatal ==> |final.buffer| < 65_560)
  {
    assert d.buffer + [] == d.buffer;
    hide PopFront;
    if !d.fatal && PopFront(d.buffer).NeedMore? { HeldBytes(d.buffer); }
  }

  lemma {:induction false} HeldBytes(b: seq<byte>)
    requires PopFront(b).NeedMore?
    ensures |b| < 65_560
  {
  }

  // ---- streams of encoded messages ----

  predicate Sendable(m: Message) {
    InRange(m) && |m.detail| + |m.extra| <= 65_291
  }

  function Concatenated(ms: seq<Message>): seq<byte>
    requires forall i :: 0 <= i < |ms| ==> Sendable(ms[i])
  {
    if ms == [] then []
    else
      assert Sendable(ms[0]);
      ShortTextsEncode(ms[0]);
      FrameBytes(ms[0]).value + Concatenated(ms[1..])
  }

  /** Any list of messages, encoded back to back, drains to the same list and an empty buffer. */
  lemma {:induction false} StreamRoundTrip(ms: seq<Message>)
    requires forall i :: 0 <= i < |ms| ==> Sendable(ms[i])
    ensures Drain(Concatenated(ms)) == Drained(ms, false, [])
    decreases |ms|
  {
    hide PopFront, FrameBytes;
    if ms == [] {
      NothingToPop();
    } else {
      var m := ms[0];
      PopSent(m, Concatenated(ms[1..]));
      StreamRoundTrip(ms[1..]);
      assert ms == [m] + ms[1..];
    }
  }

  lemma NothingToPop()
    ensures PopFront([]) == NeedMore
  {
  }

  lemma {:induction false} PopSent(m: Message, rest: seq<byte>)
    requires Sendable(m)
    ensures FrameBytes(m).Some?
    ensures PopFront(FrameBytes(m).value + rest) == Got(m, rest)
  {
    hide PopFront, BodyFields, BodyBytes, ParseBody;
    ShortTextsEncode(m);
    BodySize(m);
    ParseBodyOfBytes(m);
    PopRawFrame(m.typ, m.seqNo, BodyBytes(m), rest);
  }

  // ---- the code ----

  /** Nothing is returned when encoding throws. */
  method EncodeFrame(m: Message) returns (r: Option<seq<byte>>)
    ensures r == FrameBytes(m)
  {
    hide BodyFields, RawHeader, AllSized, Seal;
    if |m.detail| >= 0x1_0000_0000 || |m.extra| >= 0x1_0000_0000 {
      TextTooLong(m);
      return None;
    }
    TextsSized(m);
    var body := new ByteWriter();
    WriteFields(body, BodyFields(m));
    assert body.buf == BodyBytes(m);
    if |body.buf| >= 0x1_0000_0000 {
      return None;
    }
    var header := WriteHeader(m.typ, m.seqNo, |body.buf|);
    var out := AppendChecksum(header + body.buf);
    r := Some(out);
  }

  method WriteHeader(typ: u32, seqNo: u32, length: u32) returns (h: seq<byte>)
    ensures h == RawHeader(typ, seqNo, length)
  {
    hide LE;
    var hw := new ByteWriter();
    hw.U32(MAGIC);
    hw.U32(VERSION);
    hw.U32(typ);
    hw.U32(seqNo);
    hw.U32(length);
    h := hw.buf;
  }

  lemma {:induction false} TextTooLong(m: Message)
    requires |m.detail| >= 0x1_0000_0000 || |m.extra| >= 0x1_0000_0000
    ensures !AllSized(BodyFields(m))
  {
    BodyFieldKinds(m);
    var o := OutcomeFields(m);
    assert o[7] == FText(m.detail) && o[8] == FText(m.extra);
    hide OutcomeFields;
    assert BodyFields(m)[29..][7] == BodyFields(m)[36] && BodyFields(m)[29..][8] == BodyFields(m)[37];
  }

  method DecodeBody(body: seq<byte>) returns (r: Option<Message>)
    ensures r == ParseBody(body)
  {
    var rd := new ByteReader(body);
    var fs: seq<Field> := [];
    var ks := BodyKinds();
    var i := 0;
    hide BodyKinds, Take;
    assert ks[0..] == ks;
    assert forall tail: seq<Field> :: fs + tail == tail;
    while i < |ks|
      invariant 0 <= i <= |ks| && rd.Valid()
      invariant TakeAll(ks, body) ==
        match TakeAll(ks[i..], rd.Rest())
        case None => None
        case Some((tail, rest)) => Some((fs + tail, rest))
    {
      var ok, f := ReadField(rd, ks[i]);
      if !ok {
        return None;
      }
      assert ks[i..][1..] == ks[i + 1..];
      assert forall tail: seq<Field> :: fs + ([f] + tail) == fs + [f] + tail;
      fs := fs + [f];
      i := i + 1;
    }
    assert fs + [] == fs;
    PutAllOfTakeAll(ks, body);
    var m := MessageOf(fs);
    r := if InRange(m) && rd.pos == |rd.data| then Some(m) else None;
  }

  method DecodeFrame(b: seq<byte>) returns (r: FrameResult)
    ensures r == ParseFrame(b)
  {
    hide UnLE, Checksum, ParseBody;
    if |b| < 24 {
      return FrameFail(Truncated);
    }
    var magic, version, typ, seqNo, length := ReadHeader(b);
    if magic != MAGIC { return FrameFail(BadMagic); }
    if version != VERSION { return FrameFail(BadVersion); }
    if length > MAX_BODY { return FrameFail(BadLength); }
    if |b| < 24 + length { return FrameFail(Truncated); }
    if |b| > 24 + length { return FrameFail(TrailingGarbage); }
    var ok := TrailerMatches(b);
    if !ok { return FrameFail(ChecksumMismatch); }
    var body := DecodeBody(b[20..20 + length]);
    if body.None? { return FrameFail(MalformedBody); }
    if body.value.typ != typ { return FrameFail(MalformedBody); }
    r := FrameOk(body.value.(seqNo := seqNo));
  }

  method ReadHeader(b: seq<byte>) returns (magic: u32, version: u32, typ: u32, seqNo: u32, length: u32)
    requires |b| >= 20
    ensures magic == WordAt(b, 0) && version == WordAt(b, 1) && typ == WordAt(b, 2)
    ensures seqNo == WordAt(b, 3) && length == WordAt(b, 4)
  {
    hide WordAt;
    var hr := new ByteReader(b[..20]);
    magic := NextWord(hr, b, 0);
    version := NextWord(hr, b, 1);
    typ := NextWord(hr, b, 2);
    seqNo := NextWord(hr, b, 3);
    length := NextWord(hr, b, 4);
  }

  method NextWord(hr: ByteReader, ghost b: seq<byte>, ghost i: nat) returns (v: u32)
    requires i < 5 && |b| >= 20 && hr.data == b[..20] && hr.pos == 4 * i
    modifies hr
    ensures hr.pos == 4 * i + 4 && v == WordAt(b, i)
  {
    hide UnLE;
    assert hr.Rest()[..4] == b[4 * i..4 * i + 4];
    ghost var before := hr.Rest();
    var ok;
    ok, v := hr.U32();
    assert |hr.Rest()| == |before| - 4;
  }

  class FrameDecoder {
    var buffer: seq<byte>
    var fatal: bool

    ghost function State(): Decoder
      reads this
    {
      Decoder(buffer, fatal)
    }

    constructor ()
      ensures State() == Decoder([], false)
    {
      buffer := [];
      fatal := false;
    }

    method Feed(data: seq<byte>)
      modifies this
      ensures State() == old(State()).(buffer := old(buffer) + data)
    {
      buffer := buffer + data;
    }

    method Reset()
      modifies this
      ensures State() == Decoder([], false)
    {
      buffer := [];
      fatal := false;
    }

    method SetFatal()
      modifies this
      ensures State() == Decoder([], true)
    {
      fatal := true;
      buffer := [];
    }

    method Pop() returns (r: Option<Message>)
      modifies this
      ensures (State(), r) == PopOnce(old(State()))
    {
      hide UnLE, Checksum, ParseBody;
      if fatal { return None; }
      if |buffer| < 24 { return None; }
      var magic, version, typ, seqNo, length := ReadHeader(buffer);
      if magic != MAGIC { SetFatal(); return None; }
      if version != VERSION { SetFatal(); return None; }
      if length > MAX_BODY { SetFatal(); return None; }
      var total := 24 + length;
      if |buffer| < total { return None; }
      var ok := TrailerMatches(buffer[..total]);
      if !ok { SetFatal(); return None; }
      var body := DecodeBody(buffer[20..total - 4]);
      if body.None? { SetFatal(); return None; }
      buffer := buffer[total..];
      r := Some(body.value.(seqNo := seqNo));
    }
  }
}
