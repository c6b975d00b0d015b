/** Frames of the control channel: a tag byte, a 32-bit little-endian length, a payload
    (integration/pixinsight/host/mmm_protocol.cpp). */
module Frames {
  import opened Handles
  import opened LittleEndian
  import opened Options

  // ---------------------------------------------------------------- worker to host

  type Text = seq<Byte>

  /** A frame the worker sends. */
  datatype Frame =
    | BandRequest(id: nat, panel: nat, y0: nat, y1: nat, slot: nat)
    | Progress(stage: Text, done: nat, total: nat)
    | Begin(w: nat, h: nat, ch: nat)
    | OutputBand(id: nat, y0: nat, rows: nat, slot: nat)
    | Done
    | Error(message: Text)

  datatype Parsed = Eof | Bad | Whole(frame: Frame, rest: seq<Byte>)

  /** Reading of a JSON payload under its tag; `None` where parsing or a field lookup throws. */
  type Json = (Byte, seq<Byte>) -> Option<Frame>

  function Field(p: seq<Byte>, at: nat, n: nat): nat
    requires at + n <= |p|
  {
    Value(p[at..at + n])
  }

  /** What a payload means under its tag. */
  function Meaning(json: Json, tag: Byte, p: seq<Byte>): Option<Frame> {
    if tag == 1 then
      if |p| != 28 then None
      else Some(BandRequest(Field(p, 0, 4), Field(p, 4, 4), Field(p, 8, 8), Field(p, 16, 8), Field(p, 24, 4)))
    else if tag == 4 then
      if |p| != 24 then None
      else Some(OutputBand(Field(p, 0, 4), Field(p, 4, 8), Field(p, 12, 8), Field(p, 20, 4)))
    else if tag == 2 || tag == 3 || tag == 5 || tag == 6 then json(tag, p)
    else None
  }

  /** The first frame of a byte stream that ends where `data` does. */
  function Parse(json: Json, data: seq<Byte>): (r: Parsed)
    ensures r.Whole? ==> |r.rest| < |data|
  {
    if data == [] then Eof
    else if |data| < 5 then Bad
    else
      var len := Value(data[1..5]);
      if |data| < 5 + len then Bad
      else
        var m := Meaning(json, data[0], data[5..5 + len]);
        if m.None? then Bad else Whole(m.value, data[5 + len..])
  }

  /** A frame on the wire. The length field is 32 bits wide. */
  function Framed(tag: Byte, payload: seq<Byte>): seq<Byte> {
    [tag] + Spelled(|payload|, 4) + payload
  }

  datatype Outcome = AtEof | Received(frame: Frame) | Thrown

  /** The outcome, and what is left to read, are what the byte stream says. */
  predicate ReadsAs(p: Parsed, r: Outcome, left: seq<Byte>) {
    && (p.Eof? ==> r == AtEof)
    && (p.Bad? ==> r == Thrown)
    && (p.Whole? ==> r == Received(p.frame) && left == p.rest)
  }

  /** Read one frame. Unless a call fails for good, the outcome and what is left to read are those of the
      byte stream, however the calls cut it up. */
  method ReadWorkerFrame(src: Source, json: Json) returns (r: Outcome)
    modifies src
    ensures Broken !in old(src.turns) ==>
              ReadsAs(Parse(json, old(src.pending)), r, src.pending) && (r.Received? ==> Broken !in src.turns)
    ensures r.Received? ==> Parse(json, old(src.pending)) == Whole(r.frame, src.pending)
    ensures r.AtEof? ==> old(src.pending) == []
  {
    ghost var data := src.pending;
    var ok, head := FullRead(src, 1);
    if !ok { return Thrown; }
    if head == [] { return AtEof; }
    assert data == head + src.pending;
    var ok2, lenBytes := FullRead(src, 4);
    if !ok2 || |lenBytes| != 4 { return Thrown; }
    assert data == head + (lenBytes + src.pending);
    assert data[1..5] == lenBytes[0..4];
    var len := GetU32(lenBytes, 0);
    var ok3, payload := FullRead(src, len);
    if !ok3 || |payload| != len { return Thrown; }
    assert data == head + (lenBytes + (payload + src.pending));
    assert data[5..5 + len] == payload && data[5 + len..] == src.pending;
    var m := Decode(json, head[0], payload);
    r := if m.None? then Thrown else Received(m.value);
  }

  method Decode(json: Json, tag: Byte, p: seq<Byte>) returns (m: Option<Frame>)
    ensures m == Meaning(json, tag, p)
  {
    match tag
    case 1 =>
      if |p| != 28 { return None; }
      var y0 := GetU64(p, 8);
      var y1 := GetU64(p, 16);
      m := Some(BandRequest(GetU32(p, 0), GetU32(p, 4), y0, y1, GetU32(p, 24)));
    case 4 =>
      if |p| != 24 { return None; }
      var y0 := GetU64(p, 4);
      var rows := GetU64(p, 12);
      m := Some(OutputBand(GetU32(p, 0), y0, rows, GetU32(p, 20)));
    case 2 => m := json(tag, p);
    case 3 => m := json(tag, p);
    case 5 => m := json(tag, p);
    case 6 => m := json(tag, p);
    case _ => m := None;
  }

  // ---------------------------------------------------------------- streams of frames

  /** The frames a whole byte stream holds, and whether it ends at a frame boundary. */
  function ParseAll(json: Json, data: seq<Byte>): (seq<Frame>, bool)
    decreases |data|
  {
    match Parse(json, data)
    case Eof => ([], true)
    case Bad => ([], false)
    case Whole(frame, rest) =>
      var (frames, clean) := ParseAll(json, rest);
      ([frame] + frames, clean)
  }

  lemma {:induction false} FramedParts(tag: Byte, payload: seq<Byte>, rest: seq<Byte>)
    requires |payload| < Limit(4)
    ensures var data := Framed(tag, payload) + rest;
            && |data| == 5 + |payload| + |rest| && data[0] == tag && Value(data[1..5]) == |payload|
            && data[5..5 + |payload|] == payload && data[5 + |payload|..] == rest
  {
    var data := Framed(tag, payload) + rest;
    hide Spelled, Limit;
    assert data[1..5] == Spelled(|payload|, 4);
    SpelledValue(|payload|, 4);
  }

  /** A frame comes back off the stream as written, and no more of the stream with it. */
  lemma {:induction false} ParseFramed(json: Json, tag: Byte, payload: seq<Byte>, rest: seq<Byte>)
    requires |payload| < Limit(4)
    ensures Parse(json, Framed(tag, payload) + rest)
         == if Meaning(json, tag, payload).Some? then Whole(Meaning(json, tag, payload).value, rest) else Bad
  {
    FramedParts(tag, payload, rest);
    hide Framed, Meaning, Value;
  }

  function Concat(frames: seq<(Byte, seq<Byte>)>): seq<Byte> {
    if frames == [] then [] else Framed(frames[0].0, frames[0].1) + Concat(frames[1..])
  }

  /** A stream of meaningful frames parses to their meanings, in order, with nothing left over. */
  lemma {:induction false} StreamRoundTrip(json: Json, frames: seq<(Byte, seq<Byte>)>, meanings: seq<Frame>)
    requires |frames| == |meanings|
    requires forall i :: 0 <= i < |frames| ==>
               |frames[i].1| < Limit(4) && Meaning(json, frames[i].0, frames[i].1) == Some(meanings[i])
    ensures ParseAll(json, Concat(frames)) == (meanings, true)
  {
    hide Meaning, Framed, Limit, Parse;
    if frames == [] {
      ParseNothing(json);
    } else {
      StreamRoundTrip(json, frames[1..], meanings[1..]);
      ParseFramed(json, frames[0].0, frames[0].1, Concat(frames[1..]));
      assert meanings == [meanings[0]] + meanings[1..];
    }
  }

  lemma {:induction false} ParseNothing(json: Json)
    ensures Parse(json, []) == Eof
  {
  }

  /** Too short to be a whole frame. */
  predicate Unfinished(data: seq<Byte>) {
    |data| < 5 || |data| < 5 + Value(data[1..5])
  }

  /** Taking a stream apart by its length fields: the whole frames, and what is left. */
  function Cut(data: seq<Byte>): (seq<(Byte, seq<Byte>)>, seq<Byte>)
    decreases |data|
  {
    if Unfinished(data) then ([], data)
    else
      var len := Value(data[1..5]);
      var (frames, tail) := Cut(data[5 + len..]);
      ([(data[0], data[5..5 + len])] + frames, tail)
  }

  /** The frames of a stream are the frames that went into it. */
  lemma {:induction false} CutConcat(frames: seq<(Byte, seq<Byte>)>, tail: seq<Byte>)
    requires Unfinished(tail) && forall i :: 0 <= i < |frames| ==> |frames[i].1| < Limit(4)
    ensures Cut(Concat(frames) + tail) == (frames, tail)
  {
    hide Framed, Limit, Value;
    if frames == [] {
      assert Concat(frames) + tail == tail;
    } else {
      CutConcat(frames[1..], tail);
      var rest := Concat(frames[1..]) + tail;
      var (t, p) := frames[0];
      FramedParts(t, p, rest);
      assert Concat(frames) + tail == Framed(t, p) + rest;
      assert frames == [(t, p)] + frames[1..];
    }
  }

  /** The beginning of a frame is no whole frame. */
  lemma {:induction false} PrefixUnfinished(tag: Byte, payload: seq<Byte>, tail: seq<Byte>)
    requires |payload| < Limit(4) && tail <= Framed(tag, payload) && tail != Framed(tag, payload)
    ensures Unfinished(tail)
  {
    FramedParts(tag, payload, []);
    var whole := Framed(tag, payload);
    assert whole + [] == whole;
    hide Framed, Limit, Value;
    if |tail| >= 5 { assert tail[1..5] == whole[1..5]; }
  }

  function RequestPayload(id: nat, panel: nat, y0: nat, y1: nat, slot: nat): seq<Byte> {
    Spelled(id, 4) + Spelled(panel, 4) + Spelled(y0, 8) + Spelled(y1, 8) + Spelled(slot, 4)
  }

  function OutputPayload(id: nat, y0: nat, rows: nat, slot: nat): seq<Byte> {
    Spelled(id, 4) + Spelled(y0, 8) + Spelled(rows, 8) + Spelled(slot, 4)
  }

  lemma {:induction false} RequestFields(id: seq<Byte>, panel: seq<Byte>, y0: seq<Byte>, y1: seq<Byte>, slot: seq<Byte>)
    requires |id| == |panel| == |slot| == 4 && |y0| == |y1| == 8
    ensures var p := id + panel + y0 + y1 + slot;
            |p| == 28 && p[0..4] == id && p[4..8] == panel && p[8..16] == y0 && p[16..24] == y1 && p[24..28] == slot
  {
  }

  lemma {:induction false} OutputFields(id: seq<Byte>, y0: seq<Byte>, rows: seq<Byte>, slot: seq<Byte>)
    requires |id| == |slot| == 4 && |y0| == |rows| == 8
    ensures var p := id + y0 + rows + slot;
            |p| == 24 && p[0..4] == id && p[4..12] == y0 && p[12..20] == rows && p[20..24] == slot
  {
  }

  /** The fixed layouts of the band-carrying messages, PROTOCOL.md section 5, read back field by field. */
  lemma {:induction false} RequestRoundTrip(json: Json, id: nat, panel: nat, y0: nat, y1: nat, slot: nat)
    requires id < Limit(4) && panel < Limit(4) && slot < Limit(4) && y0 < Limit(8) && y1 < Limit(8)
    ensures Meaning(json, 1, RequestPayload(id, panel, y0, y1, slot)) == Some(BandRequest(id, panel, y0, y1, slot))
  {
    hide Spelled, Limit, Value;
    SpelledValue(id, 4);
    SpelledValue(panel, 4);
    SpelledValue(y0, 8);
    SpelledValue(y1, 8);
    SpelledValue(slot, 4);
    RequestFields(Spelled(id, 4), Spelled(panel, 4), Spelled(y0, 8), Spelled(y1, 8), Spelled(slot, 4));
  }

  lemma {:induction false} OutputRoundTrip(json: Json, id: nat, y0: nat, rows: nat, slot: nat)
    requires id < Limit(4) && slot < Limit(4) && y0 < Limit(8) && rows < Limit(8)
    ensures Meaning(json, 4, OutputPayload(id, y0, rows, slot)) == Some(OutputBand(id, y0, rows, slot))
  {
    hide Spelled, Limit, Value;
    SpelledValue(id, 4);
    SpelledValue(y0, 8);
    SpelledValue(rows, 8);
    SpelledValue(slot, 4);
    OutputFields(Spelled(id, 4), Spelled(y0, 8), Spelled(rows, 8), Spelled(slot, 4));
  }

  // ---------------------------------------------------------------- host to worker

  /** A frame the host sends. */
  datatype HostFrame = Init(body: Text) | BandReply(id: nat, slot: nat, status: Byte) | OutputAck(id: nat) | Cancel

  function Ascii(s: string): (r: Text)
    ensures |r| == |s|
  {
    seq(|s|, i requires 0 <= i < |s| => if (s[i] as int) < 128 then s[i] as int else 63)
  }

  function Decimal(n: nat): Text {
    (if n < 10 then [] else Decimal(n / 10)) + [48 + n % 10]
  }

  function TagOf(f: HostFrame): Byte {
    match f
    case Init(_) => 128
    case BandReply(_, _, _) => 129
    case OutputAck(_) => 130
    case Cancel => 131
  }

  function PayloadOf(f: HostFrame): seq<Byte> {
    match f
    case Init(body) => body
    case BandReply(id, slot, status) => Spelled(id, 4) + Spelled(slot, 4) + [status]
    case OutputAck(id) => Ascii("{\"OutputAck\":{\"request_id\":") + Decimal(id) + Ascii("}}")
    case Cancel => Ascii("\"Cancel\"")
  }

  lemma {:induction false} DecimalLength(n: nat, digits: nat, limit: nat)
    requires digits > 0 && n < limit && limit == Ten(digits)
    ensures |Decimal(n)| <= digits
  {
    if digits > 1 && n >= 10 { DecimalLength(n / 10, digits - 1, Ten(digits - 1)); }
  }

  function Ten(k: nat): nat {
    if k == 0 then 1 else 10 * Ten(k - 1)
  }

  function Bytes(f: HostFrame): seq<Byte> {
    Framed(TagOf(f), PayloadOf(f))
  }

  method BuildFrame(tag: Byte, payload: seq<Byte>) returns (buf: seq<Byte>)
    requires |payload| < Limit(4)
    ensures buf == Framed(tag, payload)
  {
    buf := PutU32([tag], |payload|);
    buf := buf + payload;
  }

  method EncodeBandReply(id: nat, slot: nat, status: Byte) returns (buf: seq<Byte>)
    requires id < Limit(4) && slot < Limit(4)
    ensures buf == PayloadOf(BandReply(id, slot, status))
  {
    buf := PutU32([], id);
    buf := PutU32(buf, slot);
    buf := buf + [status];
  }

  /** Header, then payload. A fault leaves a prefix of the one frame behind. */
  method WriteFrameRaw(sink: Sink, tag: Byte, payload: seq<Byte>) returns (ok: bool)
    requires |payload| < Limit(4)
    modifies sink
    ensures ok ==> sink.written == old(sink.written) + Framed(tag, payload)
    ensures Extended(old(sink.written), Framed(tag, payload), sink.written)
    ensures Broken !in old(sink.turns) ==> ok
  {
    hide Spelled, Limit;
    ghost var before := sink.written;
    var header := PutU32([tag], |payload|);
    ghost var whole := header + payload;
    assert whole == Framed(tag, payload);
    ok := FullWrite(sink, header);
    ghost var k :| 0 <= k <= |header| && sink.written == before + header[..k];
    assert sink.written == before + whole[..k];
    if !ok { return; }
    assert sink.written == before + header;
    ok := FullWrite(sink, payload);
    ghost var m :| 0 <= m <= |payload| && sink.written == (before + header) + payload[..m];
    assert (before + header) + payload[..m] == before + whole[..|header| + m];
  }
}
