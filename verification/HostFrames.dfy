/** The worker's reading of what the host writes (crates/mmm-core/src/ipc/protocol.rs, `read_host_frame`): every answer
    and every cancel comes back as the host meant it. */
module HostFrames {
  import opened Frames
  import opened LittleEndian
  import opened Options

  // ---------------------------------------------------------------- the worker's reader

  /** The number a text of decimal digits spells. */
  function ReadDigits(text: Text): Option<nat> {
    if text == [] then None
    else
      var last := text[|text| - 1];
      if last < 48 || last > 57 then None
      else if |text| == 1 then Some(last - 48)
      else
        var head := ReadDigits(text[..|text| - 1]);
        if head.None? then None else Some(10 * head.value + (last - 48))
  }

  const ACK_HEAD: string := "{\"OutputAck\":{\"request_id\":"
  const ACK_TAIL: string := "}}"
  const CANCEL: string := "\"Cancel\""

  /** The two JSON messages without a body of their own, as the host's writer spells them. */
  function ReadJson(p: Text): Option<HostFrame> {
    var head, tail := |ACK_HEAD|, |ACK_TAIL|;
    if p == Ascii(CANCEL) then Some(Cancel)
    else if |p| < head + tail || p[..head] != Ascii(ACK_HEAD) || p[|p| - tail..] != Ascii(ACK_TAIL) then None
    else
      var id := ReadDigits(p[head..|p| - tail]);
      if id.None? then None else Some(OutputAck(id.value))
  }

  /** What a payload means to the worker under its tag; `init` reads the job description. */
  function HostMeaning(init: Text -> Option<HostFrame>, tag: Byte, p: seq<Byte>): Option<HostFrame> {
    if tag == 128 then init(p)
    else if tag == 129 then
      if |p| != 9 then None else Some(BandReply(Field(p, 0, 4), Field(p, 4, 4), p[8]))
    else if tag == 130 || tag == 131 then ReadJson(p)
    else None
  }

  // ---------------------------------------------------------------- what was written is read

  /** The digits of a number read back to it, and none of them is a leading zero. */
  lemma {:induction false} DigitsReadBack(n: nat)
    ensures Decimal(n) != [] && ReadDigits(Decimal(n)) == Some(n) && (n > 0 ==> Decimal(n)[0] != 48)
  {
    var text := Decimal(n);
    assert n == 10 * (n / 10) + n % 10;
    if n >= 10 {
      DigitsReadBack(n / 10);
      assert text[..|text| - 1] == Decimal(n / 10);
      assert text[0] == Decimal(n / 10)[0];
    } else {
      assert text == [48 + n];
    }
  }

  lemma {:induction false} AckReadsBack(id: nat)
    ensures ReadJson(PayloadOf(OutputAck(id))) == Some(OutputAck(id))
  {
    DigitsReadBack(id);
    var head, digits, tail := Ascii(ACK_HEAD), Decimal(id), Ascii(ACK_TAIL);
    var p := head + digits + tail;
    assert p[..|head|] == head && p[|head|..|p| - |tail|] == digits && p[|p| - |tail|..] == tail;
    hide Decimal, ReadDigits;
    assert p[0] == 123 && Ascii(CANCEL)[0] == 34;
  }

  lemma {:induction false} ReplyReadsBack(init: Text -> Option<HostFrame>, id: nat, slot: nat, status: Byte)
    requires id < Limit(4) && slot < Limit(4)
    ensures HostMeaning(init, TagOf(BandReply(id, slot, status)), PayloadOf(BandReply(id, slot, status)))
         == Some(BandReply(id, slot, status))
  {
    SpelledValue(id, 4);
    SpelledValue(slot, 4);
    var p := Spelled(id, 4) + Spelled(slot, 4) + [status];
    assert p[0..4] == Spelled(id, 4) && p[4..8] == Spelled(slot, 4);
    hide Spelled, Value, Limit;
  }

  /** Every frame of the host but the Init reads back to itself. */
  lemma {:induction false} HostFramesReadBack(init: Text -> Option<HostFrame>, f: HostFrame)
    requires !f.Init? && (f.BandReply? ==> f.id < Limit(4) && f.slot < Limit(4))
    ensures HostMeaning(init, TagOf(f), PayloadOf(f)) == Some(f)
  {
    if f.BandReply? {
      ReplyReadsBack(init, f.id, f.slot, f.status);
    } else if f.OutputAck? {
      AckReadsBack(f.id);
    }
    hide ReadDigits, Decimal, Limit;
  }
}
