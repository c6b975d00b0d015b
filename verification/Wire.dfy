/** Little-endian integers of the wire format
    (integration/pixinsight/host/mmm_protocol.cpp, `get_u32_le`, `get_u64_le`, `put_u32_le`). */
module LittleEndian {
  type Byte = x: int | 0 <= x < 256

  /** The number `s` spells, least significant byte first. */
  function Value(s: seq<Byte>): nat {
    if s == [] then 0 else s[0] + 256 * Value(s[1..])
  }

  /** The low `n` bytes of `v`. */
  function Spelled(v: nat, n: nat): (r: seq<Byte>)
    ensures |r| == n
  {
    if n == 0 then [] else [v % 256] + Spelled(v / 256, n - 1)
  }

  function Limit(n: nat): (r: nat)
    ensures r >= 1
  {
    if n == 0 then 1 else 256 * Limit(n - 1)
  }

  lemma {:induction false} SpelledValue(v: nat, n: nat)
    requires v < Limit(n)
    ensures Value(Spelled(v, n)) == v
  {
    if n > 0 {
      SpelledValue(v / 256, n - 1);
      assert Spelled(v, n)[1..] == Spelled(v / 256, n - 1);
    }
  }

  lemma {:induction false} ValueSpelled(s: seq<Byte>)
    ensures Spelled(Value(s), |s|) == s
  {
    if s != [] {
      ValueSpelled(s[1..]);
      var v := Value(s);
      LowByte(s[0], Value(s[1..]));
      assert v % 256 == s[0] && v / 256 == Value(s[1..]);
      hide Value;
      assert s == [s[0]] + s[1..];
    }
  }

  lemma {:induction false} ValueBounded(s: seq<Byte>)
    ensures Value(s) < Limit(|s|)
  {
    if s != [] { ValueBounded(s[1..]); }
  }

  lemma {:induction false} LowByte(b: Byte, t: nat)
    ensures (b + 256 * t) % 256 == b && (b + 256 * t) / 256 == t
  {
  }

  function GetU32(buf: seq<Byte>, at: nat): (v: nat)
    requires at + 4 <= |buf|
    ensures v == Value(buf[at..at + 4])
  {
    var s := buf[at..at + 4];
    assert s[1..][1..][1..][1..] == [];
    assert Value(s) == s[0] + 256 * Value(s[1..]);
    assert Value(s[1..]) == s[1] + 256 * Value(s[1..][1..]);
    assert Value(s[1..][1..]) == s[2] + 256 * Value(s[1..][1..][1..]);
    assert Value(s[1..][1..][1..]) == s[3];
    var (b0: int, b1: int, b2: int, b3: int) := (buf[at], buf[at + 1], buf[at + 2], buf[at + 3]);
    b0 + b1 * 0x100 + b2 * 0x1_0000 + b3 * 0x100_0000
  }

  method GetU64(buf: seq<Byte>, at: nat) returns (v: nat)
    requires at + 8 <= |buf|
    ensures v == Value(buf[at..at + 8]) && v < Limit(8)
  {
    v := 0;
    var i := 8;
    while i > 0
      invariant 0 <= i <= 8 && v == Value(buf[at + i..at + 8])
    {
      i := i - 1;
      assert buf[at + i..at + 8][1..] == buf[at + i + 1..at + 8];
      v := v * 256 + buf[at + i];
    }
    ValueBounded(buf[at..at + 8]);
  }

  method PutU32(buf: seq<Byte>, v: nat) returns (r: seq<Byte>)
    requires v < Limit(4)
    ensures r == buf + Spelled(v, 4)
  {
    r := buf;
    var rest := v;
    for i := 0 to 4
      invariant r + Spelled(rest, 4 - i) == buf + Spelled(v, 4)
    {
      assert Spelled(rest, 4 - i) == [rest % 256] + Spelled(rest / 256, 3 - i);
      assert (r + [rest % 256]) + Spelled(rest / 256, 3 - i) == r + ([rest % 256] + Spelled(rest / 256, 3 - i));
      r := r + [rest % 256];
      rest := rest / 256;
    }
  }
}

/** Handles that read and write as much as they like at a time
    (integration/pixinsight/host/mmm_protocol.cpp, `full_read`, `full_write`). */
module Handles {
  import opened LittleEndian
  import opened Naturals

  /** What one system call does: get interrupted, fail for good, or move at most so many bytes. */
  datatype Turn = Interrupted | Broken | Chunk(most: nat)

  datatype Moved = Again | Fault | Got(bytes: seq<Byte>)

  /** The reading end of a pipe: what it will still deliver before end of file, and how calls will go.
      Once the listed turns are used up, calls move all they can. */
  class Source {
    var pending: seq<Byte>
    var turns: seq<Turn>

    constructor (data: seq<Byte>, script: seq<Turn>)
      ensures pending == data && turns == script
    {
      pending, turns := data, script;
    }

    /** At least one byte, unless at end of file. */
    method Read(n: nat) returns (r: Moved)
      requires n > 0
      modifies this
      ensures turns == if old(turns) == [] then [] else old(turns)[1..]
      ensures r.Fault? ==> Broken in old(turns)
      ensures r.Got? ==> |r.bytes| <= n && r.bytes + pending == old(pending) && (r.bytes == [] ==> old(pending) == [])
      ensures !r.Got? ==> old(turns) != [] && pending == old(pending)
    {
      var most := n;
      if turns != [] {
        var turn := turns[0];
        turns := turns[1..];
        match turn
        case Interrupted => return Again;
        case Broken => return Fault;
        case Chunk(m) => most := if m == 0 then 1 else if m < n then m else n;
      }
      var k := if most < |pending| then most else |pending|;
      r := Got(pending[..k]);
      pending := pending[k..];
    }
  }

  /** Read `n` bytes, or all there are: what comes back does not depend on how the calls go. */
  method FullRead(src: Source, n: nat) returns (ok: bool, got: seq<Byte>)
    modifies src
    ensures ok ==> got == old(src.pending)[..Min(n, |old(src.pending)|)] && got + src.pending == old(src.pending)
    ensures Broken !in old(src.turns) ==> ok && Broken !in src.turns
  {
    got := [];
    while |got| < n
      invariant |got| <= n && got + src.pending == old(src.pending)
      invariant Broken !in old(src.turns) ==> Broken !in src.turns
      decreases |src.turns|, n - |got|
    {
      var r := src.Read(n - |got|);
      match r
      case Again =>
      case Fault => return false, got;
      case Got(bytes) =>
        if bytes == [] { break; }
        got := got + bytes;
    }
    ok := true;
    assert got == old(src.pending)[..|got|];
  }

  /** The writing end of a pipe, and what has gone into it. */
  class Sink {
    var written: seq<Byte>
    var turns: seq<Turn>

    constructor (script: seq<Turn>)
      ensures written == [] && turns == script
    {
      written, turns := [], script;
    }

    method Write(bytes: seq<Byte>) returns (r: Moved)
      modifies this
      ensures turns == if old(turns) == [] then [] else old(turns)[1..]
      ensures r.Fault? ==> Broken in old(turns)
      ensures r.Got? ==>
                r.bytes <= bytes && written == old(written) + r.bytes && (old(turns) == [] ==> r.bytes == bytes)
      ensures !r.Got? ==> old(turns) != [] && written == old(written)
    {
      var k := |bytes|;
      if turns != [] {
        var turn := turns[0];
        turns := turns[1..];
        match turn
        case Interrupted => return Again;
        case Broken => return Fault;
        case Chunk(m) => k := if m < |bytes| then m else |bytes|;
      }
      written := written + bytes[..k];
      r := Got(bytes[..k]);
    }
  }

  /** `after` is `before` with some prefix of `bytes` behind it. */
  ghost predicate Extended(before: seq<Byte>, bytes: seq<Byte>, after: seq<Byte>) {
    exists k :: 0 <= k <= |bytes| && after == before + bytes[..k]
  }

  /** Write it all; a fault leaves a prefix of it behind, and only a fault does. */
  method FullWrite(sink: Sink, bytes: seq<Byte>) returns (ok: bool)
    modifies sink
    ensures ok ==> sink.written == old(sink.written) + bytes
    ensures Extended(old(sink.written), bytes, sink.written)
    ensures Broken !in old(sink.turns) ==> ok && Broken !in sink.turns
  {
    var total: nat := 0;
    while total < |bytes|
      invariant total <= |bytes| && sink.written == old(sink.written) + bytes[..total]
      invariant Broken !in old(sink.turns) ==> Broken !in sink.turns
      decreases |sink.turns|, |bytes| - total
    {
      var r := sink.Write(bytes[total..]);
      match r
      case Again =>
      case Fault => return false;
      case Got(moved) =>
        assert bytes[..total] + moved == bytes[..total + |moved|];
        total := total + |moved|;
    }
    assert bytes[..total] == bytes;
    ok := true;
  }
}
