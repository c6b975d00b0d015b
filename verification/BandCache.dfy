/** The per-thread band cache: rows of a panel served out of bands fetched from an expensive producer
    (crates/mmm-core/src/band_cache.rs). Every calling thread has a cell of its own. */
module Bands {
  import opened Entrywise
  import opened Naturals
  import opened Options
  import Indexing

  /** The panel as its producer holds it: the sample of a channel at a row and column. */
  type Panel = (nat, nat, nat) -> real

  /** What a fetch of rows [y0, y1) left in its buffer: the band, or an error and whatever it wrote. */
  datatype Fetched = Filled(data: seq<real>) | Failed(message: string, junk: seq<real>)

  /** Samples in `rows` rows of all channels. */
  function Samples(ch: nat, rows: nat, w: nat): nat {
    Product(Product(ch, rows), w)
  }

  /** Where row `ly` of channel `c` starts in a planar band of `rows` rows. */
  function RowStart(c: nat, ly: nat, rows: nat, w: nat): nat {
    Product(Product(c, rows), w) + Product(ly, w)
  }

  lemma {:induction false} RowInside(c: nat, ch: nat, ly: nat, rows: nat, w: nat)
    requires c < ch && ly < rows
    ensures RowStart(c, ly, rows, w) + w <= Samples(ch, rows, w)
  {
    Indexing.InBounds(rows, ch, ly, c);
    var k, n := c * rows + ly, Product(ch, rows);
    assert k < n;
    Indexing.RowsApart(w, k, n);
    assert k * w == c * rows * w + ly * w;
  }

  lemma {:induction false} SamplesGrow(ch: nat, rows: nat, more: nat, w: nat)
    requires rows <= more
    ensures Samples(ch, rows, w) <= Samples(ch, more, w)
  {
    var d := more - rows;
    NotNegative(ch, d);
    assert ch * more == ch * rows + ch * d;
    NotNegative(ch * d, w);
    assert (ch * rows + ch * d) * w == ch * rows * w + ch * d * w;
  }

  /** `data` is rows [y0, y1) of the panel, channel after channel. */
  ghost predicate IsBand(panel: Panel, ch: nat, w: nat, y0: nat, y1: nat, data: seq<real>) {
    && y0 <= y1 && |data| == Samples(ch, y1 - y0, w)
    && forall c: nat, ly: nat :: c < ch && ly < y1 - y0 ==> RowOfBand(panel, ch, w, y0, y1, data, c, ly)
  }

  ghost predicate RowOfBand(panel: Panel, ch: nat, w: nat, y0: nat, y1: nat, data: seq<real>, c: nat, ly: nat)
    requires y0 <= y1 && |data| == Samples(ch, y1 - y0, w) && c < ch && ly < y1 - y0
  {
    RowInside(c, ch, ly, y1 - y0, w);
    var s := RowStart(c, ly, y1 - y0, w);
    IsRow(panel, c, y0 + ly, w, data[s..s + w])
  }

  /** A row of the band, sliced out of the buffer that starts with it. */
  lemma {:induction false} SliceIsRow(panel: Panel, ch: nat, w: nat, y0: nat, y1: nat, buf: seq<real>, c: nat, y: nat)
    requires y0 <= y < y1 && c < ch && Samples(ch, y1 - y0, w) <= |buf|
    requires IsBand(panel, ch, w, y0, y1, buf[..Samples(ch, y1 - y0, w)])
    ensures var s := RowStart(c, y - y0, y1 - y0, w);
            s + w <= |buf| && IsRow(panel, c, y, w, buf[s..s + w])
  {
    var n, s := Samples(ch, y1 - y0, w), RowStart(c, y - y0, y1 - y0, w);
    RowInside(c, ch, y - y0, y1 - y0, w);
    assert RowOfBand(panel, ch, w, y0, y1, buf[..n], c, y - y0);
    assert buf[..n][s..s + w] == buf[s..s + w];
  }

  /** `row` is row `y` of channel `c`. */
  ghost predicate IsRow(panel: Panel, c: nat, y: nat, w: nat, row: seq<real>) {
    |row| == w && forall x: nat :: x < w ==> row[x] == panel(c, y, x)
  }

  /** One calling thread's cached band. */
  class ThreadBand {
    var y0: nat
    var valid: bool
    var buf: seq<real>

    constructor ()
      ensures !valid && buf == []
    {
      y0, valid, buf := 0, false, [];
    }
  }

  class BandCache {
    const w: nat
    const h: nat
    const ch: nat
    const bandRows: nat
    const cells: seq<ThreadBand>
    var error: Option<string>

    function Cap(): nat {
      Samples(ch, bandRows, w)
    }

    /** One past the last row of the band that starts at `y0`; the last band may be short. */
    function End(y0: nat): nat {
      if y0 + bandRows < h then y0 + bandRows else h
    }

    /** First row of the band that holds row `y`. */
    function BandOf(y: nat): (y0: nat)
      requires bandRows > 0
      ensures y0 <= y < y0 + bandRows
    {
      BandStart(y, bandRows);
      (y / bandRows) * bandRows
    }

    /** What a valid cell holds is the producer's band. */
    ghost predicate CellOk(panel: Panel, cell: ThreadBand)
      reads cell
    {
      && (cell.buf == [] || |cell.buf| == Cap())
      && (cell.valid ==> cell.y0 < h && cell.y0 < End(cell.y0) && Samples(ch, End(cell.y0) - cell.y0, w) <= |cell.buf|
                         && IsBand(panel, ch, w, cell.y0, End(cell.y0),
                                   cell.buf[..Samples(ch, End(cell.y0) - cell.y0, w)]))
    }

    ghost predicate Valid(panel: Panel)
      reads this, cells
    {
      && bandRows > 0 && |cells| > 0
      && (forall i, j :: 0 <= i < j < |cells| ==> cells[i] != cells[j])
      && forall i :: 0 <= i < |cells| ==> CellOk(panel, cells[i])
    }

    /** One cell for each worker thread of the pool and one for callers outside it. */
    constructor (w: nat, h: nat, ch: nat, bandRows: nat, threads: nat, ghost panel: Panel)
      requires bandRows > 0
      ensures Valid(panel) && fresh(cells) && error == None && |cells| == threads + 1
      ensures this.w == w && this.h == h && this.ch == ch && this.bandRows == bandRows
      ensures forall i :: 0 <= i < |cells| ==> !cells[i].valid
    {
      var made: seq<ThreadBand> := [];
      for i := 0 to threads + 1
        invariant |made| == i && fresh(made)
        invariant forall k :: 0 <= k < i ==> !made[k].valid && made[k].buf == []
        invariant forall k, l :: 0 <= k < l < i ==> made[k] != made[l]
      {
        var cell := new ThreadBand();
        made := made + [cell];
      }
      this.w, this.h, this.ch, this.bandRows := w, h, ch, bandRows;
      cells, error := made, None;
    }

    /** The producer keeps its word: what it fills is the panel's band. */
    ghost predicate Honest(panel: Panel, fetch: (nat, nat) -> Fetched) {
      forall a: nat, b: nat :: a < b <= h ==> KeepsWord(panel, a, b, fetch(a, b))
    }

    ghost predicate KeepsWord(panel: Panel, a: nat, b: nat, f: Fetched)
      requires a < b
    {
      if f.Filled? then IsBand(panel, ch, w, a, b, f.data) else |f.junk| == Samples(ch, b - a, w)
    }

    /** The calling thread's cell holds the band of row `y`. */
    predicate Hit(idx: nat, y: nat)
      requires idx < |cells| && bandRows > 0
      reads cells[idx]
    {
      cells[idx].valid && cells[idx].y0 == BandOf(y)
    }

    /** The cell is as it was. */
    predicate Untouched(valid: bool, y0: nat, buf: seq<real>, cell: ThreadBand)
      reads cell
    {
      cell.valid == valid && cell.y0 == y0 && cell.buf == buf
    }

    /** The first error stays. */
    function Latched(before: Option<string>, message: string): Option<string> {
      if before.None? then Some(message) else before
    }

    /** Bring the band from `by0` into the thread's cell. */
    method Refill(ghost panel: Panel, idx: nat, by0: nat, fetch: (nat, nat) -> Fetched) returns (ok: bool)
      requires Valid(panel) && idx < |cells| && by0 < h && Honest(panel, fetch)
      modifies cells[idx], this`error
      ensures Valid(panel)
      ensures ok <==> fetch(by0, End(by0)).Filled?
      ensures ok ==> cells[idx].valid && cells[idx].y0 == by0 && error == old(error)
      ensures !ok ==> !cells[idx].valid && error == Latched(old(error), fetch(by0, End(by0)).message)
    {
      var band := cells[idx];
      var by1 := End(by0);
      var want := Samples(ch, by1 - by0, w);
      SamplesGrow(ch, by1 - by0, bandRows, w);
      if |band.buf| < Cap() {
        band.buf := band.buf + Zeros(Cap() - |band.buf|);
      }
      match fetch(by0, by1)
      case Failed(message, junk) =>
        band.buf := junk + band.buf[want..];
        error := Latched(error, message);
        band.valid := false;
        ok := false;
      case Filled(data) =>
        band.buf := data + band.buf[want..];
        assert band.buf[..want] == data;
        band.y0 := by0;
        band.valid := true;
        ok := true;
    }

    /** One row of one channel for the thread whose cell is `idx`. Touches that cell and the error alone. */
    method Row(ghost panel: Panel, c: nat, y: nat, idx: nat, fetch: (nat, nat) -> Fetched)
      returns (r: Option<seq<real>>)
      requires Valid(panel) && idx < |cells| && Honest(panel, fetch)
      modifies cells[idx], this`error
      ensures Valid(panel)
      ensures r.Some? ==> IsRow(panel, c, y, w, r.value)
      ensures r.Some? <==> c < ch && y < h && (old(Hit(idx, y)) || fetch(BandOf(y), End(BandOf(y))).Filled?)
      ensures y < h && c < ch && !old(Hit(idx, y)) && fetch(BandOf(y), End(BandOf(y))).Failed? ==>
                error == Latched(old(error), fetch(BandOf(y), End(BandOf(y))).message) && !cells[idx].valid
      ensures r.Some? || c >= ch || y >= h ==> error == old(error)
      ensures c >= ch || y >= h || old(Hit(idx, y)) ==>
                Untouched(old(cells[idx].valid), old(cells[idx].y0), old(cells[idx].buf), cells[idx])
      ensures r.Some? ==> Hit(idx, y)
    {
      hide IsBand, IsRow, Samples, RowStart, BandOf, Honest;
      if y >= h || c >= ch {
        return None;
      }
      var by0 := BandOf(y);
      if !Hit(idx, y) {
        var ok := Refill(panel, idx, by0, fetch);
        if !ok {
          return None;
        }
      }
      var band := cells[idx];
      assert CellOk(panel, band);
      var bh := End(band.y0) - band.y0;
      SliceIsRow(panel, ch, w, band.y0, End(band.y0), band.buf, c, y);
      var start := RowStart(c, y - band.y0, bh, w);
      r := Some(band.buf[start..start + w]);
    }
  }

  lemma {:induction false} BandStart(y: nat, rows: nat)
    requires rows > 0
    ensures 0 <= (y / rows) * rows <= y < (y / rows) * rows + rows
  {
    assert y == rows * (y / rows) + y % rows;
  }
}
