/** The shared-memory slots and the checks every worker-supplied value passes before it addresses memory,
    in 64-bit arithmetic (integration/pixinsight/host/mmm_shm.h, and the serve loop of
    integration/pixinsight/host/mmm_host.cpp). */
module Slots {
  import opened Naturals

  const U32: nat := 0x1_0000_0000
  const U64: nat := 0x1_0000_0000_0000_0000
  const MAX_DIM: nat := 0x7fff_ffff

  /** Unsigned 64-bit product, wrapping. */
  function Times(a: nat, b: nat): nat {
    Product(a, b) % U64
  }

  function Plus(a: nat, b: nat): nat {
    (a + b) % U64
  }

  // ---------------------------------------------------------------- the layout

  datatype Layout = Layout(slotBytes: nat, inputs: nat, outputs: nat) {
    predicate Fits() {
      slotBytes < U64 && inputs < U32 && outputs < U32
    }

    function TotalBytes(): nat {
      Times(slotBytes, inputs + outputs)
    }

    function InputOffset(i: nat): nat {
      Times(slotBytes, i)
    }

    function OutputOffset(i: nat): nat {
      Plus(Times(slotBytes, inputs), Times(slotBytes, i))
    }
  }

  /** Byte offset of slot `k`, the output slots numbered after the input slots. */
  function Offset(l: Layout, k: nat): nat {
    if k < l.inputs then l.InputOffset(k) else l.OutputOffset(k - l.inputs)
  }

  /** Every slot lies inside the segment, and no two share a byte. */
  ghost predicate SlotsApart(l: Layout) {
    && (forall k :: 0 <= k < l.inputs + l.outputs ==> Offset(l, k) + l.slotBytes <= l.TotalBytes())
    && forall j, k :: 0 <= j < k < l.inputs + l.outputs ==> Offset(l, j) + l.slotBytes <= Offset(l, k)
  }

  lemma {:induction false} Monotone(s: nat, j: nat, k: nat)
    requires j < k
    ensures s * j + s <= s * k
  {
    var d := k - j - 1;
    NotNegative(s, d);
    assert k == j + 1 + d && s * k == s * j + s + s * d;
  }

  lemma {:induction false} SplitProduct(s: nat, a: nat, k: nat)
    requires a <= k
    ensures Product(s, k) == Product(s, a) + Product(s, k - a)
  {
    var d := k - a;
    assert k == a + d && s * k == s * a + s * d;
  }

  lemma {:induction false} SmallMod(x: nat)
    requires x < U64
    ensures x % U64 == x
  {
  }

  /** Below the wrap, slot `k` starts at the plain product. */
  lemma {:induction false} OffsetIs(l: Layout, k: nat)
    requires Product(l.slotBytes, k) < U64 && k < l.inputs + l.outputs
    ensures Offset(l, k) == Product(l.slotBytes, k)
  {
    var s := l.slotBytes;
    SmallMod(Product(s, k));
    if k >= l.inputs {
      SplitProduct(s, l.inputs, k);
      hide Product;
      SmallMod(Product(s, l.inputs));
      SmallMod(Product(s, k - l.inputs));
    }
  }

  lemma {:induction false} ProductOrder(s: nat, a: nat, b: nat)
    ensures a <= b ==> s * a <= s * b
  {
    if a <= b {
      var d := b - a;
      NotNegative(s, d);
      assert b == a + d && s * b == s * a + s * d;
    }
  }

  lemma {:induction false} FittingSlots(l: Layout)
    requires l.Fits() && Product(l.slotBytes, l.inputs + l.outputs) < U64
    ensures SlotsApart(l)
  {
    var s, n := l.slotBytes, l.inputs + l.outputs;
    forall k | 0 <= k < n ensures Offset(l, k) == s * k && s * k + s <= s * n {
      Monotone(s, k, n);
      OffsetIs(l, k);
    }
    assert l.TotalBytes() == s * n;
    hide Offset;
    forall j, k | 0 <= j < k < n ensures Offset(l, j) + s <= Offset(l, k) { Monotone(s, j, k); }
  }

  /** The slot that would straddle the 64-bit limit. */
  lemma {:induction false} CrossingSlot(s: nat, n: nat) returns (k: nat)
    requires s < U64 && Product(s, n) >= U64
    ensures k < n && s * k < U64 <= s * k + s
  {
    ProductOrder(n, s, 0);
    k := (U64 - 1) / s;
    assert U64 - 1 == s * k + (U64 - 1) % s;
    ProductOrder(s, n, k);
  }

  /** The layout is sound exactly when its size fits 64 bits. */
  lemma {:induction false} LayoutSoundIff(l: Layout)
    requires l.Fits()
    ensures SlotsApart(l) <==> Product(l.slotBytes, l.inputs + l.outputs) < U64
  {
    if Product(l.slotBytes, l.inputs + l.outputs) < U64 {
      FittingSlots(l);
    } else {
      var k := CrossingSlot(l.slotBytes, l.inputs + l.outputs);
      OffsetIs(l, k);
      hide Offset;
      assert Offset(l, k) + l.slotBytes > l.TotalBytes();
    }
  }

  // ---------------------------------------------------------------- what the host accepts

  datatype Panel = Panel(w: nat, h: nat, ch: nat) {
    predicate Fits() {
      w < U64 && h < U64 && ch < U64
    }
  }

  /** Bytes of one row as the host computes them, and as they are. */
  function RowBytes(w: nat, ch: nat): nat {
    Times(Times(w, ch), 4)
  }

  function TrueRowBytes(w: nat, ch: nat): (r: nat)
    ensures r == w * ch * 4
  {
    Product(w, ch) * 4
  }

  lemma {:induction false} ModShift(a: nat, b: nat)
    ensures (U64 * a + b) % U64 == b % U64
  {
  }

  lemma {:induction false} RowBytesWrap(w: nat, ch: nat)
    ensures RowBytes(w, ch) == TrueRowBytes(w, ch) % U64
  {
    var p := Product(w, ch);
    var q, r := p / U64, p % U64;
    hide Product;
    assert p * 4 == U64 * (q * 4) + r * 4;
    ModShift(q * 4, r * 4);
  }

  datatype Decision = Violation | Refuse | Fill

  /** A band request against the layout and the panels: throw, answer with a failure, or fill the slot. */
  function CheckRequest(l: Layout, panels: seq<Panel>, panel: nat, y0: nat, y1: nat, slot: nat): Decision {
    if slot >= l.inputs then Violation
    else if panel >= |panels| || y0 > y1 then Refuse
    else
      var row := RowBytes(panels[panel].w, panels[panel].ch);
      if row != 0 && y1 - y0 > l.slotBytes / row then Violation
      else if row != 0 && y1 <= panels[panel].h then Fill
      else Refuse
  }

  /** An accepted request writes inside its slot: whatever the slot, panel and rows. */
  ghost predicate FillsStayInside(l: Layout, p: Panel) {
    forall y0: nat, y1: nat, slot: nat :: CheckRequest(l, [p], 0, y0, y1, slot) == Fill ==>
      y0 <= y1 <= p.h && slot < l.inputs && Product(y1 - y0, TrueRowBytes(p.w, p.ch)) <= l.slotBytes
  }

  lemma {:induction false} QuotientCovers(rows: nat, row: nat, bytes: nat)
    requires row > 0 && rows <= bytes / row
    ensures rows * row <= bytes
  {
    ProductOrder(row, rows, bytes / row);
  }

  /** An accepted request of a panel whose row size does not wrap stays inside its slot. */
  lemma {:induction false} FillStaysInside(l: Layout, panels: seq<Panel>, panel: nat, y0: nat, y1: nat, slot: nat)
    requires panel < |panels| && CheckRequest(l, panels, panel, y0, y1, slot) == Fill
    requires TrueRowBytes(panels[panel].w, panels[panel].ch) < U64
    ensures slot < l.inputs && y0 <= y1 <= panels[panel].h
    ensures Product(y1 - y0, TrueRowBytes(panels[panel].w, panels[panel].ch)) <= l.slotBytes
  {
    hide RowBytes, TrueRowBytes;
    var p := panels[panel];
    RowBytesWrap(p.w, p.ch);
    SmallMod(TrueRowBytes(p.w, p.ch));
    QuotientCovers(y1 - y0, RowBytes(p.w, p.ch), l.slotBytes);
  }

  lemma {:induction false} QuotientIff(rows: nat, row: nat, bytes: nat)
    requires row > 0
    ensures rows <= bytes / row <==> Product(rows, row) <= bytes
  {
    if rows <= bytes / row {
      QuotientCovers(rows, row, bytes);
    } else {
      ProductOrder(row, bytes / row + 1, rows);
      assert bytes == row * (bytes / row) + bytes % row;
    }
  }

  /** Where row sizes do not wrap, the host fills exactly the requests for existing rows of an existing panel that is
      not empty, if they fit an input slot, and ends the run exactly over a missing slot or rows that do not fit. */
  lemma {:induction false} DecisionIs(l: Layout, panels: seq<Panel>, panel: nat, y0: nat, y1: nat, slot: nat)
    requires panel < |panels| ==> TrueRowBytes(panels[panel].w, panels[panel].ch) < U64
    ensures CheckRequest(l, panels, panel, y0, y1, slot) == Fill <==>
              && slot < l.inputs && panel < |panels| && y0 <= y1 <= panels[panel].h
              && 0 < TrueRowBytes(panels[panel].w, panels[panel].ch)
              && Product(y1 - y0, TrueRowBytes(panels[panel].w, panels[panel].ch)) <= l.slotBytes
    ensures CheckRequest(l, panels, panel, y0, y1, slot) == Violation <==>
              || slot >= l.inputs
              || (panel < |panels| && y0 <= y1
                  && Product(y1 - y0, TrueRowBytes(panels[panel].w, panels[panel].ch)) > l.slotBytes)
  {
    hide RowBytes, TrueRowBytes;
    if slot < l.inputs && panel < |panels| && y0 <= y1 {
      var p := panels[panel];
      RowBytesWrap(p.w, p.ch);
      SmallMod(TrueRowBytes(p.w, p.ch));
      if RowBytes(p.w, p.ch) > 0 { QuotientIff(y1 - y0, RowBytes(p.w, p.ch), l.slotBytes); }
    }
  }

  /** Requests stay inside their slots exactly when the panel's row size does not wrap, or nothing of the
      panel can be asked for. */
  lemma {:induction false} FillsStayInsideIff(l: Layout, p: Panel)
    requires l.Fits() && p.Fits()
    ensures FillsStayInside(l, p) <==>
              TrueRowBytes(p.w, p.ch) < U64 || RowBytes(p.w, p.ch) == 0 || RowBytes(p.w, p.ch) > l.slotBytes || p.h == 0
                  || l.inputs == 0
  {
    var row := RowBytes(p.w, p.ch);
    RowBytesWrap(p.w, p.ch);
    hide RowBytes, TrueRowBytes;
    if TrueRowBytes(p.w, p.ch) < U64 {
      forall y0: nat, y1: nat, slot: nat | CheckRequest(l, [p], 0, y0, y1, slot) == Fill
        ensures y0 <= y1 <= p.h && slot < l.inputs && Product(y1 - y0, TrueRowBytes(p.w, p.ch)) <= l.slotBytes
      {
        FillStaysInside(l, [p], 0, y0, y1, slot);
      }
    } else if row == 0 || row > l.slotBytes || p.h == 0 || l.inputs == 0 {
      forall y0: nat, y1: nat, slot: nat | CheckRequest(l, [p], 0, y0, y1, slot) == Fill
        ensures y0 <= y1 <= p.h && slot < l.inputs && Product(y1 - y0, TrueRowBytes(p.w, p.ch)) <= l.slotBytes
      {
        NothingAsked(l, p, y0, y1, slot);
      }
    } else {
      OneRow(l, p);
    }
  }

  lemma {:induction false} NothingAsked(l: Layout, p: Panel, y0: nat, y1: nat, slot: nat)
    requires CheckRequest(l, [p], 0, y0, y1, slot) == Fill
    requires RowBytes(p.w, p.ch) > l.slotBytes || p.h == 0
    ensures y0 == y1 <= p.h && slot < l.inputs && Product(y1 - y0, TrueRowBytes(p.w, p.ch)) == 0
  {
    var row := RowBytes(p.w, p.ch);
    hide RowBytes, TrueRowBytes;
    QuotientCovers(y1 - y0, row, l.slotBytes);
    ProductOrder(row, 1, y1 - y0);
  }

  /** A row whose size wraps is taken to be short. */
  lemma {:induction false} OneRow(l: Layout, p: Panel)
    requires l.Fits() && p.h > 0 && l.inputs > 0
    requires TrueRowBytes(p.w, p.ch) >= U64 && 0 < RowBytes(p.w, p.ch) <= l.slotBytes
    ensures CheckRequest(l, [p], 0, 0, 1, 0) == Fill && Product(1 - 0, TrueRowBytes(p.w, p.ch)) > l.slotBytes
    ensures !FillsStayInside(l, p)
  {
    var row := RowBytes(p.w, p.ch);
    hide RowBytes, TrueRowBytes, Product;
    AtLeastOne(row, l.slotBytes);
    assert CheckRequest(l, [p], 0, 0, 1, 0) == Fill;
    OneTimes(TrueRowBytes(p.w, p.ch));
  }

  lemma {:induction false} AtLeastOne(row: nat, bytes: nat)
    requires 0 < row <= bytes
    ensures 1 <= bytes / row
  {
  }

  lemma {:induction false} OneTimes(n: nat)
    ensures Product(1 - 0, n) == n
  {
  }

  /** The output geometry the host accepts, once. */
  predicate AcceptsBegin(canvas: Panel, begun: bool, w: nat, h: nat, ch: nat) {
    && !begun && w != 0 && h != 0 && ch != 0
    && w <= MAX_DIM && h <= MAX_DIM && ch <= MAX_DIM && ch == canvas.ch
    && (canvas.w != 0 && canvas.h != 0 ==> w <= canvas.w && h <= canvas.h)
  }

  lemma {:induction false} RowFits(w: nat, ch: nat)
    requires 0 < w <= MAX_DIM && 0 < ch <= MAX_DIM
    ensures 0 < RowBytes(w, ch) == TrueRowBytes(w, ch) < U64
  {
    ProductOrder(w, ch, MAX_DIM);
    ProductOrder(MAX_DIM, w, MAX_DIM);
    ProductOrder(w, 1, ch);
    RowBytesWrap(w, ch);
  }

  /** An output band against the layout and the geometry of the accepted Begin. */
  predicate AcceptsOutput(l: Layout, begun: bool, w: nat, h: nat, ch: nat, y0: nat, rows: nat, slot: nat)
    requires begun ==> RowBytes(w, ch) != 0
  {
    && begun && slot < l.outputs
    && rows != 0 && y0 <= h && rows <= h - y0
    && rows <= l.slotBytes / RowBytes(w, ch)
  }

  /** No output row is as wide as 2^64 bytes under the int32 limits, so an accepted band reads inside its
      slot and lands on rows of the begun image. */
  lemma {:induction false} OutputStaysInside(l: Layout, w: nat, h: nat, ch: nat, y0: nat, rows: nat, slot: nat)
    requires 0 < w <= MAX_DIM && 0 < ch <= MAX_DIM && RowBytes(w, ch) != 0
    requires AcceptsOutput(l, true, w, h, ch, y0, rows, slot)
    ensures slot < l.outputs && 0 < rows && y0 + rows <= h && Product(rows, TrueRowBytes(w, ch)) <= l.slotBytes
  {
    RowFits(w, ch);
    hide RowBytes, TrueRowBytes;
    QuotientCovers(rows, RowBytes(w, ch), l.slotBytes);
  }

  /** A band is accepted exactly when its slot exists and it holds rows of the begun image that fit the slot. */
  lemma {:induction false} BandAcceptedIff(l: Layout, w: nat, h: nat, ch: nat, y0: nat, rows: nat, slot: nat)
    requires 0 < w <= MAX_DIM && 0 < ch <= MAX_DIM && RowBytes(w, ch) != 0
    ensures AcceptsOutput(l, true, w, h, ch, y0, rows, slot) <==>
              slot < l.outputs && 0 < rows && y0 + rows <= h && Product(rows, TrueRowBytes(w, ch)) <= l.slotBytes
  {
    RowFits(w, ch);
    hide RowBytes, TrueRowBytes;
    QuotientIff(rows, RowBytes(w, ch), l.slotBytes);
  }

  /** `w` and `h` are positive, of a size the protocol allows, and no cell of theirs lies off the canvas, if one is
    * given. */
  ghost predicate OnCanvas(canvas: Panel, w: nat, h: nat) {
    && 1 <= w <= MAX_DIM && 1 <= h <= MAX_DIM
    && (canvas.w == 0 || canvas.h == 0 ||
        forall x: nat, y: nat :: Cell(x, y, w, h) ==> Cell(x, y, canvas.w, canvas.h))
  }

  ghost predicate Cell(x: nat, y: nat, w: nat, h: nat) { x < w && y < h }

  /** An output is begun exactly when none was before and it lies on the canvas with the channels of the canvas. */
  lemma {:induction false} BeginAcceptedIff(canvas: Panel, begun: bool, w: nat, h: nat, ch: nat)
    ensures AcceptsBegin(canvas, begun, w, h, ch) <==>
              !begun && OnCanvas(canvas, w, h) && 1 <= ch <= MAX_DIM && ch == canvas.ch
  {
    if OnCanvas(canvas, w, h) && canvas.w != 0 && canvas.h != 0 {
      assert Cell(w - 1, h - 1, w, h);
    }
  }
}
