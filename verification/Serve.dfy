/** The host's serve loop against any worker, with any number of concurrent `cancel()` calls
    (integration/pixinsight/host/mmm_host.cpp, `Host::run` and `Host::cancel`). Frames are written in as
    many system calls as it takes, under one mutex; the worker may close its end at any moment. */
module Serve {
  import opened Frames
  import opened LittleEndian
  import opened Naturals
  import opened Slots

  datatype Config = Config(layout: Layout, panels: seq<Panel>, canvas: Panel, init: Text)

  datatype Holder = Server | Caller(c: nat)

  /** The stdin mutex, and how much of its holder's frame has gone out. */
  datatype Pen = Free | Writing(who: Holder, frame: HostFrame, sent: nat)

  datatype Pc =
    | Starting
    | SendingInit
    | CheckingCancel
    | SendingCancel
    | Reading
    | Replying(reply: HostFrame)
    | Failing
    | Closing
    | Reaping
    | Returned
    | Threw

  /** A concurrent `cancel()`: its flag is stored, it writes, it is over. */
  datatype CallerPc = Requested | Sending | Over

  /** What the host does to the embedding application. */
  datatype OutCall =
    | FillCall(panel: nat, y0: nat, y1: nat, slot: nat)
    | BeginCall(w: nat, h: nat, ch: nat)
    | BandCall(y0: nat, rows: nat, slot: nat, w: nat, h: nat, ch: nat)

  /** The pipe to the worker: `stdin` is all it took, `frames` are the whole frames in that, `tail` the
      bytes after them, which belong to `torn`. */
  datatype Wire = Wire(pen: Pen, fdOpen: bool, broken: bool, stdin: seq<Byte>, frames: seq<HostFrame>, tail: seq<Byte>,
                       torn: HostFrame)

  /** Every worker frame received, and the answers to the requests among them that were written. */
  datatype Talk = Talk(read: seq<Frame>, answered: seq<HostFrame>)

  /** Why a call was made: the worker frame, counted among those received, and whether the call reported success. */
  datatype Cause = Cause(frame: nat, ok: bool)

  /** The geometry begun with, every call into the application, and the cause of each. */
  datatype App = App(begun: bool, w: nat, h: nat, ch: nat, out: seq<OutCall>, causes: seq<Cause>)

  datatype Flags = Flags(requested: bool, cancelled: bool, sawDone: bool, clean: bool)

  datatype State = State(pc: Pc, callers: map<nat, CallerPc>, flags: Flags, wire: Wire, talk: Talk, app: App)

  datatype Step =
    | OpenStdin
    | BadInit
    | StartWrite
    | Chunk(k: nat)
    | FinishWrite
    | FaultWrite
    | Break
    | CheckCancel
    | Receive(frame: Frame, ok: bool, throws: bool)
    | EndOfStream
    | ReadFault
    | Fail
    | Close
    | Reap(exitedCleanly: bool)
    | CallCancel(c: nat)
    | CallerLocks(c: nat)

  // ---------------------------------------------------------------- the steps

  /** The frame the server is about to write. */
  function Pending(cfg: Config, pc: Pc): HostFrame {
    match pc
    case SendingInit => Init(cfg.init)
    case Replying(reply) => reply
    case _ => Cancel
  }

  predicate Sends(pc: Pc) {
    pc.SendingInit? || pc.SendingCancel? || pc.Replying?
  }

  /** A worker frame, handled: `ok` is what filling a band returned, `throws` whether a callback threw. */
  function Handle(cfg: Config, s: State, f: Frame, ok: bool, throws: bool): State {
    var r, at := s.(talk := s.talk.(read := s.talk.read + [f])), |s.talk.read|;
    match f
    case BandRequest(id, panel, y0, y1, slot) =>
      var d := CheckRequest(cfg.layout, cfg.panels, panel, y0, y1, slot);
      if d == Violation then r.(pc := Failing)
      else
        var filled := if d == Fill then Tell(r, FillCall(panel, y0, y1, slot), Cause(at, ok && !throws)) else r;
        if d == Fill && throws then filled.(pc := Failing)
        else Owe(filled, BandReply(id, slot, if d == Fill && ok then 0 else 1))
    case Begin(w, h, ch) =>
      if !AcceptsBegin(cfg.canvas, s.app.begun, w, h, ch) then r.(pc := Failing)
      else
        var begun := r.(app := s.app.(begun := true, w := w, h := h, ch := ch));
        Tell(begun, BeginCall(w, h, ch), Cause(at, !throws)).(pc := if throws then Failing else Reading)
    case OutputBand(id, y0, rows, slot) =>
      if !TakesBand(cfg, s.app, y0, rows, slot) then r.(pc := Failing)
      else
        var banded := Tell(r, BandCall(y0, rows, slot, s.app.w, s.app.h, s.app.ch), Cause(at, !throws));
        if throws then banded.(pc := Failing) else Owe(banded, OutputAck(id))
    case Progress(_, _, _) => if throws then r.(pc := Failing) else r
    case Done => r.(flags := s.flags.(sawDone := true), pc := Closing)
    case Error(_) =>
      if s.flags.requested then r.(flags := s.flags.(cancelled := true), pc := Closing) else r.(pc := Failing)
  }

  predicate TakesBand(cfg: Config, app: App, y0: nat, rows: nat, slot: nat) {
    && (app.begun ==> RowBytes(app.w, app.ch) != 0)
    && AcceptsOutput(cfg.layout, app.begun, app.w, app.h, app.ch, y0, rows, slot)
  }

  function Tell(s: State, c: OutCall, why: Cause): State {
    s.(app := s.app.(out := s.app.out + [c], causes := s.app.causes + [why]))
  }

  function Owe(s: State, reply: HostFrame): State {
    s.(pc := Replying(reply))
  }

  predicate Enabled(cfg: Config, s: State, step: Step) {
    var pen := s.wire.pen;
    match step
    case OpenStdin => s.pc == Starting && pen.Free?
    case BadInit => s.pc == SendingInit && pen.Free?
    case StartWrite => Sends(s.pc) && pen.Free?
    case Chunk(k) => pen.Writing? && !s.wire.broken && pen.sent + k <= |Bytes(pen.frame)|
    case FinishWrite => pen.Writing? && pen.sent == |Bytes(pen.frame)|
    case FaultWrite => pen.Writing? && s.wire.broken && pen.sent < |Bytes(pen.frame)|
    case Break => true
    case CheckCancel => s.pc == CheckingCancel
    case Receive(f, ok, throws) => s.pc == Reading && (f.OutputBand? ==> f.id < U32)
    case EndOfStream => s.pc == Reading
    case ReadFault => s.pc == Reading
    case Fail => s.pc == Failing && pen.Free?
    case Close => s.pc == Closing && pen.Free?
    case Reap(_) => s.pc == Reaping
    case CallCancel(c) => c !in s.callers
    case CallerLocks(c) => c in s.callers && s.callers[c] == Requested && pen.Free?
  }

  /** More of the pen's frame goes out. */
  function Move(w: Wire, k: nat): Wire
    requires w.pen.Writing? && w.pen.sent + k <= |Bytes(w.pen.frame)|
  {
    var bytes := Bytes(w.pen.frame)[w.pen.sent..w.pen.sent + k];
    w.(stdin := w.stdin + bytes, tail := w.tail + bytes, torn := w.pen.frame, pen := w.pen.(sent := w.pen.sent + k))
  }

  /** The pen's frame is all out. */
  function Complete(w: Wire): Wire
    requires w.pen.Writing?
  {
    w.(frames := w.frames + [w.pen.frame], tail := [], pen := Free)
  }

  /** Where the server goes once its write is over. */
  function AfterWrite(pc: Pc, whole: bool): Pc {
    if whole then (if pc.SendingInit? then CheckingCancel else Reading)
    else if pc.Replying? then Failing
    else Reading
  }

  function WriteOver(s: State, w: Wire, whole: bool): State
    requires s.wire.pen.Writing?
  {
    match s.wire.pen.who
    case Caller(c) => s.(wire := w, callers := s.callers[c := Over])
    case Server =>
      var answered := if whole && s.pc.Replying? then s.talk.answered + [s.wire.pen.frame] else s.talk.answered;
      s.(wire := w, pc := AfterWrite(s.pc, whole), talk := s.talk.(answered := answered))
  }

  function Apply(cfg: Config, s: State, step: Step): State
    requires Enabled(cfg, s, step)
  {
    match step
    case OpenStdin => s.(pc := SendingInit, wire := s.wire.(fdOpen := true))
    case BadInit => s.(pc := Failing)
    case StartWrite => s.(wire := s.wire.(pen := Writing(Server, Pending(cfg, s.pc), 0)))
    case Chunk(k) => s.(wire := Move(s.wire, k))
    case FinishWrite => WriteOver(s, Complete(s.wire), true)
    case FaultWrite => WriteOver(s, s.wire.(pen := Free), false)
    case Break => s.(wire := s.wire.(broken := true))
    case CheckCancel => s.(pc := if s.flags.requested then SendingCancel else Reading)
    case Receive(f, ok, throws) => Handle(cfg, s, f, ok, throws)
    case EndOfStream => s.(pc := Closing)
    case ReadFault => s.(pc := Failing)
    case Fail => s.(pc := Threw, wire := s.wire.(fdOpen := false))
    case Close => s.(pc := Reaping, wire := s.wire.(fdOpen := false))
    case Reap(exitedCleanly) =>
      s.(flags := s.flags.(clean := exitedCleanly),
         pc := if s.flags.cancelled || (s.flags.sawDone && exitedCleanly) then Returned else Threw)
    case CallCancel(c) => s.(flags := s.flags.(requested := true), callers := s.callers[c := Requested])
    case CallerLocks(c) =>
      if s.wire.fdOpen then s.(wire := s.wire.(pen := Writing(Caller(c), Cancel, 0)),
                               callers := s.callers[c := Sending])
      else s.(callers := s.callers[c := Over])
  }

  ghost predicate Initial(s: State) {
    && s.pc == Starting && s.callers == map[] && s.flags == Flags(false, false, false, false)
    && (exists torn :: s.wire == Wire(Free, false, false, [], [], [], torn))
    && s.talk == Talk([], []) && !s.app.begun && s.app.out == [] && s.app.causes == []
  }

  ghost predicate Next(cfg: Config, s: State, s': State) {
    exists step :: Enabled(cfg, s, step) && s' == Apply(cfg, s, step)
  }

  ghost predicate IsRun(cfg: Config, run: seq<State>) {
    |run| > 0 && Initial(run[0]) && forall i :: 0 <= i < |run| - 1 ==> Next(cfg, run[i], run[i + 1])
  }

  // ---------------------------------------------------------------- the invariant

  /** The frames' bytes, one after the other. */
  function Flatten(frames: seq<HostFrame>): seq<Byte> {
    if frames == [] then [] else Flatten(frames[..|frames| - 1]) + Bytes(frames[|frames| - 1])
  }

  /** The pipe holds whole frames, and after them at most the beginning of one. */
  ghost predicate WireOk(w: Wire) {
    && w.stdin == Flatten(w.frames) + w.tail
    && w.tail <= Bytes(w.torn) && (w.pen.Free? ==> w.tail != Bytes(w.torn))
    && (w.pen.Free? && !w.broken ==> w.tail == [])
    && (w.pen.Writing? ==> w.pen.sent <= |Bytes(w.pen.frame)|)
    && (w.pen.Writing? && (w.pen.sent > 0 || !w.broken) ==> w.tail == Bytes(w.pen.frame)[..w.pen.sent])
    && (w.pen.Writing? && w.pen.sent == 0 ==> w.tail != Bytes(w.torn))
    && (w.pen.Writing? && w.pen.sent > 0 ==> w.torn == w.pen.frame)
  }

  /** A frame the host has to send. */
  predicate Own(cfg: Config, f: HostFrame) {
    f == Init(cfg.init) || IsReply(f) || f.Cancel?
  }

  ghost predicate FramesOk(cfg: Config, w: Wire) {
    && (forall f :: f in w.frames ==> Own(cfg, f))
    && (w.tail != [] ==> Own(cfg, w.torn))
    && (w.pen.Writing? ==> Own(cfg, w.pen.frame))
  }

  predicate Open(pc: Pc) {
    !(pc.Starting? || pc.Reaping? || pc.Returned? || pc.Threw?)
  }

  /** The mutex holder is where its frame says. */
  ghost predicate PenOk(cfg: Config, pc: Pc, callers: map<nat, CallerPc>, pen: Pen, fdOpen: bool) {
    && (fdOpen <==> Open(pc))
    && (pen.Writing? ==> fdOpen)
    && (pen.Writing? && pen.who.Server? ==> Sends(pc) && pen.frame == Pending(cfg, pc))
    && (pen.Writing? && pen.who.Caller? ==>
          pen.who.c in callers && callers[pen.who.c] == Sending && pen.frame == Cancel)
  }

  /** What is on the wire apart from cancels. */
  function Uncancelled(frames: seq<HostFrame>): seq<HostFrame> {
    if frames == [] then []
    else
      Uncancelled(frames[..|frames| - 1]) + if frames[|frames| - 1].Cancel? then [] else [frames[|frames| - 1]]
  }

  predicate BeforeInit(pc: Pc) {
    pc.Starting? || pc.SendingInit?
  }

  predicate Stopped(pc: Pc) {
    pc.Failing? || pc.Threw?
  }

  /** Init comes first, then the answers; if Init did not get through, nothing does. */
  ghost predicate OrderOk(cfg: Config, pc: Pc, frames: seq<HostFrame>, answered: seq<HostFrame>, broken: bool,
                          pen: Pen) {
    var sent := Uncancelled(frames);
    && (pc.Replying? ==> IsReply(pc.reply))
    && (sent == [Init(cfg.init)] + answered || (sent == [] && answered == []))
    && (BeforeInit(pc) ==> sent == [])
    && (!BeforeInit(pc) && sent == [] && !Stopped(pc) ==> broken && (pen.Writing? && pen.who.Server? ==> pen.sent == 0))
  }

  function IdOf(f: HostFrame): nat {
    match f
    case BandReply(id, _, _) => id
    case OutputAck(id) => id
    case _ => 0
  }

  predicate IsRequest(f: Frame) {
    f.BandRequest? || f.OutputBand?
  }

  /** The ids of the requests among the frames, in order. */
  function RequestIds(read: seq<Frame>): seq<nat> {
    if read == [] then []
    else RequestIds(read[..|read| - 1]) + if IsRequest(read[|read| - 1]) then [read[|read| - 1].id] else []
  }

  function Ids(replies: seq<HostFrame>): seq<nat> {
    if replies == [] then [] else Ids(replies[..|replies| - 1]) + [IdOf(replies[|replies| - 1])]
  }

  /** Each request is answered under its id before the next frame is read; only one that ends the run
      goes without. */
  ghost predicate ReadOk(pc: Pc, read: seq<Frame>, answered: seq<HostFrame>) {
    && (forall f :: f in answered ==> IsReply(f))
    && (pc.Replying? ==> IsReply(pc.reply))
    && if pc.Replying? then RequestIds(read) == Ids(answered) + [IdOf(pc.reply)]
       else if Stopped(pc) then RequestIds(read) == Ids(answered)
           || exists id :: RequestIds(read) == Ids(answered) + [id]
       else RequestIds(read) == Ids(answered)
  }

  /** An answer to a request, under a 32-bit id. */
  predicate IsReply(f: HostFrame) {
    f.BandReply? || (f.OutputAck? && f.id < U32)
  }

  ghost predicate CallOk(cfg: Config, a: App, c: OutCall) {
    match c
    case FillCall(panel, y0, y1, slot) => CheckRequest(cfg.layout, cfg.panels, panel, y0, y1, slot) == Fill
    case BeginCall(w, h, ch) => a.begun && c == BeginCall(a.w, a.h, a.ch)
    case BandCall(y0, rows, slot, w, h, ch) =>
      && a.begun && w == a.w && h == a.h && ch == a.ch
      && slot < cfg.layout.outputs && 0 < rows && y0 + rows <= h
         && Product(rows, TrueRowBytes(w, ch)) <= cfg.layout.slotBytes
  }

  /** Begin comes once and before every band; every call addresses memory inside its slot. */
  ghost predicate OutOk(cfg: Config, a: App) {
    && (a.begun ==> AcceptsBegin(cfg.canvas, false, a.w, a.h, a.ch))
    && (forall i :: 0 <= i < |a.out| ==> CallOk(cfg, a, a.out[i]))
    && (forall i, j :: 0 <= i < j < |a.out| && a.out[j].BeginCall? ==> a.out[i].FillCall?)
    && (a.begun ==> exists i :: 0 <= i < |a.out| && a.out[i].BeginCall?)
  }

  /** How the loop was left. */
  ghost predicate EndOk(pc: Pc, flags: Flags, read: seq<Frame>) {
    && (flags.sawDone ==> read != [] && read[|read| - 1].Done?)
    && (flags.cancelled ==> flags.requested && read != [] && read[|read| - 1].Error?)
    && (flags.sawDone || flags.cancelled ==> pc.Closing? || pc.Reaping? || pc.Returned? || pc.Threw?)
    && (pc.Returned? ==> flags.cancelled || (flags.sawDone && flags.clean))
  }

  predicate PastCheck(pc: Pc) {
    pc.Reading? || pc.Replying? || pc.Closing?
  }

  /** A stored cancel reaches the worker: past the check, an open pipe that holds no Cancel has every
      caller still on its way. */
  ghost predicate CancelOk(pc: Pc, requested: bool, callers: map<nat, CallerPc>, frames: seq<HostFrame>, broken: bool) {
    && (requested <==> callers != map[])
    && (PastCheck(pc) && !broken && Cancel !in frames ==> forall c :: c in callers ==> callers[c] != Over)
  }

  ghost predicate Inv(cfg: Config, s: State) {
    && WireOk(s.wire) && FramesOk(cfg, s.wire)
    && PenOk(cfg, s.pc, s.callers, s.wire.pen, s.wire.fdOpen)
    && OrderOk(cfg, s.pc, s.wire.frames, s.talk.answered, s.wire.broken, s.wire.pen)
    && ReadOk(s.pc, s.talk.read, s.talk.answered)
    && OutOk(cfg, s.app)
    && EndOk(s.pc, s.flags, s.talk.read)
    && CancelOk(s.pc, s.flags.requested, s.callers, s.wire.frames, s.wire.broken)
  }

  // ---------------------------------------------------------------- every step keeps it

  lemma {:induction false} FillTold(cfg: Config, a: App, c: OutCall, why: Cause)
    requires OutOk(cfg, a) && c.FillCall? && CallOk(cfg, a, c)
    ensures OutOk(cfg, a.(out := a.out + [c], causes := a.causes + [why]))
  {
    hide AcceptsBegin, CheckRequest, TrueRowBytes, Product;
    var r := a.(out := a.out + [c], causes := a.causes + [why]);
    forall i | 0 <= i < |r.out| ensures CallOk(cfg, r, r.out[i]) {
      if i < |a.out| { assert CallOk(cfg, a, a.out[i]); }
    }
    if a.begun {
      var i :| 0 <= i < |a.out| && a.out[i].BeginCall?;
      assert r.out[i].BeginCall?;
    }
  }

  lemma {:induction false} BandTold(cfg: Config, a: App, c: OutCall, why: Cause)
    requires OutOk(cfg, a) && c.BandCall? && CallOk(cfg, a, c)
    ensures OutOk(cfg, a.(out := a.out + [c], causes := a.causes + [why]))
  {
    hide AcceptsBegin, CheckRequest, TrueRowBytes, Product;
    var r := a.(out := a.out + [c], causes := a.causes + [why]);
    forall i | 0 <= i < |r.out| ensures CallOk(cfg, r, r.out[i]) {
      if i < |a.out| { assert CallOk(cfg, a, a.out[i]); }
    }
    var i :| 0 <= i < |a.out| && a.out[i].BeginCall?;
    assert r.out[i].BeginCall?;
  }

  lemma {:induction false} BeginTold(cfg: Config, a: App, w: nat, h: nat, ch: nat, why: Cause)
    requires OutOk(cfg, a) && AcceptsBegin(cfg.canvas, a.begun, w, h, ch)
    ensures OutOk(cfg, App(true, w, h, ch, a.out + [BeginCall(w, h, ch)], a.causes + [why]))
  {
    hide CheckRequest, TrueRowBytes, Product;
    var r := App(true, w, h, ch, a.out + [BeginCall(w, h, ch)], a.causes + [why]);
    forall i | 0 <= i < |r.out| ensures CallOk(cfg, r, r.out[i]) && (i < |a.out| ==> r.out[i].FillCall?) {
      if i < |a.out| { assert CallOk(cfg, a, a.out[i]); }
    }
    assert r.out[|a.out|].BeginCall?;
  }

  lemma {:induction false} HandleOut(cfg: Config, s: State, f: Frame, ok: bool, throws: bool)
    requires OutOk(cfg, s.app)
    ensures OutOk(cfg, Handle(cfg, s, f, ok, throws).app)
  {
    var at := |s.talk.read|;
    if f.BandRequest? && CheckRequest(cfg.layout, cfg.panels, f.panel, f.y0, f.y1, f.slot) == Fill {
      FillTold(cfg, s.app, FillCall(f.panel, f.y0, f.y1, f.slot), Cause(at, ok && !throws));
    } else if f.Begin? && AcceptsBegin(cfg.canvas, s.app.begun, f.w, f.h, f.ch) {
      BeginTold(cfg, s.app, f.w, f.h, f.ch, Cause(at, !throws));
    } else if f.OutputBand? && TakesBand(cfg, s.app, f.y0, f.rows, f.slot) {
      OutputStaysInside(cfg.layout, s.app.w, s.app.h, s.app.ch, f.y0, f.rows, f.slot);
      BandTold(cfg, s.app, BandCall(f.y0, f.rows, f.slot, s.app.w, s.app.h, s.app.ch), Cause(at, !throws));
    }
    hide OutOk, CheckRequest, TakesBand, AcceptsBegin;
  }

  lemma {:induction false} Grow(frames: seq<HostFrame>, f: HostFrame)
    ensures Flatten(frames + [f]) == Flatten(frames) + Bytes(f)
    ensures Uncancelled(frames + [f]) == Uncancelled(frames) + if f.Cancel? then [] else [f]
    ensures Ids(frames + [f]) == Ids(frames) + [IdOf(f)]
  {
    hide Bytes;
    assert (frames + [f])[..|frames|] == frames;
  }

  lemma {:induction false} GrowRead(read: seq<Frame>, f: Frame)
    ensures RequestIds(read + [f]) == RequestIds(read) + if IsRequest(f) then [f.id] else []
  {
    assert (read + [f])[..|read|] == read;
  }

  lemma {:induction false} NotEmpty(f: HostFrame)
    ensures |Bytes(f)| >= 5
  {
    hide Spelled, PayloadOf;
  }

  lemma {:induction false} MoveWire(w: Wire, k: nat)
    requires WireOk(w) && w.pen.Writing? && !w.broken && w.pen.sent + k <= |Bytes(w.pen.frame)|
    ensures WireOk(Move(w, k))
  {
    hide Bytes, Flatten;
    NotEmpty(w.pen.frame);
    var whole, sent := Bytes(w.pen.frame), w.pen.sent;
    PrefixGrows(whole, sent, k);
    assert (Flatten(w.frames) + w.tail) + whole[sent..sent + k] == Flatten(w.frames) + whole[..sent + k];
  }

  lemma {:induction false} PrefixGrows(whole: seq<Byte>, sent: nat, k: nat)
    requires sent + k <= |whole|
    ensures whole[..sent] + whole[sent..sent + k] == whole[..sent + k] <= whole
  {
  }

  lemma {:induction false} CompleteWire(w: Wire)
    requires WireOk(w) && w.pen.Writing? && w.pen.sent == |Bytes(w.pen.frame)|
    ensures WireOk(Complete(w))
  {
    hide Bytes, Flatten;
    NotEmpty(w.pen.frame);
    NotEmpty(w.torn);
    Grow(w.frames, w.pen.frame);
  }

  lemma {:induction false} ChunkKeeps(cfg: Config, s: State, step: Step)
    requires Inv(cfg, s) && step.Chunk? && Enabled(cfg, s, step)
    ensures Inv(cfg, Apply(cfg, s, step))
  {
    MoveWire(s.wire, step.k);
    hide Bytes, WireOk, ReadOk, OutOk, EndOk, CancelOk;
  }

  lemma {:induction false} ServerFinishes(cfg: Config, s: State, step: Step)
    requires Inv(cfg, s) && step.FinishWrite? && Enabled(cfg, s, step) && s.wire.pen.who.Server?
    requires WireOk(Complete(s.wire))
    ensures Inv(cfg, Apply(cfg, s, step))
  {
    hide Bytes, Flatten, Uncancelled, RequestIds, Ids, WireOk, OutOk;
    NotEmpty(s.wire.pen.frame);
    Grow(s.wire.frames, s.wire.pen.frame);
    Grow(s.talk.answered, s.wire.pen.frame);
    assert Uncancelled(s.wire.frames) + [] == Uncancelled(s.wire.frames);
    assert ([Init(cfg.init)] + s.talk.answered) + [s.wire.pen.frame]
             == [Init(cfg.init)] + (s.talk.answered + [s.wire.pen.frame]);
    assert [] + [Init(cfg.init)] == [Init(cfg.init)] + [];
  }

  lemma {:induction false} CallerFinishes(cfg: Config, s: State, step: Step)
    requires Inv(cfg, s) && step.FinishWrite? && Enabled(cfg, s, step) && s.wire.pen.who.Caller?
    requires WireOk(Complete(s.wire))
    ensures Inv(cfg, Apply(cfg, s, step))
  {
    hide Bytes, Flatten, Uncancelled, RequestIds, Ids, WireOk, OutOk, EndOk, ReadOk;
    Grow(s.wire.frames, s.wire.pen.frame);
    assert Uncancelled(s.wire.frames) + [] == Uncancelled(s.wire.frames);
  }

  lemma {:induction false} FinishWriteKeeps(cfg: Config, s: State, step: Step)
    requires Inv(cfg, s) && step.FinishWrite? && Enabled(cfg, s, step)
    ensures Inv(cfg, Apply(cfg, s, step))
  {
    var w := s.wire;
    CompleteWire(w);
    hide Inv, Apply, WireOk;
    if w.pen.who.Server? { ServerFinishes(cfg, s, step); } else { CallerFinishes(cfg, s, step); }
  }

  /** What a handled frame does to the conversation. */
  lemma {:induction false} HandleTalk(cfg: Config, s: State, f: Frame, ok: bool, throws: bool)
    requires s.pc == Reading && ReadOk(s.pc, s.talk.read, s.talk.answered) && EndOk(s.pc, s.flags, s.talk.read)
    requires f.OutputBand? ==> f.id < U32
    ensures var r := Handle(cfg, s, f, ok, throws);
            && ReadOk(r.pc, r.talk.read, r.talk.answered) && EndOk(r.pc, r.flags, r.talk.read)
            && (r.pc.Reading? || r.pc.Failing? || r.pc.Closing? || (r.pc.Replying? && IsReply(r.pc.reply)))
            && r.callers == s.callers && r.wire == s.wire && r.talk.answered == s.talk.answered
               && r.flags.requested == s.flags.requested
  {
    hide Ids, RequestIds, CheckRequest, TakesBand, AcceptsBegin;
    GrowRead(s.talk.read, f);
  }

  /** Out of `Reading`, with the pipe and the callers as they are. */
  lemma {:induction false} ReadingEnds(cfg: Config, pc: Pc, callers: map<nat, CallerPc>, w: Wire,
                                       answered: seq<HostFrame>, requested: bool)
    requires PenOk(cfg, Reading, callers, w.pen, w.fdOpen) && CancelOk(Reading, requested, callers, w.frames, w.broken)
    requires OrderOk(cfg, Reading, w.frames, answered, w.broken, w.pen)
    requires pc.Reading? || pc.Failing? || pc.Closing? || (pc.Replying? && IsReply(pc.reply))
    ensures PenOk(cfg, pc, callers, w.pen, w.fdOpen) && CancelOk(pc, requested, callers, w.frames, w.broken)
    ensures OrderOk(cfg, pc, w.frames, answered, w.broken, w.pen)
  {
    hide Uncancelled;
  }

  lemma {:induction false} ReceiveKeeps(cfg: Config, s: State, step: Step)
    requires Inv(cfg, s) && step.Receive? && Enabled(cfg, s, step)
    ensures Inv(cfg, Apply(cfg, s, step))
  {
    var r := Handle(cfg, s, step.frame, step.ok, step.throws);
    HandleTalk(cfg, s, step.frame, step.ok, step.throws);
    HandleOut(cfg, s, step.frame, step.ok, step.throws);
    hide Handle, WireOk, ReadOk, OutOk, EndOk, PenOk, CancelOk, OrderOk;
    ReadingEnds(cfg, r.pc, s.callers, s.wire, s.talk.answered, s.flags.requested);
  }
  lemma {:induction false} OpenStdinKeeps(cfg: Config, s: State, step: Step)
    requires Inv(cfg, s) && step.OpenStdin? && Enabled(cfg, s, step)
    ensures Inv(cfg, Apply(cfg, s, step))
  {
    hide Bytes, Flatten, Uncancelled, RequestIds, Ids, CallOk;
  }

  lemma {:induction false} BadInitKeeps(cfg: Config, s: State, step: Step)
    requires Inv(cfg, s) && step.BadInit? && Enabled(cfg, s, step)
    ensures Inv(cfg, Apply(cfg, s, step))
  {
    hide Bytes, Flatten, Uncancelled, RequestIds, Ids, CallOk;
  }

  lemma {:induction false} StartWriteKeeps(cfg: Config, s: State, step: Step)
    requires Inv(cfg, s) && step.StartWrite? && Enabled(cfg, s, step)
    ensures Inv(cfg, Apply(cfg, s, step))
  {
    hide Bytes, Flatten, Uncancelled, RequestIds, Ids, CallOk;
  }

  lemma {:induction false} FaultWriteKeeps(cfg: Config, s: State, step: Step)
    requires Inv(cfg, s) && step.FaultWrite? && Enabled(cfg, s, step)
    ensures Inv(cfg, Apply(cfg, s, step))
  {
    hide Bytes, Flatten, Uncancelled, RequestIds, Ids, CallOk;
  }

  lemma {:induction false} BreakKeeps(cfg: Config, s: State, step: Step)
    requires Inv(cfg, s) && step.Break? && Enabled(cfg, s, step)
    ensures Inv(cfg, Apply(cfg, s, step))
  {
    hide Bytes, Flatten, Uncancelled, RequestIds, Ids, CallOk;
  }

  lemma {:induction false} CheckCancelKeeps(cfg: Config, s: State, step: Step)
    requires Inv(cfg, s) && step.CheckCancel? && Enabled(cfg, s, step)
    ensures Inv(cfg, Apply(cfg, s, step))
  {
    hide Bytes, Flatten, Uncancelled, RequestIds, Ids, CallOk;
  }

  lemma {:induction false} EndOfStreamKeeps(cfg: Config, s: State, step: Step)
    requires Inv(cfg, s) && step.EndOfStream? && Enabled(cfg, s, step)
    ensures Inv(cfg, Apply(cfg, s, step))
  {
    hide Bytes, Flatten, Uncancelled, RequestIds, Ids, CallOk;
  }

  lemma {:induction false} ReadFaultKeeps(cfg: Config, s: State, step: Step)
    requires Inv(cfg, s) && step.ReadFault? && Enabled(cfg, s, step)
    ensures Inv(cfg, Apply(cfg, s, step))
  {
    hide Bytes, Flatten, Uncancelled, RequestIds, Ids, CallOk;
  }

  lemma {:induction false} FailKeeps(cfg: Config, s: State, step: Step)
    requires Inv(cfg, s) && step.Fail? && Enabled(cfg, s, step)
    ensures Inv(cfg, Apply(cfg, s, step))
  {
    hide Bytes, Flatten, Uncancelled, RequestIds, Ids, CallOk;
  }

  lemma {:induction false} CloseKeeps(cfg: Config, s: State, step: Step)
    requires Inv(cfg, s) && step.Close? && Enabled(cfg, s, step)
    ensures Inv(cfg, Apply(cfg, s, step))
  {
    hide Bytes, Flatten, Uncancelled, RequestIds, Ids, CallOk;
  }

  lemma {:induction false} ReapKeeps(cfg: Config, s: State, step: Step)
    requires Inv(cfg, s) && step.Reap? && Enabled(cfg, s, step)
    ensures Inv(cfg, Apply(cfg, s, step))
  {
    hide Bytes, Flatten, Uncancelled, RequestIds, Ids, CallOk;
  }

  lemma {:induction false} CallCancelKeeps(cfg: Config, s: State, step: Step)
    requires Inv(cfg, s) && step.CallCancel? && Enabled(cfg, s, step)
    ensures Inv(cfg, Apply(cfg, s, step))
  {
    hide Bytes, Flatten, Uncancelled, RequestIds, Ids, CallOk;
  }

  lemma {:induction false} CallerLocksKeeps(cfg: Config, s: State, step: Step)
    requires Inv(cfg, s) && step.CallerLocks? && Enabled(cfg, s, step)
    ensures Inv(cfg, Apply(cfg, s, step))
  {
    hide Bytes, Flatten, Uncancelled, RequestIds, Ids, CallOk;
  }

  lemma {:induction false} StepKeeps(cfg: Config, s: State, step: Step)
    requires Inv(cfg, s) && Enabled(cfg, s, step)
    ensures Inv(cfg, Apply(cfg, s, step))
  {
    hide Inv, Enabled, Apply;
    match step
    case OpenStdin => OpenStdinKeeps(cfg, s, step);
    case BadInit => BadInitKeeps(cfg, s, step);
    case StartWrite => StartWriteKeeps(cfg, s, step);
    case Chunk(_) => ChunkKeeps(cfg, s, step);
    case FinishWrite => FinishWriteKeeps(cfg, s, step);
    case FaultWrite => FaultWriteKeeps(cfg, s, step);
    case Break => BreakKeeps(cfg, s, step);
    case CheckCancel => CheckCancelKeeps(cfg, s, step);
    case Receive(_, _, _) => ReceiveKeeps(cfg, s, step);
    case EndOfStream => EndOfStreamKeeps(cfg, s, step);
    case ReadFault => ReadFaultKeeps(cfg, s, step);
    case Fail => FailKeeps(cfg, s, step);
    case Close => CloseKeeps(cfg, s, step);
    case Reap(_) => ReapKeeps(cfg, s, step);
    case CallCancel(_) => CallCancelKeeps(cfg, s, step);
    case CallerLocks(_) => CallerLocksKeeps(cfg, s, step);
  }

  lemma {:induction false} InitialKeeps(cfg: Config, s: State)
    requires Initial(s)
    ensures Inv(cfg, s)
  {
    hide Bytes;
    var torn :| s.wire == Wire(Free, false, false, [], [], [], torn);
    NotEmpty(torn);
  }

  lemma {:induction false} RunKeeps(cfg: Config, run: seq<State>, i: nat)
    requires IsRun(cfg, run) && i < |run|
    ensures Inv(cfg, run[i])
  {
    if i == 0 {
      InitialKeeps(cfg, run[0]);
    } else {
      hide Inv, Enabled, Apply;
      RunKeeps(cfg, run, i - 1);
      assert Next(cfg, run[i - 1], run[i]);
      var step :| Enabled(cfg, run[i - 1], step) && run[i] == Apply(cfg, run[i - 1], step);
      StepKeeps(cfg, run[i - 1], step);
    }
  }
}

/** What holds in every run of the serve loop. */
module ServeSafety {
  import opened Frames
  import opened LittleEndian
  import opened Naturals
  import opened Serve
  import opened Slots

  /** The worker's stdin is whole frames one after the other, then at most the beginning of one more, left
      standing only by a broken pipe. */
  lemma {:induction false} StdinIsFrames(cfg: Config, run: seq<State>, i: nat)
    requires IsRun(cfg, run) && i < |run|
    ensures run[i].wire.stdin == Flatten(run[i].wire.frames) + run[i].wire.tail
    ensures run[i].wire.tail <= Bytes(run[i].wire.torn)
    ensures run[i].wire.pen.Free? ==>
              run[i].wire.tail != Bytes(run[i].wire.torn) && (run[i].wire.tail != [] ==> run[i].wire.broken)
  {
    RunKeeps(cfg, run, i);
  }

  /** Apart from cancels, those frames are the Init and then one answer to each request read, under its
      id and in the order of arrival; the last one may be still to come, or may have ended the run. If
      the Init did not get through, nothing did. */
  lemma {:induction false} AnswersInOrder(cfg: Config, run: seq<State>, i: nat)
    requires IsRun(cfg, run) && i < |run|
    ensures var sent := Uncancelled(run[i].wire.frames);
            && (sent == [] || (sent[0] == Init(cfg.init) && forall f :: f in sent[1..] ==> IsReply(f)))
            && (sent == [] && Open(run[i].pc) && !BeforeInit(run[i].pc) && !run[i].pc.Failing? ==> run[i].wire.broken)
    ensures var ids := Ids(if Uncancelled(run[i].wire.frames) == [] then [] else Uncancelled(run[i].wire.frames)[1..]);
            var asked := RequestIds(run[i].talk.read);
            && ids <= asked && |asked| <= |ids| + 1
            && (|asked| == |ids| + 1 ==> run[i].pc.Replying? || Stopped(run[i].pc))
  {
    RunKeeps(cfg, run, i);
    var s := run[i];
    hide Bytes, Flatten, Ids, RequestIds;
    assert ([Init(cfg.init)] + s.talk.answered)[1..] == s.talk.answered;
  }

  /** Begin is called at most once, and before every band, with the geometry the bands use. */
  lemma {:induction false} BeginOnceFirst(cfg: Config, run: seq<State>, i: nat, j: nat, k: nat)
    requires IsRun(cfg, run) && i < |run| && j < |run[i].app.out| && k < |run[i].app.out| && j != k
    requires run[i].app.out[j].BeginCall?
    ensures !run[i].app.out[k].BeginCall?
    ensures run[i].app.out[k].BandCall? ==>
              && j < k && run[i].app.out[k].w == run[i].app.out[j].w && run[i].app.out[k].h == run[i].app.out[j].h
              && run[i].app.out[k].ch == run[i].app.out[j].ch
  {
    RunKeeps(cfg, run, i);
    var a := run[i].app;
    assert CallOk(cfg, a, a.out[j]) && CallOk(cfg, a, a.out[k]);
    hide CheckRequest, AcceptsBegin, TrueRowBytes, Product;
    if k < j { assert a.out[k].FillCall?; }
  }

  lemma {:induction false} BandsFollowBegin(cfg: Config, run: seq<State>, i: nat, k: nat) returns (j: nat)
    requires IsRun(cfg, run) && i < |run| && k < |run[i].app.out| && run[i].app.out[k].BandCall?
    ensures j < k && run[i].app.out[j].BeginCall?
  {
    RunKeeps(cfg, run, i);
    var a := run[i].app;
    assert CallOk(cfg, a, a.out[k]);
    j :| 0 <= j < |a.out| && a.out[j].BeginCall?;
    BeginOnceFirst(cfg, run, i, j, k);
  }

  /** A request of one panel among several is judged as if it were the only one. */
  lemma {:induction false} AcceptedFillInside(l: Layout, panels: seq<Slots.Panel>, panel: nat, y0: nat, y1: nat,
                                              slot: nat)
    requires CheckRequest(l, panels, panel, y0, y1, slot) == Fill && FillsStayInside(l, panels[panel])
    ensures panel < |panels| && slot < l.inputs && y0 <= y1 <= panels[panel].h
    ensures Product(y1 - y0, TrueRowBytes(panels[panel].w, panels[panel].ch)) <= l.slotBytes
  {
    hide RowBytes, TrueRowBytes, Product;
    assert CheckRequest(l, [panels[panel]], 0, y0, y1, slot) == Fill;
  }

  /** Every call addresses no more than one slot's bytes, and rows of its panel or of the begun image, as
      long as requests of each panel stay inside their slots. */
  lemma {:induction false} CallsStayInside(cfg: Config, run: seq<State>, i: nat, k: nat)
    requires IsRun(cfg, run) && i < |run| && k < |run[i].app.out|
    requires forall p :: p in cfg.panels ==> FillsStayInside(cfg.layout, p)
    ensures var c := run[i].app.out[k];
            && (c.FillCall? ==>
                  && c.panel < |cfg.panels| && c.slot < cfg.layout.inputs && c.y0 <= c.y1 <= cfg.panels[c.panel].h
                  && Product(c.y1 - c.y0, TrueRowBytes(cfg.panels[c.panel].w, cfg.panels[c.panel].ch))
                       <= cfg.layout.slotBytes)
            && (c.BeginCall? ==> 0 < c.w <= MAX_DIM && 0 < c.h <= MAX_DIM && 0 < c.ch <= MAX_DIM)
            && (c.BandCall? ==>
                  && c.slot < cfg.layout.outputs && c.y0 + c.rows <= c.h
                  && Product(c.rows, TrueRowBytes(c.w, c.ch)) <= cfg.layout.slotBytes)
  {
    RunKeeps(cfg, run, i);
    var a := run[i].app;
    var c := a.out[k];
    assert CallOk(cfg, a, c);
    hide CheckRequest, TrueRowBytes, Product, FillsStayInside;
    if c.FillCall? {
      assert cfg.panels[c.panel] in cfg.panels;
      AcceptedFillInside(cfg.layout, cfg.panels, c.panel, c.y0, c.y1, c.slot);
    }
  }

  /** The slot a fill or a band uses, the output slots numbered after the input slots. */
  function SlotOf(l: Layout, c: OutCall): nat
    requires !c.BeginCall?
  {
    if c.FillCall? then c.slot else l.inputs + c.slot
  }

  /** The bytes it reads or writes there, from the slot's first byte on. */
  function BytesOf(cfg: Config, c: OutCall): nat
    requires !c.BeginCall? && (c.FillCall? ==> c.panel < |cfg.panels| && c.y0 <= c.y1)
  {
    if c.FillCall? then Product(c.y1 - c.y0, TrueRowBytes(cfg.panels[c.panel].w, cfg.panels[c.panel].ch))
    else Product(c.rows, TrueRowBytes(c.w, c.ch))
  }

  /** Bytes [a, a + n) lie in slot `k` of the segment and in no other slot. */
  ghost predicate OnlyIn(l: Layout, k: nat, a: nat, n: nat) {
    && k < l.inputs + l.outputs && Offset(l, k) <= a && a + n <= Offset(l, k) + l.slotBytes && a + n <= l.TotalBytes()
    && forall j :: 0 <= j < l.inputs + l.outputs && j != k ==> a + n <= Offset(l, j) || Offset(l, j) + l.slotBytes <= a
  }

  lemma {:induction false} SlotIsOwn(l: Layout, k: nat, n: nat)
    requires SlotsApart(l) && k < l.inputs + l.outputs && n <= l.slotBytes
    ensures OnlyIn(l, k, Offset(l, k), n)
  {
    hide Offset;
  }

  /** In a layout whose size fits 64 bits, what a call reads or writes lies inside the segment, in its own
      slot, and in no other slot. */
  lemma {:induction false} CallsKeepToTheirSlots(cfg: Config, run: seq<State>, i: nat, k: nat)
    requires IsRun(cfg, run) && i < |run| && k < |run[i].app.out| && !run[i].app.out[k].BeginCall?
    requires forall p :: p in cfg.panels ==> FillsStayInside(cfg.layout, p)
    requires cfg.layout.Fits() && Product(cfg.layout.slotBytes, cfg.layout.inputs + cfg.layout.outputs) < U64
    ensures var c := run[i].app.out[k];
            && (c.FillCall? ==> c.panel < |cfg.panels| && c.y0 <= c.y1)
            && OnlyIn(cfg.layout, SlotOf(cfg.layout, c), Offset(cfg.layout, SlotOf(cfg.layout, c)), BytesOf(cfg, c))
  {
    hide IsRun, Offset, SlotsApart, OnlyIn, FillsStayInside, TrueRowBytes, Product;
    CallsStayInside(cfg, run, i, k);
    LayoutSoundIff(cfg.layout);
    var c := run[i].app.out[k];
    SlotIsOwn(cfg.layout, SlotOf(cfg.layout, c), BytesOf(cfg, c));
  }

  /** `run` returns normally only after Done and a clean exit, or after an Error that followed a cancel. */
  lemma {:induction false} ReturnsOnlyWhenOver(cfg: Config, run: seq<State>, i: nat)
    requires IsRun(cfg, run) && i < |run| && run[i].pc == Returned
    ensures run[i].talk.read != []
    ensures var last := run[i].talk.read[|run[i].talk.read| - 1];
            (last.Done? && run[i].flags.clean) || (last.Error? && run[i].flags.requested)
  {
    RunKeeps(cfg, run, i);
  }

  /** No cancel is lost: while the loop serves and the pipe is whole, a requested cancel is on the wire or
      some caller is still to write it. */
  lemma {:induction false} CancelNotLost(cfg: Config, run: seq<State>, i: nat)
    requires IsRun(cfg, run) && i < |run| && PastCheck(run[i].pc) && run[i].flags.requested && !run[i].wire.broken
    ensures Cancel in run[i].wire.frames || exists c :: c in run[i].callers && run[i].callers[c] != Over
  {
    RunKeeps(cfg, run, i);
    var s := run[i];
    var c :| c in s.callers;
  }

  // ---------------------------------------------------------------- what the worker makes of its stdin

  function Pairs(frames: seq<HostFrame>): (r: seq<(Byte, seq<Byte>)>)
    ensures |r| == |frames| && forall i :: 0 <= i < |frames| ==> r[i] == (TagOf(frames[i]), PayloadOf(frames[i]))
  {
    seq(|frames|, i requires 0 <= i < |frames| => (TagOf(frames[i]), PayloadOf(frames[i])))
  }

  lemma {:induction false} ConcatAppend(frames: seq<(Byte, seq<Byte>)>, f: (Byte, seq<Byte>))
    ensures Concat(frames + [f]) == Concat(frames) + Framed(f.0, f.1)
  {
    hide Framed;
    if frames == [] {
      assert Concat([f]) == Framed(f.0, f.1) + Concat([f][1..]);
      assert Framed(f.0, f.1) + [] == [] + Framed(f.0, f.1);
    } else {
      ConcatAppend(frames[1..], f);
      assert (frames + [f])[1..] == frames[1..] + [f];
    }
  }

  lemma {:induction false} FlattenIsConcat(frames: seq<HostFrame>)
    ensures Flatten(frames) == Concat(Pairs(frames))
  {
    hide TagOf, PayloadOf, Framed;
    if frames != [] {
      var n := |frames| - 1;
      FlattenIsConcat(frames[..n]);
      ConcatAppend(Pairs(frames[..n]), Pairs(frames)[n]);
      assert Pairs(frames) == Pairs(frames[..n]) + [Pairs(frames)[n]];
    }
  }

  lemma {:induction false} PayloadFits(cfg: Config, f: HostFrame)
    requires Own(cfg, f) && |cfg.init| < Limit(4)
    ensures |PayloadOf(f)| < Limit(4)
  {
    assert Limit(4) == U32 by { assert Limit(1) == 256; assert Limit(2) == 0x1_0000; assert Limit(3) == 0x100_0000; }
    if f.OutputAck? {
      assert Ten(10) == 10_000_000_000 by {
        assert Ten(2) == 100; assert Ten(4) == 10_000; assert Ten(6) == 1_000_000; assert Ten(8) == 100_000_000;
      }
      DecimalLength(f.id, 10, Ten(10));
    }
  }

  /** Read by its length fields, the worker's stdin is exactly the frames the host wrote, as long as the
      Init's length fits its 32-bit field. */
  lemma {:induction false} WorkerSeesFrames(cfg: Config, run: seq<State>, i: nat)
    requires IsRun(cfg, run) && i < |run| && run[i].wire.pen.Free? && |cfg.init| < Limit(4)
    ensures Cut(run[i].wire.stdin) == (Pairs(run[i].wire.frames), run[i].wire.tail)
  {
    RunKeeps(cfg, run, i);
    var w := run[i].wire;
    hide Limit, Flatten, PayloadOf, TagOf, Framed;
    forall j | 0 <= j < |w.frames| ensures |Pairs(w.frames)[j].1| < Limit(4) { PayloadFits(cfg, w.frames[j]); }
    if w.tail != [] {
      PayloadFits(cfg, w.torn);
      PrefixUnfinished(TagOf(w.torn), PayloadOf(w.torn), w.tail);
    }
    FlattenIsConcat(w.frames);
    CutConcat(Pairs(w.frames), w.tail);
  }
}
