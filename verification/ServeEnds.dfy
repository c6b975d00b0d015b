/** How a run of the serve loop ends: it throws exactly where one of its steps went wrong, steps take it nearer its end,
    and somebody can always move (integration/pixinsight/host/mmm_host.cpp, `Host::run` and `Host::cancel`). */
module ServeEnds {
  import opened Frames
  import opened Serve
  import opened Slots

  /** A run together with the steps it took. */
  ghost predicate IsTrace(cfg: Config, run: seq<State>, steps: seq<Step>) {
    && |run| == |steps| + 1 && Initial(run[0])
    && forall i :: 0 <= i < |steps| ==> Enabled(cfg, run[i], steps[i]) && run[i + 1] == Apply(cfg, run[i], steps[i])
  }

  lemma {:induction false} TakenAt(cfg: Config, run: seq<State>, steps: seq<Step>, i: nat)
    requires IsTrace(cfg, run, steps) && i < |steps|
    ensures Enabled(cfg, run[i], steps[i]) && run[i + 1] == Apply(cfg, run[i], steps[i])
  {
    hide Enabled, Apply, Initial;
  }

  lemma {:induction false} TraceIsRun(cfg: Config, run: seq<State>, steps: seq<Step>)
    requires IsTrace(cfg, run, steps)
    ensures IsRun(cfg, run)
  {
    hide Enabled, Apply, Initial;
    forall i | 0 <= i < |run| - 1 ensures Next(cfg, run[i], run[i + 1]) {
      assert Enabled(cfg, run[i], steps[i]);
    }
  }

  // ---------------------------------------------------------------- why a run throws

  /** A worker frame the host does not put up with, or a callback for it that threw. */
  predicate Breaks(cfg: Config, s: State, f: Frame, throws: bool) {
    match f
    case BandRequest(id, panel, y0, y1, slot) =>
      var d := CheckRequest(cfg.layout, cfg.panels, panel, y0, y1, slot);
      d == Violation || (d == Fill && throws)
    case Begin(w, h, ch) => !AcceptsBegin(cfg.canvas, s.app.begun, w, h, ch) || throws
    case OutputBand(id, y0, rows, slot) => !TakesBand(cfg, s.app, y0, rows, slot) || throws
    case Progress(_, _, _) => throws
    case Done => false
    case Error(_) => !s.flags.requested
  }

  predicate LastDone(read: seq<Frame>) {
    read != [] && read[|read| - 1].Done?
  }

  predicate LastError(read: seq<Frame>) {
    read != [] && read[|read| - 1].Error?
  }

  /** A step that went wrong: an Init that cannot be encoded, an answer the pipe did not take, a frame that breaks the
      rules, unreadable output, or a worker that is over without a Done and a clean exit though it was not cancelled. */
  predicate Fails(cfg: Config, s: State, step: Step) {
    match step
    case BadInit => true
    case FaultWrite => s.pc.Replying? && s.wire.pen.Writing? && s.wire.pen.who.Server?
    case Receive(f, _, throws) => Breaks(cfg, s, f, throws)
    case ReadFault => true
    case Reap(exitedCleanly) => !LastError(s.talk.read) && !(LastDone(s.talk.read) && exitedCleanly)
    case _ => false
  }

  /** The flags say what was read last, and a caller that sends holds the pen. */
  ghost predicate Tidy(s: State) {
    && (LastDone(s.talk.read) ==> s.flags.sawDone)
    && (LastError(s.talk.read) && !Stopped(s.pc) ==> s.flags.cancelled)
    && (forall c :: c in s.callers && s.callers[c] == Sending ==>
          s.wire.pen.Writing? && s.wire.pen.who == Caller(c))
  }

  lemma {:induction false} TidyReceive(cfg: Config, s: State, step: Step)
    requires EndOk(s.pc, s.flags, s.talk.read) && Tidy(s) && step.Receive? && Enabled(cfg, s, step)
    ensures Tidy(Apply(cfg, s, step))
  {
    hide CheckRequest, AcceptsBegin, TakesBand;
  }

  lemma {:induction false} TidyStep(cfg: Config, s: State, step: Step)
    requires Inv(cfg, s) && Tidy(s) && Enabled(cfg, s, step)
    ensures Tidy(Apply(cfg, s, step))
  {
    hide WireOk, FramesOk, OrderOk, ReadOk, OutOk, CancelOk, Bytes, Handle;
    if step.Receive? { TidyReceive(cfg, s, step); }
  }

  lemma {:induction false} StopStep(cfg: Config, s: State, step: Step)
    requires Inv(cfg, s) && Tidy(s) && Enabled(cfg, s, step)
    ensures Stopped(Apply(cfg, s, step).pc) <==> Stopped(s.pc) || Fails(cfg, s, step)
  {
    hide WireOk, FramesOk, OrderOk, ReadOk, OutOk, CancelOk, Bytes, CheckRequest, AcceptsBegin, TakesBand, Move,
         Complete;
  }

  lemma {:induction false} TidyStarts(s: State)
    requires Initial(s)
    ensures Tidy(s) && !Stopped(s.pc)
  {
  }

  lemma {:induction false} TidyRun(cfg: Config, run: seq<State>, steps: seq<Step>, i: nat)
    requires IsTrace(cfg, run, steps) && i < |run|
    ensures Inv(cfg, run[i]) && Tidy(run[i])
  {
    hide IsRun, Inv, Tidy, Enabled, Apply, Initial;
    TraceIsRun(cfg, run, steps);
    RunKeeps(cfg, run, i);
    if i == 0 {
      TidyStarts(run[0]);
    } else {
      TidyRun(cfg, run, steps, i - 1);
      TakenAt(cfg, run, steps, i - 1);
      TidyStep(cfg, run[i - 1], steps[i - 1]);
    }
  }

  ghost predicate FailedBefore(cfg: Config, run: seq<State>, steps: seq<Step>, i: nat)
    requires |run| == |steps| + 1 && i < |run|
  {
    exists j :: 0 <= j < i && Fails(cfg, run[j], steps[j])
  }

  /** A run throws exactly where one of its steps went wrong: at its end it returned if and only if none did. */
  lemma {:induction false} ThrowsIffFailed(cfg: Config, run: seq<State>, steps: seq<Step>, i: nat)
    requires IsTrace(cfg, run, steps) && i < |run|
    ensures Stopped(run[i].pc) <==> FailedBefore(cfg, run, steps, i)
    ensures run[i].pc.Threw? ==> FailedBefore(cfg, run, steps, i)
    ensures run[i].pc.Returned? ==> !FailedBefore(cfg, run, steps, i)
  {
    hide Inv, Enabled, Apply, Fails, Tidy, Initial;
    if i == 0 {
      TidyStarts(run[0]);
    } else {
      TidyRun(cfg, run, steps, i - 1);
      TakenAt(cfg, run, steps, i - 1);
      StopStep(cfg, run[i - 1], steps[i - 1]);
      ThrowsIffFailed(cfg, run, steps, i - 1);
      assert FailedBefore(cfg, run, steps, i) <==>
          FailedBefore(cfg, run, steps, i - 1) || Fails(cfg, run[i - 1], steps[i - 1]);
    }
  }

  // ---------------------------------------------------------------- progress

  /** A step of the serve loop itself. */
  predicate IsOwn(s: State, step: Step) {
    if step.Chunk? || step.FinishWrite? || step.FaultWrite? then s.wire.pen.Writing? && s.wire.pen.who.Server?
    else !step.Break? && !step.CallCancel? && !step.CallerLocks?
  }

  /** How many steps the serve loop still has to take at most without another frame, apart from system calls. */
  function Rank(s: State): nat {
    var base :=
      match s.pc
      case Starting => 8
      case SendingInit => 7
      case CheckingCancel => 5
      case SendingCancel => 4
      case Replying(_) => 4
      case Reading => 3
      case Failing => 1
      case Closing => 2
      case Reaping => 1
      case Returned => 0
      case Threw => 0;
    2 * base + if s.wire.pen.Writing? && s.wire.pen.who.Server? then 0 else 1
  }

  /** What the holder of the pen has still to write. */
  function Unsent(s: State): int {
    if s.wire.pen.Writing? then |Bytes(s.wire.pen.frame)| - s.wire.pen.sent else 0
  }

  /** Every step of the loop but a frame received takes it nearer its end, a system call by its bytes, and no other step
      moves it. */
  lemma {:induction false} StepsDescend(cfg: Config, s: State, step: Step)
    requires Inv(cfg, s) && Enabled(cfg, s, step)
    ensures step.Chunk? ==>
              Apply(cfg, s, step).pc == s.pc && Unsent(Apply(cfg, s, step)) == Unsent(s) - step.k
    ensures IsOwn(s, step) && !step.Chunk? && !step.Receive? ==> Rank(Apply(cfg, s, step)) < Rank(s)
    ensures step.Receive? ==>
              (Apply(cfg, s, step).pc.Closing? <==> step.frame.Done? || (step.frame.Error? && s.flags.requested))
    ensures !IsOwn(s, step) ==> Rank(Apply(cfg, s, step)) == Rank(s) && Apply(cfg, s, step).pc == s.pc
  {
    hide WireOk, FramesOk, OrderOk, ReadOk, OutOk, CancelOk, Bytes, CheckRequest, AcceptsBegin, TakesBand;
  }

  /** The step the pen's holder takes: what is left of its frame in one system call, or the end of its write. */
  function PenStep(s: State): Step
    requires s.wire.pen.Writing? && s.wire.pen.sent <= |Bytes(s.wire.pen.frame)|
  {
    if Unsent(s) == 0 then FinishWrite else if s.wire.broken then FaultWrite else Chunk(Unsent(s))
  }

  /** The step the loop takes when nobody holds the pen. */
  function LoopStep(s: State): Step
    requires s.wire.pen.Free? && !s.pc.Returned? && !s.pc.Threw?
  {
    match s.pc
    case Starting => OpenStdin
    case CheckingCancel => CheckCancel
    case Reading => EndOfStream
    case Failing => Fail
    case Closing => Close
    case Reaping => Reap(true)
    case _ => StartWrite
  }

  /** The run is over, and so is every `cancel()`. */
  predicate AllOver(s: State) {
    (s.pc.Returned? || s.pc.Threw?) && forall c :: c in s.callers ==> s.callers[c] == Over
  }

  /** The holder of the pen can move, or else nobody holds it and the loop can move or a waiting `cancel()` can take
      it. */
  ghost predicate CanMove(cfg: Config, s: State) {
    if s.wire.pen.Writing? then
      && 0 <= Unsent(s) <= |Bytes(s.wire.pen.frame)|
      && Enabled(cfg, s, PenStep(s)) && (PenStep(s).Chunk? ==> PenStep(s).k > 0)
    else if !s.pc.Returned? && !s.pc.Threw? then Enabled(cfg, s, LoopStep(s)) && IsOwn(s, LoopStep(s))
    else exists c :: Enabled(cfg, s, CallerLocks(c))
  }

  lemma {:induction false} MovesUnlessOver(cfg: Config, s: State)
    requires WireOk(s.wire) && Tidy(s) && !AllOver(s)
    ensures CanMove(cfg, s)
  {
    hide Bytes, Flatten;
    if s.wire.pen.Free? && (s.pc.Returned? || s.pc.Threw?) {
      var c :| c in s.callers && s.callers[c] != Over;
      assert Enabled(cfg, s, CallerLocks(c));
    }
  }

  /** No deadlock: in every run somebody can move until all is over. */
  lemma {:induction false} NeverStuck(cfg: Config, run: seq<State>, steps: seq<Step>, i: nat)
    requires IsTrace(cfg, run, steps) && i < |run| && !AllOver(run[i])
    ensures CanMove(cfg, run[i])
  {
    TidyRun(cfg, run, steps, i);
    hide IsTrace, WireOk, FramesOk, PenOk, OrderOk, ReadOk, OutOk, EndOk, CancelOk, AllOver, CanMove, Tidy;
    MovesUnlessOver(cfg, run[i]);
  }
}
