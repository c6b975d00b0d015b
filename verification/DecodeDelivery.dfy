/** That calls deliver: a call fails only where one of its own steps failed, steps take it nearer its end, and some
    call can always move (crates/mmm-core/src/decoded.rs, `decoded_planes_in`). */
module DecodeDelivery {
  import opened DecodeCache
  import opened Options
  import DecodeCacheSafety

  /** A run together with the steps it took. */
  ghost predicate IsTrace(decoded: Key -> Bytes, run: seq<State>, steps: seq<Step>) {
    && |run| == |steps| + 1 && Init(decoded, run[0])
    && forall i :: 0 <= i < |steps| ==>
         Enabled(decoded, run[i], steps[i]) && run[i + 1] == Apply(decoded, run[i], steps[i])
  }

  lemma {:induction false} TakenAt(decoded: Key -> Bytes, run: seq<State>, steps: seq<Step>, i: nat)
    requires IsTrace(decoded, run, steps) && i < |steps|
    ensures Enabled(decoded, run[i], steps[i]) && run[i + 1] == Apply(decoded, run[i], steps[i])
  {
    hide Enabled, Apply, Init;
  }

  lemma {:induction false} TraceIsRun(decoded: Key -> Bytes, run: seq<State>, steps: seq<Step>)
    requires IsTrace(decoded, run, steps)
    ensures IsRun(decoded, run)
  {
    hide Enabled, Apply, Init;
    forall i | 0 <= i < |run| - 1 ensures Next(decoded, run[i], run[i + 1]) {
      assert Enabled(decoded, run[i], steps[i]);
    }
  }

  /** A step of call `t` itself. */
  predicate IsOwn(step: Step, t: Tid) {
    && !step.Spawn? && !step.Crash? && !step.PowerCut? && !step.Remove? && !step.Begin? && !step.Retire?
    && step.t == t
  }

  /** A step of the call that went wrong: an operation that failed, or no valid file where the rename had failed. */
  predicate Fails(decoded: Key -> Bytes, s: State, step: Step, t: Tid)
    requires t in s.calls
  {
    && IsOwn(step, t)
    && (|| (step.DecodeInMemory? && !step.ok) || (step.Prepare? && !step.ok) || (step.Create? && !step.ok)
        || (step.Reserve? && !step.ok) || (step.Decode? && !step.ok) || (step.Sync? && !step.ok)
        || (step.Open? && !step.ok)
        || (step.Accept? && !Valid(decoded, s.disk, s.calls[t].key)))
  }

  /** The call lives from state `i` to state `j`. */
  predicate Lives(run: seq<State>, t: Tid, i: nat, j: nat) {
    j < |run| && forall k :: i <= k <= j ==> t in run[k].calls
  }

  /** Failed, or about to be. */
  predicate Doomed(pc: Pc) {
    pc.Cleaning? || pc == Returned(Failed)
  }

  lemma {:induction false} OthersLeave(decoded: Key -> Bytes, s: State, step: Step, t: Tid)
    requires Enabled(decoded, s, step) && t in s.calls && t in Apply(decoded, s, step).calls && !IsOwn(step, t)
    ensures Apply(decoded, s, step).calls[t] == s.calls[t]
  {
    hide Valid;
  }

  lemma {:induction false} DoomHasCause(decoded: Key -> Bytes, s: State, step: Step, t: Tid)
    requires Enabled(decoded, s, step) && t in s.calls && t in Apply(decoded, s, step).calls
    requires !Doomed(s.calls[t].pc) && Doomed(Apply(decoded, s, step).calls[t].pc)
    ensures Fails(decoded, s, step, t)
  {
    hide Valid;
    if !IsOwn(step, t) { OthersLeave(decoded, s, step, t); }
  }

  lemma {:induction false} BornUndoomed(decoded: Key -> Bytes, s: State, step: Step, t: Tid)
    requires Enabled(decoded, s, step) && t !in s.calls && t in Apply(decoded, s, step).calls
    ensures step.Begin? && step.t == t
    ensures var c := Apply(decoded, s, step).calls[t];
            c == Call(step.p, step.key, step.cached, if step.cached then Checking else Waiting)
  {
    hide Valid;
  }

  lemma {:induction false} BornAt(decoded: Key -> Bytes, s: State, step: Step)
    requires Enabled(decoded, s, step) && step.Begin?
    ensures step.t !in s.calls
  {
  }

  /** The step at which a call that failed, or is about to, went wrong. */
  lemma {:induction false} CauseOfDoom(decoded: Key -> Bytes, run: seq<State>, steps: seq<Step>, i: nat, t: Tid)
    returns (j: nat)
    requires IsTrace(decoded, run, steps) && i < |run| && t in run[i].calls && Doomed(run[i].calls[t].pc)
    ensures j < i && Lives(run, t, j, i) && Fails(decoded, run[j], steps[j], t)
    decreases i
  {
    hide Enabled, Apply, Fails;
    assert i > 0;
    assert Enabled(decoded, run[i - 1], steps[i - 1]) && run[i] == Apply(decoded, run[i - 1], steps[i - 1]);
    if t !in run[i - 1].calls {
      BornUndoomed(decoded, run[i - 1], steps[i - 1], t);
    } else if Doomed(run[i - 1].calls[t].pc) {
      j := CauseOfDoom(decoded, run, steps, i - 1, t);
    } else {
      j := i - 1;
      DoomHasCause(decoded, run[i - 1], steps[i - 1], t);
    }
  }

  /** A call that returned a failure took a step that failed: nothing else makes it fail. */
  lemma {:induction false} FailureHasCause(decoded: Key -> Bytes, run: seq<State>, steps: seq<Step>, i: nat, t: Tid)
    returns (j: nat)
    requires IsTrace(decoded, run, steps) && i < |run| && t in run[i].calls && run[i].calls[t].pc == Returned(Failed)
    ensures j < i && Lives(run, t, j, i) && Fails(decoded, run[j], steps[j], t)
  {
    hide IsTrace, Fails;
    j := CauseOfDoom(decoded, run, steps, i, t);
  }

  // ---------------------------------------------------------------- calls that nothing goes wrong for

  /** Where a call can be that nothing went wrong for. */
  predicate OnTrack(c: Call) {
    if c.cached then
      !c.pc.InMemory? && !c.pc.Cleaning? && (c.pc.Returned? ==> c.pc.outcome.Mapped?)
    else
      c.pc.Waiting? || c.pc.InMemory? || (c.pc.Returned? && c.pc.outcome.Memory?)
  }

  lemma {:induction false} StaysOnTrack(decoded: Key -> Bytes, s: State, step: Step, t: Tid)
    requires Enabled(decoded, s, step) && t in s.calls && t in Apply(decoded, s, step).calls && OnTrack(s.calls[t])
    requires !Fails(decoded, s, step, t) && !(step.Panic? && step.t == t)
    ensures var c := Apply(decoded, s, step).calls[t];
            OnTrack(c) && c.pid == s.calls[t].pid && c.key == s.calls[t].key && c.cached == s.calls[t].cached
  {
    hide Valid;
    if !IsOwn(step, t) { OthersLeave(decoded, s, step, t); }
  }

  /** From its beginning at step `b` to state `i` no step of the call failed or panicked. */
  ghost predicate Unharmed(decoded: Key -> Bytes, run: seq<State>, steps: seq<Step>, b: nat, i: nat, t: Tid) {
    && b < i < |run| == |steps| + 1 && Lives(run, t, b + 1, i)
    && forall j :: b < j < i ==> !Fails(decoded, run[j], steps[j], t) && !(steps[j].Panic? && steps[j].t == t)
  }

  lemma {:induction false} UnharmedOnTrack(decoded: Key -> Bytes, run: seq<State>, steps: seq<Step>, b: nat, i: nat,
                                           t: Tid)
    requires IsTrace(decoded, run, steps) && Unharmed(decoded, run, steps, b, i, t)
    requires steps[b].Begin? && steps[b].t == t
    ensures Lives(run, t, b + 1, i)
    ensures var c := run[i].calls[t];
            OnTrack(c) && c.pid == steps[b].p && c.key == steps[b].key && c.cached == steps[b].cached
    decreases i
  {
    hide IsTrace, Fails, Enabled, Apply;
    TakenAt(decoded, run, steps, i - 1);
    if i == b + 1 {
      BornAt(decoded, run[b], steps[b]);
      BornUndoomed(decoded, run[b], steps[b], t);
    } else {
      hide OnTrack;
      UnharmedOnTrack(decoded, run, steps, b, i - 1, t);
      StaysOnTrack(decoded, run[i - 1], steps[i - 1], t);
    }
  }

  /** A call that returned, none of whose steps failed or panicked, holds the whole decode of its key: mapped from the
      cache, or in memory when there is no cache directory. */
  lemma {:induction false} UnharmedCallsDeliver(decoded: Key -> Bytes, run: seq<State>, steps: seq<Step>, b: nat,
                                                i: nat, t: Tid)
    requires IsTrace(decoded, run, steps) && Unharmed(decoded, run, steps, b, i, t)
    requires steps[b].Begin? && steps[b].t == t && run[i].calls[t].pc.Returned?
    ensures var o := run[i].calls[t].pc.outcome;
            if steps[b].cached then
              o.Mapped? && o.ino in run[i].disk.inodes && run[i].disk.inodes[o.ino].bytes == decoded(steps[b].key)
            else o == Memory(decoded(steps[b].key))
  {
    UnharmedOnTrack(decoded, run, steps, b, i, t);
    TraceIsRun(decoded, run, steps);
    hide IsTrace, Unharmed, IsRun;
    DecodeCacheSafety.SuccessfulCallsWhole(decoded, run, i, t);
  }

  // ---------------------------------------------------------------- a valid file is used at once

  predicate OnFastPath(pc: Pc) {
    pc == Opening(false) || (pc.Returned? && (pc.outcome.Mapped? || pc.outcome.Failed?))
  }

  lemma {:induction false} FastPathStep(decoded: Key -> Bytes, s: State, step: Step, t: Tid)
    requires Enabled(decoded, s, step) && t in s.calls && t in Apply(decoded, s, step).calls
    requires OnFastPath(s.calls[t].pc) || (step == Check(t) && Valid(decoded, s.disk, s.calls[t].key))
    ensures OnFastPath(Apply(decoded, s, step).calls[t].pc)
  {
    if !IsOwn(step, t) { OthersLeave(decoded, s, step, t); }
    hide Valid;
  }

  /** A call that finds a valid file when it first looks never takes the lock and decodes nothing. */
  lemma {:induction false} ValidFileIsOpened(decoded: Key -> Bytes, run: seq<State>, steps: seq<Step>, b: nat, i: nat,
                                             t: Tid)
    requires IsTrace(decoded, run, steps) && b < i < |run| == |steps| + 1 && Lives(run, t, b, i)
    requires steps[b] == Check(t) && Valid(decoded, run[b].disk, run[b].calls[t].key)
    ensures OnFastPath(run[i].calls[t].pc)
    decreases i
  {
    hide IsTrace, Enabled, Apply, Valid, OnFastPath;
    TakenAt(decoded, run, steps, i - 1);
    if i > b + 1 { ValidFileIsOpened(decoded, run, steps, b, i - 1, t); }
    FastPathStep(decoded, run[i - 1], steps[i - 1], t);
  }

  // ---------------------------------------------------------------- progress

  /** How many steps of its own a call still has to take at most, apart from writing into its file. */
  function Rank(pc: Pc): nat {
    match pc
    case Checking => 13
    case Waiting => 12
    case Rechecking => 11
    case Preparing => 10
    case Creating(_) => 9
    case Reserving(_, _) => 8
    case Filling(_, _) => 7
    case Flushing(_, _) => 6
    case Renaming(_, _) => 5
    case Falling(_) => 4
    case Accepting => 3
    case Opening(_) => 2
    case Cleaning(_) => 1
    case InMemory => 1
    case Returned(_) => 0
  }

  /** Every step of a call takes it nearer its end, and no other step moves it. */
  lemma {:induction false} StepsDescend(decoded: Key -> Bytes, s: State, step: Step, t: Tid)
    requires Enabled(decoded, s, step) && t in s.calls && t in Apply(decoded, s, step).calls
    ensures IsOwn(step, t) && !step.Scribble? ==> Rank(Apply(decoded, s, step).calls[t].pc) < Rank(s.calls[t].pc)
    ensures !IsOwn(step, t) || step.Scribble? ==> Apply(decoded, s, step).calls[t] == s.calls[t]
  {
    hide Valid;
    if !IsOwn(step, t) { OthersLeave(decoded, s, step, t); }
  }

  /** The step a call can take, other than giving up in a panic. */
  function OwnStep(s: State, t: Tid): Step
    requires t in s.calls && !s.calls[t].pc.Returned?
  {
    match s.calls[t].pc
    case Checking => Check(t)
    case Waiting => Acquire(t)
    case Rechecking => Recheck(t)
    case InMemory => DecodeInMemory(t, true)
    case Preparing => Prepare(t, true)
    case Creating(_) => Create(t, false, 0)
    case Reserving(_, _) => Reserve(t, false, [])
    case Filling(_, _) => Decode(t, true)
    case Flushing(_, _) => Sync(t, true)
    case Renaming(_, _) => Rename(t, false)
    case Cleaning(_) => Clean(t, true)
    case Falling(_) => Fall(t, true)
    case Accepting => Accept(t)
    case Opening(_) => Open(t, false)
  }

  /** A call that does not wait for the lock of another can move. */
  lemma {:induction false} CallCanMove(decoded: Key -> Bytes, s: State, t: Tid)
    requires t in s.calls && CallOk(decoded, s, t) && !s.calls[t].pc.Returned?
    requires s.calls[t].pc == Waiting ==> s.procs[s.calls[t].pid].lock == None
    ensures Enabled(decoded, s, OwnStep(s, t)) && IsOwn(OwnStep(s, t), t)
  {
    hide Valid, Sound;
  }

  /** No deadlock: in every run, where a call has not returned, it or the call whose lock it waits for can move. */
  lemma {:induction false} NoDeadlock(decoded: Key -> Bytes, run: seq<State>, i: nat, t: Tid) returns (u: Tid)
    requires IsRun(decoded, run) && i < |run| && t in run[i].calls && !run[i].calls[t].pc.Returned?
    ensures u in run[i].calls && run[i].calls[u].pid == run[i].calls[t].pid && !run[i].calls[u].pc.Returned?
    ensures Enabled(decoded, run[i], OwnStep(run[i], u)) && IsOwn(OwnStep(run[i], u), u)
  {
    RunKeeps(decoded, run, i);
    var s := run[i];
    hide IsRun, WritersApart, OnceOk, DiskOk, FileOk, Enabled, OwnStep, IsOwn;
    assert CallOk(decoded, s, t);
    var lock := s.procs[s.calls[t].pid].lock;
    if s.calls[t].pc == Waiting && lock.Some? {
      u := lock.value;
      assert CallOk(decoded, s, u);
    } else {
      u := t;
    }
    CallCanMove(decoded, s, u);
  }
}
