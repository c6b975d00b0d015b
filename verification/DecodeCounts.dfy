/** How often a process decodes a key: every decode it starts is published, given up, or still running,
    and it starts a second one only after one was given up (crates/mmm-core/src/decoded.rs). */
module DecodeCounts {
  import opened DecodeCache
  import opened Options

  /** The process is decoding `k` into the cache right now. */
  predicate InFlight(s: State, p: Pid, k: Key)
    requires p in s.procs
  {
    var lock := s.procs[p].lock;
    lock.Some? && lock.value in s.calls && s.calls[lock.value].key == k && Attempting(s.calls[lock.value].pc)
  }

  predicate Balanced(s: State, p: Pid, k: Key)
    requires p in s.procs
  {
    var q := s.procs[p];
    q.started[k] == q.finished[k] + q.failed[k] + if InFlight(s, p, k) then 1 else 0
  }

  ghost predicate CountsOk(s: State) {
    forall p, k :: p in s.procs ==> Balanced(s, p, k)
  }

  /** What a step of one call adds to its process's account. */
  ghost predicate Accounted(p: Proc, c: Call, q: Proc, d: Call) {
    && d.key == c.key && d.pid == c.pid
    && forall k :: q.started[k] + p.finished[k] + p.failed[k] + (if k == c.key && Attempting(c.pc) then 1 else 0)
                == p.started[k] + q.finished[k] + q.failed[k] + (if k == c.key && Attempting(d.pc) then 1 else 0)
  }

  /** Call `t` moves from `c` to `d` and takes its process from `p` to `q`. */
  lemma {:induction false} MoveCounts(decoded: Key -> Bytes, s: State, r: State, t: Tid, d: Call, q: Proc)
    requires Inv(decoded, s) && CountsOk(s) && t in s.calls && s.calls[t].pid in s.procs
    requires r.calls == s.calls[t := d] && r.procs == s.procs[s.calls[t].pid := q]
    requires Accounted(s.procs[s.calls[t].pid], s.calls[t], q, d)
    requires q.lock == s.procs[s.calls[t].pid].lock
             || (s.procs[s.calls[t].pid].lock in {None, Some(t)} && q.lock in {None, Some(t)})
    requires Attempting(d.pc) ==> q.lock == Some(t)
    ensures CountsOk(r)
  {
    hide FileOk, DiskOk, OnceOk, WritersApart;
    var c := s.calls[t];
    assert CallOk(decoded, s, t);
    forall p, k | p in r.procs ensures Balanced(r, p, k) {
      assert Balanced(s, p, k);
      if p == c.pid && s.procs[p].lock.Some? && s.procs[p].lock.value != t {
        assert q.lock == s.procs[p].lock && !Attempting(c.pc) && !Attempting(d.pc);
      }
    }
  }

  /** Only the files, or other processes' calls, changed. */
  lemma {:induction false} SameCounts(s: State, r: State)
    requires CountsOk(s) && r.calls == s.calls && r.procs == s.procs
    ensures CountsOk(r)
  {
    forall p, k | p in r.procs ensures Balanced(r, p, k) { assert Balanced(s, p, k); }
  }

  lemma {:induction false} ReturnCounts(decoded: Key -> Bytes, s: State, r: State, t: Tid, o: Outcome)
    requires Inv(decoded, s) && CountsOk(s) && At(s, t)
    requires r.calls == s.calls[t := s.calls[t].(pc := Returned(o))]
    requires r.procs == s.procs[s.calls[t].pid := Released(s.procs[s.calls[t].pid], s.calls[t])]
    ensures CountsOk(r)
  {
    hide FileOk, DiskOk, OnceOk, WritersApart;
    assert CallOk(decoded, s, t);
    var c := s.calls[t];
    MoveCounts(decoded, s, r, t, c.(pc := Returned(o)), Released(s.procs[c.pid], c));
  }

  /** The call goes on, its process as it was or with one more decode published. */
  lemma {:induction false} GotoCounts(decoded: Key -> Bytes, s: State, r: State, t: Tid, pc: Pc)
    requires Inv(decoded, s) && CountsOk(s) && At(s, t) && r.calls == s.calls[t := s.calls[t].(pc := pc)]
    requires var p := s.procs[s.calls[t].pid];
             || (r.procs == s.procs && Attempting(pc) == Attempting(s.calls[t].pc))
             || (r.procs == s.procs[s.calls[t].pid := p.(finished := p.finished + multiset{s.calls[t].key})]
                 && Attempting(s.calls[t].pc) && !Attempting(pc))
    ensures CountsOk(r)
  {
    hide FileOk, DiskOk, OnceOk, WritersApart;
    assert CallOk(decoded, s, t);
    var c := s.calls[t];
    assert s.procs == s.procs[c.pid := s.procs[c.pid]];
    MoveCounts(decoded, s, r, t, c.(pc := pc), r.procs[c.pid]);
  }

  lemma {:induction false} LockOf(decoded: Key -> Bytes, s: State, t: Tid)
    requires Inv(decoded, s) && t in s.calls
    ensures s.calls[t].pid in s.procs && (s.procs[s.calls[t].pid].lock == Some(t) <==> Holds(s.calls[t].pc))
  {
    hide FileOk, DiskOk, OnceOk, WritersApart;
    assert CallOk(decoded, s, t);
  }

  lemma {:induction false} AcquireCounts(decoded: Key -> Bytes, s: State, t: Tid)
    requires Inv(decoded, s) && CountsOk(s) && Enabled(decoded, s, Acquire(t))
    ensures CountsOk(Apply(decoded, s, Acquire(t)))
  {
    hide Inv, CountsOk, Valid;
    LockOf(decoded, s, t);
    var r := Apply(decoded, s, Acquire(t));
    MoveCounts(decoded, s, r, t, r.calls[t], r.procs[s.calls[t].pid]);
  }

  lemma {:induction false} RecheckCounts(decoded: Key -> Bytes, s: State, t: Tid)
    requires Inv(decoded, s) && CountsOk(s) && Enabled(decoded, s, Recheck(t))
    ensures CountsOk(Apply(decoded, s, Recheck(t)))
  {
    hide Inv, CountsOk, Valid;
    LockOf(decoded, s, t);
    var r := Apply(decoded, s, Recheck(t));
    if r.calls[t].pc == Preparing {
      MoveCounts(decoded, s, r, t, r.calls[t], r.procs[s.calls[t].pid]);
    } else {
      GotoCounts(decoded, s, r, t, Opening(true));
    }
  }

  lemma {:induction false} PrepareCounts(decoded: Key -> Bytes, s: State, t: Tid, ok: bool)
    requires Inv(decoded, s) && CountsOk(s) && Enabled(decoded, s, Prepare(t, ok))
    ensures CountsOk(Apply(decoded, s, Prepare(t, ok)))
  {
    hide Inv, CountsOk, Valid;
    LockOf(decoded, s, t);
    var r := Apply(decoded, s, Prepare(t, ok));
    if ok {
      MoveCounts(decoded, s, r, t, r.calls[t], r.procs[s.calls[t].pid]);
    } else {
      ReturnCounts(decoded, s, r, t, Failed);
    }
  }

  lemma {:induction false} QuietStepCounts(decoded: Key -> Bytes, s: State, step: Step)
    requires Inv(decoded, s) && CountsOk(s) && Enabled(decoded, s, step) && (step.Check? || step.Scribble?)
    ensures CountsOk(Apply(decoded, s, step))
  {
    hide Inv, CountsOk, Valid;
    var r := Apply(decoded, s, step);
    if step.Check? {
      GotoCounts(decoded, s, r, step.t, r.calls[step.t].pc);
    } else {
      SameCounts(s, r);
    }
  }

  lemma {:induction false} WriteStepCounts(decoded: Key -> Bytes, s: State, step: Step)
    requires Inv(decoded, s) && CountsOk(s) && Enabled(decoded, s, step)
    requires step.Create? || step.Reserve? || step.Decode? || step.Sync? || step.Rename? || step.Fall?
    ensures CountsOk(Apply(decoded, s, step))
  {
    hide FileOk, DiskOk, OnceOk, WritersApart, Inv, CountsOk;
    var t, r := step.t, Apply(decoded, s, step);
    GotoCounts(decoded, s, r, t, r.calls[t].pc);
  }

  lemma {:induction false} EndStepCounts(decoded: Key -> Bytes, s: State, step: Step)
    requires Inv(decoded, s) && CountsOk(s) && Enabled(decoded, s, step)
    requires step.DecodeInMemory? || step.Clean? || step.Accept? || step.Open? || step.Panic?
    ensures CountsOk(Apply(decoded, s, step))
  {
    hide FileOk, DiskOk, OnceOk, WritersApart, Valid, Inv, CountsOk;
    var t, r := step.t, Apply(decoded, s, step);
    if r.calls[t].pc.Returned? {
      ReturnCounts(decoded, s, r, t, r.calls[t].pc.outcome);
    } else {
      GotoCounts(decoded, s, r, t, r.calls[t].pc);
    }
  }

  lemma {:induction false} WorldStepCounts(decoded: Key -> Bytes, s: State, step: Step)
    requires Inv(decoded, s) && CountsOk(s) && Enabled(decoded, s, step)
    requires step.Spawn? || step.Crash? || step.PowerCut? || step.Remove? || step.Begin? || step.Retire?
    ensures CountsOk(Apply(decoded, s, step))
  {
    hide FileOk, DiskOk, OnceOk, WritersApart;
    var r := Apply(decoded, s, step);
    forall p, k | p in r.procs ensures Balanced(r, p, k) {
      if p in s.procs { assert Balanced(s, p, k); }
      if step.Retire? { assert CallOk(decoded, s, step.t); }
    }
  }

  lemma {:induction false} StepCounts(decoded: Key -> Bytes, s: State, step: Step)
    requires Inv(decoded, s) && CountsOk(s) && Enabled(decoded, s, step)
    ensures CountsOk(Apply(decoded, s, step))
  {
    hide Inv, CountsOk, Enabled, Apply;
    if step.Check? || step.Scribble? {
      QuietStepCounts(decoded, s, step);
    } else if step.Acquire? {
      AcquireCounts(decoded, s, step.t);
    } else if step.Recheck? {
      RecheckCounts(decoded, s, step.t);
    } else if step.Prepare? {
      PrepareCounts(decoded, s, step.t, step.ok);
    } else if step.Create? || step.Reserve? || step.Decode? || step.Sync? || step.Rename? || step.Fall? {
      WriteStepCounts(decoded, s, step);
    } else if step.DecodeInMemory? || step.Clean? || step.Accept? || step.Open? || step.Panic? {
      EndStepCounts(decoded, s, step);
    } else {
      WorldStepCounts(decoded, s, step);
    }
  }

  lemma {:induction false} RunCounts(decoded: Key -> Bytes, run: seq<State>, i: nat)
    requires IsRun(decoded, run) && i < |run|
    ensures CountsOk(run[i])
  {
    if i > 0 {
      hide Inv, CountsOk, Enabled, Apply;
      RunCounts(decoded, run, i - 1);
      RunKeeps(decoded, run, i - 1);
      assert Next(decoded, run[i - 1], run[i]);
      var step :| Enabled(decoded, run[i - 1], step) && run[i] == Apply(decoded, run[i - 1], step);
      StepCounts(decoded, run[i - 1], step);
    }
  }

  /** Unless someone outside removes its cache file, a process has started one decode of a key more than it
      gave up while one runs or once one is published, and otherwise exactly as many: it decodes the key a
      second time only after an attempt that failed or panicked. */
  lemma {:induction false} DecodedAgainOnlyAfterFailure(decoded: Key -> Bytes, run: seq<State>, i: nat, p: Pid, k: Key)
    requires IsRun(decoded, run) && i < |run| && p in run[i].procs && k !in run[i].removed
    ensures var q := run[i].procs[p];
            q.started[k] == q.failed[k] + if InFlight(run[i], p, k) || q.finished[k] == 1 then 1 else 0
    ensures run[i].procs[p].started[k] > 1 ==> run[i].procs[p].failed[k] > 0
  {
    hide FileOk, DiskOk, WritersApart;
    RunCounts(decoded, run, i);
    RunKeeps(decoded, run, i);
    var s := run[i];
    assert Balanced(s, p, k);
    if InFlight(s, p, k) {
      assert CallOk(decoded, s, s.procs[p].lock.value);
    }
  }

  /** Call `t` is about to find no cache file, and so to start a decode. */
  predicate Starts(decoded: Key -> Bytes, s: State, t: Tid) {
    Enabled(decoded, s, Recheck(t)) && !Valid(decoded, s.disk, s.calls[t].key)
  }

  /** A call that holds the lock and does not decode keeps its process from decoding. */
  lemma {:induction false} NoneInFlight(decoded: Key -> Bytes, s: State, t: Tid)
    requires Inv(decoded, s) && At(s, t) && s.calls[t].pc == Rechecking
    ensures !InFlight(s, s.calls[t].pid, s.calls[t].key)
  {
    hide FileOk, DiskOk, OnceOk, WritersApart;
    assert CallOk(decoded, s, t);
  }

  /** Where a decode starts, every decode of the key the process started before was given up and none
      published: the start is a repeated one exactly when an earlier one was given up. */
  lemma {:induction false} StartsAgainIffGivenUp(decoded: Key -> Bytes, run: seq<State>, i: nat, t: Tid)
    requires IsRun(decoded, run) && i < |run| && Starts(decoded, run[i], t) && run[i].calls[t].key !in run[i].removed
    ensures var k, q := run[i].calls[t].key, run[i].procs[run[i].calls[t].pid];
            && q.started[k] == q.failed[k] && q.finished[k] == 0
            && var r := Apply(decoded, run[i], Recheck(t)).procs[run[i].calls[t].pid];
               r.started[k] == q.started[k] + 1 && (r.started[k] > 1 <==> q.failed[k] > 0)
  {
    hide FileOk, DiskOk, WritersApart, IsRun;
    RunCounts(decoded, run, i);
    RunKeeps(decoded, run, i);
    NoneInFlight(decoded, run[i], t);
    assert Balanced(run[i], run[i].calls[t].pid, run[i].calls[t].key);
  }

  const NOTHING: multiset<Key> := multiset{}

  /** One process, whose first call has written a decode of `key` that is not yet published. */
  function Unpublished(key: Key): State {
    State(Disk(map[Tmp(key, 0, 0) := 0], map[0 := File([0], true)]),
          map[0 := Call(0, key, true, Renaming(Tmp(key, 0, 0), 0))],
          map[0 := Proc(Some(0), 1, multiset{key}, NOTHING, NOTHING)], {})
  }

  /** The same process, its first call locked and about to look for the cache file again. */
  function Locked(key: Key): State {
    State(Disk(map[], map[]), map[0 := Call(0, key, true, Rechecking)],
          map[0 := Proc(Some(0), 0, NOTHING, NOTHING, NOTHING)], {})
  }

  /** The same process, its first call with an empty temporary file. */
  function Created(key: Key): State {
    State(Disk(map[Tmp(key, 0, 0) := 0], map[0 := File([], false)]),
          map[0 := Call(0, key, true, Reserving(Tmp(key, 0, 0), 0))],
          map[0 := Proc(Some(0), 1, multiset{key}, NOTHING, NOTHING)], {})
  }

  /** The same process once the rename has failed. */
  function GivenUp(key: Key): State {
    State(Disk(map[], map[0 := File([0], true)]), map[0 := Call(0, key, true, Returned(Failed))],
          map[0 := Proc(None, 1, multiset{key}, NOTHING, multiset{key})], {})
  }

  lemma {:induction false} Starting(decoded: Key -> Bytes, key: Key) returns (run: seq<State>)
    requires decoded(key) == [0]
    ensures IsRun(decoded, run) && run[|run| - 1] == Locked(key)
  {
    run := [State(Disk(map[], map[]), map[], map[], {})];
    run := Take(decoded, run, Spawn(0));
    run := Take(decoded, run, Begin(0, 0, key, true));
    run := Take(decoded, run, Check(0));
    run := Take(decoded, run, Acquire(0));
    hide IsRun;
    assert run[|run| - 1] == Locked(key);
  }

  lemma {:induction false} Creates(decoded: Key -> Bytes, run0: seq<State>, key: Key) returns (run: seq<State>)
    requires decoded(key) == [0] && IsRun(decoded, run0) && run0[|run0| - 1] == Locked(key)
    ensures IsRun(decoded, run) && run[|run| - 1] == Created(key)
  {
    hide Init, Next;
    run := Take(decoded, run0, Recheck(0));
    run := Take(decoded, run, Prepare(0, true));
    run := Take(decoded, run, Create(0, true, 0));
    hide IsRun;
    SameState(run[|run| - 1], Created(key));
  }

  lemma {:induction false} Writes(decoded: Key -> Bytes, run0: seq<State>, key: Key) returns (run: seq<State>)
    requires decoded(key) == [0] && IsRun(decoded, run0) && run0[|run0| - 1] == Created(key)
    ensures IsRun(decoded, run) && run[|run| - 1] == Unpublished(key)
  {
    hide Init, Next;
    run := Take(decoded, run0, Reserve(0, true, [0]));
    run := Take(decoded, run, Decode(0, true));
    run := Take(decoded, run, Sync(0, true));
    hide IsRun;
    SameState(run[|run| - 1], Unpublished(key));
  }

  lemma {:induction false} Fails(decoded: Key -> Bytes, run0: seq<State>, key: Key) returns (run: seq<State>)
    requires decoded(key) == [0] && IsRun(decoded, run0) && run0[|run0| - 1] == Unpublished(key)
    ensures IsRun(decoded, run) && run[|run| - 1] == GivenUp(key)
  {
    hide Init, Next;
    run := Take(decoded, run0, Rename(0, false));
    run := Take(decoded, run, Fall(0, true));
    run := Take(decoded, run, Accept(0));
    hide IsRun;
    SameState(run[|run| - 1], GivenUp(key));
  }

  lemma {:induction false} SameState(s: State, r: State)
    requires s.disk.dir == r.disk.dir && s.disk.inodes == r.disk.inodes && s.calls == r.calls && s.removed == r.removed
    requires s.procs.Keys == r.procs.Keys == {0}
    requires s.procs[0] == r.procs[0]
    ensures s == r
  {
    assert s.procs == r.procs;
  }

  /** A decode that cannot be published is repeated: the rename fails, no valid file is there, so the call
      fails, and the next call of the same process decodes again, though nobody interfered. */
  lemma {:induction false} FailedRenameDecodesAgain(decoded: Key -> Bytes, key: Key) returns (run: seq<State>)
    requires decoded(key) == [0]
    ensures IsRun(decoded, run)
    ensures var s := run[|run| - 1]; s.removed == {} && 0 in s.procs && s.procs[0].started[key] == 2
  {
    hide Init, Next;
    run := Starting(decoded, key);
    run := Creates(decoded, run, key);
    run := Writes(decoded, run, key);
    run := Fails(decoded, run, key);
    run := Take(decoded, run, Begin(1, 0, key, true));
    run := Take(decoded, run, Check(1));
    run := Take(decoded, run, Acquire(1));
    run := Take(decoded, run, Recheck(1));
  }

  lemma {:induction false} Take(decoded: Key -> Bytes, run: seq<State>, step: Step) returns (more: seq<State>)
    requires IsRun(decoded, run) && Enabled(decoded, run[|run| - 1], step)
    ensures IsRun(decoded, more) && |more| == |run| + 1 && more[0] == run[0]
    ensures more[|more| - 1] == Apply(decoded, run[|run| - 1], step)
  {
    hide Enabled, Apply, Init;
    var next := Apply(decoded, run[|run| - 1], step);
    more := run + [next];
    forall i | 0 <= i < |more| - 1 ensures Next(decoded, more[i], more[i + 1]) {
      if i == |run| - 1 {
        assert more[i] == run[i] && more[i + 1] == next;
      } else {
        assert more[i] == run[i] && more[i + 1] == run[i + 1];
      }
    }
  }
}
