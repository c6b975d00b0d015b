/** What the answers of the serve loop say: the k-th answer is the one to the k-th request, and a band is reported
    filled exactly when the application filled it (integration/pixinsight/host/mmm_host.cpp, `Host::run`). */
module ServeAnswers {
  import opened Frames
  import opened LittleEndian
  import opened Options
  import opened Serve
  import opened ServeSafety
  import opened Slots
  import HostFrames

  /** The call a frame asks for. */
  ghost predicate AsksFor(cfg: Config, f: Frame, c: OutCall) {
    if f.BandRequest? then c == FillCall(f.panel, f.y0, f.y1, f.slot) && Accepts(cfg, f)
    else if f.Begin? then c == BeginCall(f.w, f.h, f.ch)
    else f.OutputBand? && c.BandCall? && c.y0 == f.y0 && c.rows == f.rows && c.slot == f.slot
  }

  ghost predicate Accepts(cfg: Config, f: Frame) {
    f.BandRequest? && CheckRequest(cfg.layout, cfg.panels, f.panel, f.y0, f.y1, f.slot) == Fill
  }

  /** Every call was asked for by a frame received, no frame asks twice, and every accepted band request got its
      fill. */
  ghost predicate CausesOk(cfg: Config, read: seq<Frame>, a: App) {
    && |a.causes| == |a.out|
    && (forall i :: 0 <= i < |a.out| ==> a.causes[i].frame < |read| && AsksFor(cfg, read[a.causes[i].frame], a.out[i]))
    && (forall i, j :: 0 <= i < j < |a.out| ==> a.causes[i].frame < a.causes[j].frame)
    && (forall at :: 0 <= at < |read| && Accepts(cfg, read[at]) ==> Called(a, at))
  }

  ghost predicate Called(a: App, at: nat) {
    exists i :: 0 <= i < |a.causes| && a.causes[i].frame == at
  }

  /** The call a frame caused reported success. */
  ghost predicate Succeeded(a: App, at: nat) {
    exists i :: 0 <= i < |a.causes| && a.causes[i] == Cause(at, true)
  }

  /** Where the requests are among the frames received, in order. */
  function Asked(read: seq<Frame>): (r: seq<nat>)
    ensures forall k :: 0 <= k < |r| ==> r[k] < |read|
    ensures |r| == |RequestIds(read)|
  {
    if read == [] then []
    else Asked(read[..|read| - 1]) + if IsRequest(read[|read| - 1]) then [|read| - 1] else []
  }

  /** The answer the request at `at` deserves: kind, id and slot are its own; a band is reported filled, with status
      zero, exactly when the application was told to fill it and did. */
  ghost predicate Answers(read: seq<Frame>, a: App, at: nat, reply: HostFrame) {
    at < |read| &&
    if read[at].BandRequest? then
      && reply.BandReply? && reply.id == read[at].id && reply.slot == read[at].slot
      && reply.status == if Succeeded(a, at) then 0 else 1
    else read[at].OutputBand? && reply == OutputAck(read[at].id) && Succeeded(a, at)
  }

  /** The answers given, and the one about to be. */
  function Given(pc: Pc, talk: Talk): seq<HostFrame> {
    talk.answered + if pc.Replying? then [pc.reply] else []
  }

  ghost predicate AnswersOk(pc: Pc, talk: Talk, a: App) {
    var asked, given := Asked(talk.read), Given(pc, talk);
    && |given| <= |asked| && (!Stopped(pc) ==> |given| == |asked|)
    && forall k :: 0 <= k < |given| ==> Answers(talk.read, a, asked[k], given[k])
  }

  ghost predicate Matched(cfg: Config, s: State) {
    CausesOk(cfg, s.talk.read, s.app) && AnswersOk(s.pc, s.talk, s.app)
  }

  // ---------------------------------------------------------------- kept by every step

  /** Nothing was read or told: answers may only have been dropped. */
  lemma {:induction false} Unheard(cfg: Config, s: State, r: State)
    requires Matched(cfg, s) && r.talk.read == s.talk.read && r.app == s.app
    requires Given(r.pc, r.talk) <= Given(s.pc, s.talk)
    requires !Stopped(r.pc) ==> !Stopped(s.pc) && Given(r.pc, r.talk) == Given(s.pc, s.talk)
    ensures Matched(cfg, r)
  {
    hide Given, Answers, CausesOk, Asked;
  }

  lemma {:induction false} AskedMore(read: seq<Frame>, f: Frame)
    ensures Asked(read + [f]) == Asked(read) + if IsRequest(f) then [|read|] else []
  {
    assert (read + [f])[..|read|] == read;
  }

  /** What earlier answers rest on stays: later calls have later causes. */
  lemma {:induction false} AnswerStands(read: seq<Frame>, f: Frame, a: App, b: App, at: nat, reply: HostFrame)
    requires Answers(read, a, at, reply) && a.causes <= b.causes
    requires forall i :: |a.causes| <= i < |b.causes| ==> b.causes[i].frame == |read|
    ensures Answers(read + [f], b, at, reply)
  {
    if Succeeded(a, at) {
      var i :| 0 <= i < |a.causes| && a.causes[i] == Cause(at, true);
      assert b.causes[i] == Cause(at, true);
    }
    if Succeeded(b, at) {
      var i :| 0 <= i < |b.causes| && b.causes[i] == Cause(at, true);
      assert i < |a.causes|;
    }
  }

  /** One more frame, which caused at most one call. */
  lemma {:induction false} CausesGrow(cfg: Config, read: seq<Frame>, f: Frame, a: App, b: App)
    requires CausesOk(cfg, read, a)
    requires || (b.out == a.out && b.causes == a.causes && !Accepts(cfg, f))
             || (|b.out| == |a.out| + 1 == |b.causes| && a.out <= b.out && a.causes <= b.causes
                 && b.causes[|a.out|].frame == |read| && AsksFor(cfg, f, b.out[|a.out|]))
    ensures CausesOk(cfg, read + [f], b)
  {
    hide AsksFor, Accepts;
    var more := read + [f];
    forall i | 0 <= i < |b.out| ensures b.causes[i].frame < |more| && AsksFor(cfg, more[b.causes[i].frame], b.out[i]) {
      if i < |a.out| { assert b.out[i] == a.out[i] && b.causes[i] == a.causes[i]; }
    }
    forall i, j | 0 <= i < j < |b.out| ensures b.causes[i].frame < b.causes[j].frame {
      assert i < |a.out| && b.causes[i] == a.causes[i];
      if j < |a.out| { assert b.causes[j] == a.causes[j]; }
    }
    forall at | 0 <= at < |more| && Accepts(cfg, more[at]) ensures Called(b, at) {
      if at < |read| {
        assert more[at] == read[at] && Called(a, at);
        var i :| 0 <= i < |a.causes| && a.causes[i].frame == at;
        assert b.causes[i].frame == at;
      }
    }
  }

  /** What handling a frame does to the calls and the answer owed. */
  lemma {:induction false} HandleTells(cfg: Config, s: State, f: Frame, ok: bool, throws: bool)
    requires s.pc == Reading && |s.app.causes| == |s.app.out|
    ensures var r, n := Handle(cfg, s, f, ok, throws), |s.app.out|;
            && r.talk == Talk(s.talk.read + [f], s.talk.answered)
            && (|| (r.app.out == s.app.out && r.app.causes == s.app.causes && !Accepts(cfg, f))
                || (|r.app.out| == n + 1 == |r.app.causes| && s.app.out <= r.app.out && s.app.causes <= r.app.causes
                    && r.app.causes[n].frame == |s.talk.read| && AsksFor(cfg, f, r.app.out[n])))
            && (r.pc.Replying? ==> IsRequest(f))
            && (IsRequest(f) && !r.pc.Replying? ==> Stopped(r.pc))
  {
    hide CheckRequest, TakesBand, AcceptsBegin;
  }

  /** The answer owed to the frame just read. */
  lemma {:induction false} HandleAnswers(cfg: Config, s: State, f: Frame, ok: bool, throws: bool)
    requires s.pc == Reading && CausesOk(cfg, s.talk.read, s.app)
    ensures var r := Handle(cfg, s, f, ok, throws);
            r.pc.Replying? ==> Answers(r.talk.read, r.app, |s.talk.read|, r.pc.reply)
  {
    var r, n, at := Handle(cfg, s, f, ok, throws), |s.app.out|, |s.talk.read|;
    hide CheckRequest, TakesBand, AcceptsBegin;
    if r.pc.Replying? {
      if |r.app.out| > n { assert r.app.causes[n].frame == at; }
      forall i | 0 <= i < |r.app.causes| && r.app.causes[i].frame == at ensures i == n {}
    }
  }

  lemma {:induction false} ReceiveMatches(cfg: Config, s: State, f: Frame, ok: bool, throws: bool)
    requires s.pc == Reading && Matched(cfg, s)
    ensures Matched(cfg, Handle(cfg, s, f, ok, throws))
  {
    var r, read := Handle(cfg, s, f, ok, throws), s.talk.read;
    HandleTells(cfg, s, f, ok, throws);
    HandleAnswers(cfg, s, f, ok, throws);
    hide Handle, AsksFor;
    CausesGrow(cfg, read, f, s.app, r.app);
    AskedMore(read, f);
    var asked, given := Asked(r.talk.read), Given(r.pc, r.talk);
    hide CausesOk, Asked;
    forall k | 0 <= k < |given| ensures Answers(r.talk.read, r.app, asked[k], given[k]) {
      if k < |s.talk.answered| {
        assert Answers(read, s.app, Asked(read)[k], Given(s.pc, s.talk)[k]);
        AnswerStands(read, f, s.app, r.app, Asked(read)[k], s.talk.answered[k]);
      }
    }
  }

  lemma {:induction false} StepMatches(cfg: Config, s: State, step: Step)
    requires Inv(cfg, s) && Matched(cfg, s) && Enabled(cfg, s, step)
    ensures Matched(cfg, Apply(cfg, s, step))
  {
    if step.Receive? {
      hide Matched, Inv, Handle;
      ReceiveMatches(cfg, s, step.frame, step.ok, step.throws);
    } else {
      QuietMatches(cfg, s, step);
    }
  }

  lemma {:induction false} QuietMatches(cfg: Config, s: State, step: Step)
    requires Inv(cfg, s) && Matched(cfg, s) && Enabled(cfg, s, step) && !step.Receive?
    ensures Matched(cfg, Apply(cfg, s, step))
  {
    hide Matched, WireOk, FramesOk, OrderOk, ReadOk, OutOk, EndOk, CancelOk, Bytes, Handle;
    var r := Apply(cfg, s, step);
    assert r.talk.read == s.talk.read && r.app == s.app;
    Unheard(cfg, s, r);
  }

  lemma {:induction false} StepTaken(cfg: Config, run: seq<State>, i: nat) returns (step: Step)
    requires IsRun(cfg, run) && 0 < i < |run|
    ensures Enabled(cfg, run[i - 1], step) && run[i] == Apply(cfg, run[i - 1], step)
  {
    hide Enabled, Apply, Initial;
    assert Next(cfg, run[i - 1], run[i]);
    step :| Enabled(cfg, run[i - 1], step) && run[i] == Apply(cfg, run[i - 1], step);
  }

  lemma {:induction false} StartMatches(cfg: Config, run: seq<State>)
    requires IsRun(cfg, run)
    ensures Matched(cfg, run[0])
  {
    hide Next;
  }

  lemma {:induction false} RunMatches(cfg: Config, run: seq<State>, i: nat)
    requires IsRun(cfg, run) && i < |run|
    ensures Matched(cfg, run[i])
  {
    hide IsRun, Matched, Inv, Enabled, Apply;
    if i == 0 {
      StartMatches(cfg, run);
    } else {
      RunMatches(cfg, run, i - 1);
      RunKeeps(cfg, run, i - 1);
      var step := StepTaken(cfg, run, i);
      StepMatches(cfg, run[i - 1], step);
    }
  }

  /** In every run the k-th answer is the one the k-th request deserves. */
  lemma {:induction false} KthAnswersKth(cfg: Config, run: seq<State>, i: nat, k: nat)
    requires IsRun(cfg, run) && i < |run| && k < |run[i].talk.answered|
    ensures var s := run[i];
            k < |Asked(s.talk.read)| && Answers(s.talk.read, s.app, Asked(s.talk.read)[k], s.talk.answered[k])
  {
    RunMatches(cfg, run, i);
    var s := run[i];
    assert Given(s.pc, s.talk)[k] == s.talk.answered[k];
    hide Answers, CausesOk, Asked;
  }

  /** The worker, reading its stdin by its own rules, finds every frame as the host meant it. */
  lemma {:induction false} WorkerReadsAnswers(cfg: Config, init: Text -> Option<HostFrame>, run: seq<State>, i: nat,
                                              k: nat)
    requires IsRun(cfg, run) && i < |run| && run[i].wire.pen.Free? && |cfg.init| < Limit(4)
    requires k < |run[i].wire.frames| && !run[i].wire.frames[k].Init?
    requires var f := run[i].wire.frames[k]; f.BandReply? ==> f.id < Limit(4) && f.slot < Limit(4)
    ensures var sent := Cut(run[i].wire.stdin).0;
            k < |sent| && HostFrames.HostMeaning(init, sent[k].0, sent[k].1) == Some(run[i].wire.frames[k])
  {
    hide IsRun, Limit, Cut, HostFrames.HostMeaning;
    WorkerSeesFrames(cfg, run, i);
    HostFrames.HostFramesReadBack(init, run[i].wire.frames[k]);
  }

  /** In every run the application is called for the frames received, in their order and once each, and every
      accepted band request is passed on. */
  lemma {:induction false} CallsAreAskedFor(cfg: Config, run: seq<State>, i: nat)
    requires IsRun(cfg, run) && i < |run|
    ensures CausesOk(cfg, run[i].talk.read, run[i].app)
  {
    RunMatches(cfg, run, i);
  }
}
