/** The decode cache as a state machine: threads of several processes share one directory, any process
    may crash and the power may fail at any step (crates/mmm-core/src/decoded.rs). A call decodes into
    a uniquely named temporary file and publishes it by renaming. */
module DecodeCache {
  import opened Options

  type Key = nat
  type Pid = nat
  type Tid = nat
  type Ino = nat
  type Bytes = seq<bv8>

  /** What the directory holds: `<key>.f32` and `<key>.<pid>.<counter>.tmp`. */
  datatype Name = Cache(key: Key) | Tmp(owner: Key, pid: Pid, counter: nat)

  /** A file's contents, and whether they would survive a power cut. */
  datatype File = File(bytes: Bytes, durable: bool)

  datatype Outcome = Mapped(ino: Ino) | Memory(bytes: Bytes) | Failed | Panicked

  /** Where a call stands. From `Rechecking` to `Accepting`, and in a locked `Opening`, it holds its
      process's decode lock. */
  datatype Pc =
    | Checking
    | Waiting
    | Rechecking
    | InMemory
    | Preparing
    | Creating(tmp: Name)
    | Reserving(tmp: Name, ino: Ino)
    | Filling(tmp: Name, ino: Ino)
    | Flushing(tmp: Name, ino: Ino)
    | Renaming(tmp: Name, ino: Ino)
    | Cleaning(tmp: Name)
    | Falling(tmp: Name)
    | Accepting
    | Opening(locked: bool)
    | Returned(outcome: Outcome)

  /** One call of `decoded_planes_in`; `cached` says whether there is a cache directory. */
  datatype Call = Call(pid: Pid, key: Key, cached: bool, pc: Pc)

  /** One live process: who holds its lock, its temporary-name counter, and the decodes into the cache it
      started, published, and gave up. */
  datatype Proc = Proc(lock: Option<Tid>, counter: nat, started: multiset<Key>, finished: multiset<Key>,
                       failed: multiset<Key>)

  datatype Disk = Disk(dir: map<Name, Ino>, inodes: map<Ino, File>)

  /** `removed` remembers whose cache files somebody outside deleted. */
  datatype State = State(disk: Disk, calls: map<Tid, Call>, procs: map<Pid, Proc>, removed: set<Key>)

  datatype Step =
    | Spawn(p: Pid)
    | Crash(p: Pid)
    | PowerCut(survivors: map<Ino, File>, lost: set<Name>)
    | Remove(name: Name)
    | Begin(t: Tid, p: Pid, key: Key, cached: bool)
    | Check(t: Tid)
    | Acquire(t: Tid)
    | Recheck(t: Tid)
    | DecodeInMemory(t: Tid, ok: bool)
    | Prepare(t: Tid, ok: bool)
    | Create(t: Tid, ok: bool, ino: Ino)
    | Reserve(t: Tid, ok: bool, bytes: Bytes)
    | Scribble(t: Tid, bytes: Bytes)
    | Decode(t: Tid, ok: bool)
    | Sync(t: Tid, ok: bool)
    | Clean(t: Tid, gone: bool)
    | Rename(t: Tid, ok: bool)
    | Fall(t: Tid, gone: bool)
    | Accept(t: Tid)
    | Open(t: Tid, ok: bool)
    | Panic(t: Tid)
    | Retire(t: Tid)

  // ---------------------------------------------------------------- the steps

  /** The cache file exists with the expected length: the source's `valid`. */
  predicate Valid(decoded: Key -> Bytes, d: Disk, k: Key) {
    Cache(k) in d.dir && d.dir[Cache(k)] in d.inodes && |d.inodes[d.dir[Cache(k)]].bytes| == |decoded(k)|
  }

  predicate Holds(pc: Pc) {
    match pc
    case Checking | Waiting | Returned(_) => false
    case Opening(locked) => locked
    case _ => true
  }

  /** The call's next program counter with everything else unchanged. */
  function Goto(s: State, t: Tid, pc: Pc): State
    requires t in s.calls
  {
    s.(calls := s.calls[t := s.calls[t].(pc := pc)])
  }

  /** Decoding, and not yet published. */
  predicate Decoding(pc: Pc) {
    match pc
    case Checking | Waiting | Rechecking | Opening(_) | Returned(_) => false
    case _ => true
  }

  /** Decoding into the cache. */
  predicate Attempting(pc: Pc) {
    Decoding(pc) && !pc.InMemory?
  }

  /** The process once the call is over: its lock is free, and a decode not published was given up. */
  function Released(p: Proc, c: Call): Proc {
    var q := if Holds(c.pc) then p.(lock := None) else p;
    if Attempting(c.pc) then q.(failed := q.failed + multiset{c.key}) else q
  }

  /** Return, dropping the lock if it is held. */
  function Return(s: State, t: Tid, o: Outcome): State
    requires t in s.calls && s.calls[t].pid in s.procs
  {
    var c := s.calls[t];
    Goto(s, t, Returned(o)).(procs := s.procs[c.pid := Released(s.procs[c.pid], c)])
  }

  function Publish(s: State, t: Tid): State
    requires t in s.calls && s.calls[t].pid in s.procs
  {
    var c := s.calls[t];
    var p := s.procs[c.pid];
    Goto(s, t, Opening(true)).(procs := s.procs[c.pid := p.(finished := p.finished + multiset{c.key})])
  }

  function Unlink(s: State, n: Name): State {
    s.(disk := s.disk.(dir := s.disk.dir - {n}))
  }

  /** The call is at `pc` in a live process. */
  predicate At(s: State, t: Tid) {
    t in s.calls && s.calls[t].pid in s.procs
  }

  predicate Enabled(decoded: Key -> Bytes, s: State, step: Step) {
    match step
    case Spawn(p) => p !in s.procs
    case Crash(p) => p in s.procs
    case PowerCut(survivors, lost) =>
      s.disk.inodes.Keys == survivors.Keys
          && forall i :: i in s.disk.inodes && s.disk.inodes[i].durable ==> survivors[i] == s.disk.inodes[i]
    case Remove(name) => true
    case Begin(t, p, key, cached) => p in s.procs && t !in s.calls
    case Check(t) => At(s, t) && s.calls[t].pc == Checking
    case Acquire(t) => At(s, t) && s.calls[t].pc == Waiting && s.procs[s.calls[t].pid].lock == None
    case Recheck(t) => At(s, t) && s.calls[t].pc == Rechecking
    case DecodeInMemory(t, ok) => At(s, t) && s.calls[t].pc == InMemory
    case Prepare(t, ok) => At(s, t) && s.calls[t].pc == Preparing
    case Create(t, ok, ino) =>
      At(s, t) && s.calls[t].pc.Creating? && (ok ==> s.calls[t].pc.tmp !in s.disk.dir && ino !in s.disk.inodes)
    case Reserve(t, ok, bytes) =>
      && At(s, t) && s.calls[t].pc.Reserving? && s.calls[t].pc.ino in s.disk.inodes
      && (ok ==> |bytes| == |decoded(s.calls[t].key)|)
    case Scribble(t, bytes) =>
      && At(s, t) && s.calls[t].pc.Filling? && s.calls[t].pc.ino in s.disk.inodes
      && |bytes| == |s.disk.inodes[s.calls[t].pc.ino].bytes|
    case Decode(t, ok) => At(s, t) && s.calls[t].pc.Filling? && s.calls[t].pc.ino in s.disk.inodes
    case Sync(t, ok) => At(s, t) && s.calls[t].pc.Flushing? && s.calls[t].pc.ino in s.disk.inodes
    case Clean(t, gone) => At(s, t) && s.calls[t].pc.Cleaning?
    case Rename(t, ok) => At(s, t) && s.calls[t].pc.Renaming? && (ok ==> s.calls[t].pc.tmp in s.disk.dir)
    case Fall(t, gone) => At(s, t) && s.calls[t].pc.Falling?
    case Accept(t) => At(s, t) && s.calls[t].pc == Accepting
    case Open(t, ok) => At(s, t) && s.calls[t].pc.Opening? && (ok ==> Cache(s.calls[t].key) in s.disk.dir)
    case Panic(t) => At(s, t) && Holds(s.calls[t].pc)
    case Retire(t) => At(s, t) && s.calls[t].pc.Returned?
  }

  function Write(s: State, ino: Ino, f: File): State {
    s.(disk := s.disk.(inodes := s.disk.inodes[ino := f]))
  }

  function Apply(decoded: Key -> Bytes, s: State, step: Step): State
    requires Enabled(decoded, s, step)
  {
    match step
    case Spawn(p) => s.(procs := s.procs[p := Proc(None, 0, multiset{}, multiset{}, multiset{})])
    case Crash(p) =>
      s.(procs := s.procs - {p}, calls := map t | t in s.calls && s.calls[t].pid != p :: s.calls[t])
    case PowerCut(survivors, lost) =>
      s.(disk := Disk(s.disk.dir - lost, survivors), calls := map[], procs := map[])
    case Remove(name) =>
      Unlink(s, name).(removed := if name.Cache? then s.removed + {name.key} else s.removed)
    case Begin(t, p, key, cached) =>
      s.(calls := s.calls[t := Call(p, key, cached, if cached then Checking else Waiting)])
    case Check(t) =>
      Goto(s, t, if Valid(decoded, s.disk, s.calls[t].key) then Opening(false) else Waiting)
    case Acquire(t) =>
      var c := s.calls[t];
      Goto(s, t,
           if c.cached then Rechecking else InMemory).(procs := s.procs[c.pid := s.procs[c.pid].(lock := Some(t))])
    case Recheck(t) =>
      var c := s.calls[t];
      if Valid(decoded, s.disk, c.key) then Goto(s, t, Opening(true))
      else
        var p := s.procs[c.pid];
        Goto(s, t, Preparing).(procs := s.procs[c.pid := p.(started := p.started + multiset{c.key})])
    case DecodeInMemory(t, ok) =>
      Return(s, t, if ok then Memory(decoded(s.calls[t].key)) else Failed)
    case Prepare(t, ok) =>
      var c := s.calls[t];
      var p := s.procs[c.pid];
      if ok then
        Goto(s, t, Creating(Tmp(c.key, c.pid, p.counter))).(procs := s.procs[c.pid := p.(counter := p.counter + 1)])
      else Return(s, t, Failed)
    case Create(t, ok, ino) =>
      var tmp := s.calls[t].pc.tmp;
      if ok then
        Goto(s, t, Reserving(tmp, ino)).(disk := Disk(s.disk.dir[tmp := ino], s.disk.inodes[ino := File([], false)]))
      else Goto(s, t, Cleaning(tmp))
    case Reserve(t, ok, bytes) =>
      var pc := s.calls[t].pc;
      Goto(Write(s, pc.ino, File(bytes, false)), t, if ok then Filling(pc.tmp, pc.ino) else Cleaning(pc.tmp))
    case Scribble(t, bytes) => Write(s, s.calls[t].pc.ino, File(bytes, false))
    case Decode(t, ok) =>
      var c := s.calls[t];
      if ok then Goto(Write(s, c.pc.ino, File(decoded(c.key), false)), t, Flushing(c.pc.tmp, c.pc.ino))
      else Goto(s, t, Cleaning(c.pc.tmp))
    case Sync(t, ok) =>
      var pc := s.calls[t].pc;
      if ok then Goto(Write(s, pc.ino, s.disk.inodes[pc.ino].(durable := true)), t, Renaming(pc.tmp, pc.ino))
      else Goto(s, t, Cleaning(pc.tmp))
    case Clean(t, gone) =>
      Return(if gone then Unlink(s, s.calls[t].pc.tmp) else s, t, Failed)
    case Rename(t, ok) =>
      var c := s.calls[t];
      if ok then Publish(s.(disk := s.disk.(dir := (s.disk.dir - {c.pc.tmp})[Cache(c.key) := s.disk.dir[c.pc.tmp]])), t)
      else Goto(s, t, Falling(c.pc.tmp))
    case Fall(t, gone) =>
      Goto(if gone then Unlink(s, s.calls[t].pc.tmp) else s, t, Accepting)
    case Accept(t) =>
      if Valid(decoded, s.disk, s.calls[t].key) then Publish(s, t) else Return(s, t, Failed)
    case Open(t, ok) =>
      Return(s, t, if ok then Mapped(s.disk.dir[Cache(s.calls[t].key)]) else Failed)
    case Panic(t) => Return(s, t, Panicked)
    case Retire(t) => s.(calls := s.calls - {t})
  }

  // ---------------------------------------------------------------- the invariant

  /** No file published for `k` is anything but the whole decode. */
  predicate Sound(decoded: Key -> Bytes, d: Disk, k: Key) {
    Cache(k) in d.dir ==> d.dir[Cache(k)] in d.inodes && d.inodes[d.dir[Cache(k)]] == File(decoded(k), true)
  }

  ghost predicate DiskOk(decoded: Key -> Bytes, d: Disk) {
    && (forall n :: n in d.dir ==> d.dir[n] in d.inodes)
    && (forall k :: Cache(k) in d.dir ==> d.inodes[d.dir[Cache(k)]].durable)
    && (forall k :: Valid(decoded, d, k) ==> Sound(decoded, d, k))
  }

  /** A temporary file being written: its own process's name, not yet durable contents. */
  predicate Owns(d: Disk, c: Call, tmp: Name, ino: Ino) {
    tmp.Tmp? && tmp.pid == c.pid && ino in d.inodes && (tmp in d.dir ==> d.dir[tmp] == ino)
  }

  predicate FileOk(decoded: Key -> Bytes, d: Disk, c: Call) {
    match c.pc
    case Creating(tmp) => tmp.Tmp? && tmp.pid == c.pid
    case Cleaning(tmp) => tmp.Tmp? && tmp.pid == c.pid
    case Falling(tmp) => tmp.Tmp? && tmp.pid == c.pid
    case Reserving(tmp, ino) => Owns(d, c, tmp, ino) && !d.inodes[ino].durable
    case Filling(tmp, ino) => Owns(d, c, tmp, ino) && !d.inodes[ino].durable
        && |d.inodes[ino].bytes| == |decoded(c.key)|
    case Flushing(tmp, ino) => Owns(d, c, tmp, ino) && !d.inodes[ino].durable && d.inodes[ino].bytes == decoded(c.key)
    case Renaming(tmp, ino) => Owns(d, c, tmp, ino) && d.inodes[ino] == File(decoded(c.key), true)
    case Opening(_) => Sound(decoded, d, c.key)
    case Returned(Mapped(ino)) => ino in d.inodes && d.inodes[ino] == File(decoded(c.key), true)
    case Returned(Memory(bytes)) => bytes == decoded(c.key)
    case _ => true
  }

  predicate CallOk(decoded: Key -> Bytes, s: State, t: Tid)
    requires t in s.calls
  {
    var c := s.calls[t];
    && c.pid in s.procs
    && (s.procs[c.pid].lock == Some(t) <==> Holds(c.pc))
    && FileOk(decoded, s.disk, c)
    && (c.pc.InMemory? ==> !c.cached)
    && (Attempting(c.pc) && c.key !in s.removed ==> s.procs[c.pid].finished[c.key] == 0)
  }

  predicate Writing(pc: Pc) {
    pc.Reserving? || pc.Filling? || pc.Flushing? || pc.Renaming?
  }

  /** No two calls write the same file. */
  ghost predicate WritersApart(s: State) {
    forall t, u :: t in s.calls && u in s.calls && t != u && Writing(s.calls[t].pc) && Writing(s.calls[u].pc) ==>
      s.calls[t].pc.ino != s.calls[u].pc.ino
  }

  /** A process that published a decode of `k` sees it valid, unless someone outside removed it, and has
      published it once. */
  ghost predicate OnceOk(decoded: Key -> Bytes, s: State) {
    forall p, k :: p in s.procs && k !in s.removed && s.procs[p].finished[k] > 0 ==>
      s.procs[p].finished[k] == 1 && Valid(decoded, s.disk, k)
  }

  /** A lock is held by a call of its own process. */
  ghost predicate LocksOk(s: State) {
    forall p :: p in s.procs && s.procs[p].lock.Some? ==>
      s.procs[p].lock.value in s.calls && s.calls[s.procs[p].lock.value].pid == p
  }

  ghost predicate Inv(decoded: Key -> Bytes, s: State) {
    && DiskOk(decoded, s.disk)
    && (forall t :: t in s.calls ==> CallOk(decoded, s, t))
    && WritersApart(s) && LocksOk(s)
    && OnceOk(decoded, s)
  }

  /** At the start no process runs; what lies at a cache path is durable, and the whole decode if its
      length is right. */
  ghost predicate Init(decoded: Key -> Bytes, s: State) {
    s.calls == map[] && s.procs == map[] && DiskOk(decoded, s.disk)
  }

  ghost predicate Next(decoded: Key -> Bytes, s: State, s': State) {
    exists step :: Enabled(decoded, s, step) && s' == Apply(decoded, s, step)
  }

  ghost predicate IsRun(decoded: Key -> Bytes, run: seq<State>) {
    |run| > 0 && Init(decoded, run[0]) && forall i :: 0 <= i < |run| - 1 ==> Next(decoded, run[i], run[i + 1])
  }

  // ---------------------------------------------------------------- every step keeps the invariant

  /** The invariant, but for what it says of call `t` itself. */
  ghost predicate InvBut(decoded: Key -> Bytes, s: State, t: Tid) {
    && DiskOk(decoded, s.disk)
    && (forall u :: u in s.calls && u != t ==> CallOk(decoded, s, u))
    && WritersApart(s) && LocksOk(s)
    && OnceOk(decoded, s)
  }

  /** What another call relies on is as it was. */
  lemma {:induction false} OtherKept(decoded: Key -> Bytes, s: State, r: State, u: Tid)
    requires u in s.calls && CallOk(decoded, s, u) && u in r.calls && r.calls[u] == s.calls[u]
    requires s.calls[u].pid in r.procs
    requires r.procs[s.calls[u].pid].lock == Some(u) <==> s.procs[s.calls[u].pid].lock == Some(u)
    requires FileOk(decoded, r.disk, s.calls[u])
    requires s.removed <= r.removed
    requires Decoding(s.calls[u].pc) ==>
               r.procs[s.calls[u].pid].finished[s.calls[u].key] == s.procs[s.calls[u].pid].finished[s.calls[u].key]
    ensures CallOk(decoded, r, u)
  {
    hide FileOk;
  }

  /** Moving call `t` on, and its process's record with it, with the files as they are. */
  lemma {:induction false} Settle(decoded: Key -> Bytes, s: State, t: Tid, c: Call, p: Proc, r: State)
    requires InvBut(decoded, s, t) && t in s.calls && c.pid == s.calls[t].pid && c.pid in s.procs
    requires p.lock == s.procs[c.pid].lock
             || ((p.lock == None || p.lock == Some(t))
                 && (s.procs[c.pid].lock == None || s.procs[c.pid].lock == Some(t)))
    requires p.finished == s.procs[c.pid].finished || s.procs[c.pid].lock == Some(t)
    requires r == s.(calls := s.calls[t := c], procs := s.procs[c.pid := p])
    requires WritersApart(r) && OnceOk(decoded, r) && CallOk(decoded, r, t)
    ensures Inv(decoded, r)
  {
    hide FileOk, Valid, Sound;
    forall u | u in r.calls ensures CallOk(decoded, r, u) {
      if u != t { OtherKept(decoded, s, r, u); }
    }
  }

  // What the disk operations leave standing of a call's own file.

  lemma {:induction false} WriteSpares(decoded: Key -> Bytes, d: Disk, ino: Ino, f: File, c: Call)
    requires FileOk(decoded, d, c) && (ino in d.inodes ==> !d.inodes[ino].durable)
    requires Writing(c.pc) ==> c.pc.ino != ino
    ensures FileOk(decoded, d.(inodes := d.inodes[ino := f]), c)
  {
  }

  lemma {:induction false} UnlinkSpares(decoded: Key -> Bytes, d: Disk, n: Name, c: Call)
    requires FileOk(decoded, d, c)
    ensures FileOk(decoded, d.(dir := d.dir - {n}), c)
  {
  }

  lemma {:induction false} LinkSpares(decoded: Key -> Bytes, d: Disk, n: Name, ino: Ino, c: Call)
    requires FileOk(decoded, d, c) && ino in d.inodes
    requires Writing(c.pc) ==> c.pc.tmp != n
    requires n.Cache? ==> d.inodes[ino] == File(decoded(n.key), true)
    ensures FileOk(decoded, d.(dir := d.dir[n := ino]), c)
  {
  }

  lemma {:induction false} WriteKeepsDisk(decoded: Key -> Bytes, d: Disk, ino: Ino, f: File)
    requires DiskOk(decoded, d) && (ino in d.inodes ==> !d.inodes[ino].durable)
    ensures DiskOk(decoded, d.(inodes := d.inodes[ino := f]))
    ensures forall k :: Valid(decoded, d, k) ==> Valid(decoded, d.(inodes := d.inodes[ino := f]), k)
  {
    var e := d.(inodes := d.inodes[ino := f]);
    forall k
      ensures (Valid(decoded, d, k) <==> Valid(decoded, e, k)) && (Sound(decoded, d, k) ==> Sound(decoded, e, k))
    {
      if Cache(k) in d.dir { assert d.dir[Cache(k)] != ino; }
    }
  }

  lemma {:induction false} UnlinkKeepsDisk(decoded: Key -> Bytes, d: Disk, n: Name)
    requires DiskOk(decoded, d)
    ensures DiskOk(decoded, d.(dir := d.dir - {n}))
    ensures forall k :: Valid(decoded, d, k) && n != Cache(k) ==> Valid(decoded, d.(dir := d.dir - {n}), k)
  {
    var e := d.(dir := d.dir - {n});
    forall k ensures Valid(decoded, e, k) <==> Valid(decoded, d, k) && n != Cache(k) {
    }
    forall k | Valid(decoded, e, k) ensures Sound(decoded, e, k) {
      assert Sound(decoded, d, k);
    }
  }

  lemma {:induction false} LinkKeepsDisk(decoded: Key -> Bytes, d: Disk, n: Name, ino: Ino)
    requires DiskOk(decoded, d) && ino in d.inodes
    requires n.Cache? ==> d.inodes[ino] == File(decoded(n.key), true)
    ensures DiskOk(decoded, d.(dir := d.dir[n := ino]))
    ensures forall k :: Valid(decoded, d, k) || n == Cache(k) ==> Valid(decoded, d.(dir := d.dir[n := ino]), k)
  {
    var e := d.(dir := d.dir[n := ino]);
    forall k ensures Valid(decoded, e, k) <==> Valid(decoded, d, k) || n == Cache(k) {
    }
    forall k | Valid(decoded, e, k) ensures Sound(decoded, e, k) {
      if n != Cache(k) { assert Valid(decoded, d, k) && Sound(decoded, d, k); }
    }
  }

  /** Two calls of one process never hold the lock together. */
  lemma {:induction false} LockExcludes(decoded: Key -> Bytes, s: State, t: Tid, u: Tid)
    requires t in s.calls && u in s.calls && CallOk(decoded, s, t) && CallOk(decoded, s, u)
    requires s.calls[t].pid == s.calls[u].pid && Holds(s.calls[t].pc) && Holds(s.calls[u].pc)
    ensures t == u
  {
    hide FileOk;
  }

  /** The disk changed under call `t`; everyone else's files are spared. */
  lemma {:induction false} DiskMoves(decoded: Key -> Bytes, s: State, t: Tid, d: Disk)
    requires Inv(decoded, s) && DiskOk(decoded, d)
    requires forall u :: u in s.calls && u != t ==> FileOk(decoded, d, s.calls[u])
    requires forall k :: Valid(decoded, s.disk, k) ==> Valid(decoded, d, k)
    ensures InvBut(decoded, s.(disk := d), t)
  {
    hide FileOk, Valid, DiskOk;
    var r := s.(disk := d);
    forall u | u in r.calls && u != t ensures CallOk(decoded, r, u) {
      OtherKept(decoded, s, r, u);
    }
  }

  /** Writing its own temporary file. */
  lemma {:induction false} WriteMoves(decoded: Key -> Bytes, s: State, t: Tid, f: File)
    requires Inv(decoded, s) && t in s.calls
             && (s.calls[t].pc.Reserving? || s.calls[t].pc.Filling? || s.calls[t].pc.Flushing?)
    ensures InvBut(decoded, Write(s, s.calls[t].pc.ino, f), t)
  {
    var ino := s.calls[t].pc.ino;
    assert CallOk(decoded, s, t);
    forall u | u in s.calls && u != t ensures FileOk(decoded, Write(s, ino, f).disk, s.calls[u]) {
      assert CallOk(decoded, s, u);
      WriteSpares(decoded, s.disk, ino, f, s.calls[u]);
    }
    WriteKeepsDisk(decoded, s.disk, ino, f);
    hide FileOk, Valid, DiskOk;
    DiskMoves(decoded, s, t, Write(s, ino, f).disk);
  }

  /** Removing a temporary file. */
  lemma {:induction false} UnlinkMoves(decoded: Key -> Bytes, s: State, t: Tid, n: Name)
    requires Inv(decoded, s) && n.Tmp?
    ensures InvBut(decoded, Unlink(s, n), t)
  {
    forall u | u in s.calls && u != t ensures FileOk(decoded, Unlink(s, n).disk, s.calls[u]) {
      assert CallOk(decoded, s, u);
      UnlinkSpares(decoded, s.disk, n, s.calls[u]);
    }
    UnlinkKeepsDisk(decoded, s.disk, n);
    hide FileOk, Valid, DiskOk;
    DiskMoves(decoded, s, t, Unlink(s, n).disk);
  }

  // One lemma a step.

  /** Returning, with data that is whole. */
  lemma {:induction false} ReturnKeeps(decoded: Key -> Bytes, s: State, t: Tid, o: Outcome)
    requires InvBut(decoded, s, t) && At(s, t) && (s.procs[s.calls[t].pid].lock == Some(t) <==> Holds(s.calls[t].pc))
    requires FileOk(decoded, s.disk, s.calls[t].(pc := Returned(o)))
    ensures Inv(decoded, Return(s, t, o))
  {
    hide FileOk, Valid, Sound, DiskOk;
    var c := s.calls[t];
    var p := s.procs[c.pid];
    Settle(decoded, s, t, c.(pc := Returned(o)), Released(p, c), Return(s, t, o));
  }

  /** Moving on with lock, counter and finished decodes as they are. */
  lemma {:induction false} GotoKeeps(decoded: Key -> Bytes, s: State, t: Tid, pc: Pc)
    requires InvBut(decoded, s, t) && At(s, t) && (s.procs[s.calls[t].pid].lock == Some(t) <==> Holds(pc))
    requires FileOk(decoded, s.disk, s.calls[t].(pc := pc))
    requires !pc.InMemory? && (Writing(pc) ==> Writing(s.calls[t].pc) && pc.ino == s.calls[t].pc.ino)
    requires Decoding(pc) && s.calls[t].key !in s.removed ==> s.procs[s.calls[t].pid].finished[s.calls[t].key] == 0
    ensures Inv(decoded, Goto(s, t, pc))
  {
    hide FileOk, Valid, Sound, DiskOk;
    var c := s.calls[t];
    Settle(decoded, s, t, c.(pc := pc), s.procs[c.pid], Goto(s, t, pc));
  }

  lemma {:induction false} CheckKeeps(decoded: Key -> Bytes, s: State, t: Tid)
    requires Inv(decoded, s) && Enabled(decoded, s, Check(t))
    ensures Inv(decoded, Apply(decoded, s, Check(t)))
  {
    assert CallOk(decoded, s, t);
    GotoKeeps(decoded, s, t, if Valid(decoded, s.disk, s.calls[t].key) then Opening(false) else Waiting);
  }

  lemma {:induction false} AcquireKeeps(decoded: Key -> Bytes, s: State, t: Tid)
    requires Inv(decoded, s) && Enabled(decoded, s, Acquire(t))
    ensures Inv(decoded, Apply(decoded, s, Acquire(t)))
  {
    assert CallOk(decoded, s, t);
    hide Valid, Sound, DiskOk;
    var c := s.calls[t];
    Settle(decoded, s, t, c.(pc := if c.cached then Rechecking else InMemory), s.procs[c.pid].(lock := Some(t)),
           Apply(decoded, s, Acquire(t)));
  }

  lemma {:induction false} RecheckKeeps(decoded: Key -> Bytes, s: State, t: Tid)
    requires Inv(decoded, s) && Enabled(decoded, s, Recheck(t))
    ensures Inv(decoded, Apply(decoded, s, Recheck(t)))
  {
    assert CallOk(decoded, s, t);
    var c := s.calls[t];
    var p := s.procs[c.pid];
    if Valid(decoded, s.disk, c.key) {
      GotoKeeps(decoded, s, t, Opening(true));
    } else {
      hide Sound, DiskOk;
      Settle(decoded, s, t, c.(pc := Preparing), p.(started := p.started + multiset{c.key}),
             Apply(decoded, s, Recheck(t)));
    }
  }

  lemma {:induction false} DecodeInMemoryKeeps(decoded: Key -> Bytes, s: State, t: Tid, ok: bool)
    requires Inv(decoded, s) && Enabled(decoded, s, DecodeInMemory(t, ok))
    ensures Inv(decoded, Apply(decoded, s, DecodeInMemory(t, ok)))
  {
    assert CallOk(decoded, s, t);
    ReturnKeeps(decoded, s, t, if ok then Memory(decoded(s.calls[t].key)) else Failed);
  }

  lemma {:induction false} PrepareKeeps(decoded: Key -> Bytes, s: State, t: Tid, ok: bool)
    requires Inv(decoded, s) && Enabled(decoded, s, Prepare(t, ok))
    ensures Inv(decoded, Apply(decoded, s, Prepare(t, ok)))
  {
    assert CallOk(decoded, s, t);
    hide Valid, Sound, DiskOk;
    var c := s.calls[t];
    var p := s.procs[c.pid];
    if ok {
      Settle(decoded, s, t, c.(pc := Creating(Tmp(c.key, c.pid, p.counter))), p.(counter := p.counter + 1),
             Apply(decoded, s, Prepare(t, ok)));
    } else {
      ReturnKeeps(decoded, s, t, Failed);
    }
  }

  lemma {:induction false} CreateMoves(decoded: Key -> Bytes, s: State, t: Tid, n: Name, ino: Ino)
    requires Inv(decoded, s) && t in s.calls && s.calls[t].pc == Creating(n) && n !in s.disk.dir
             && ino !in s.disk.inodes
    ensures InvBut(decoded, s.(disk := Disk(s.disk.dir[n := ino], s.disk.inodes[ino := File([], false)])), t)
    ensures forall u :: u in s.calls && Writing(s.calls[u].pc) ==> s.calls[u].pc.ino != ino
  {
    assert CallOk(decoded, s, t);
    var d := s.disk.(inodes := s.disk.inodes[ino := File([], false)]);
    var e := d.(dir := d.dir[n := ino]);
    forall u | u in s.calls && u != t
      ensures FileOk(decoded, e, s.calls[u]) && (Writing(s.calls[u].pc) ==> s.calls[u].pc.ino != ino)
    {
      assert CallOk(decoded, s, u);
      WriteSpares(decoded, s.disk, ino, File([], false), s.calls[u]);
      if Writing(s.calls[u].pc) && s.calls[u].pc.tmp == n { LockExcludes(decoded, s, t, u); }
      LinkSpares(decoded, d, n, ino, s.calls[u]);
    }
    WriteKeepsDisk(decoded, s.disk, ino, File([], false));
    LinkKeepsDisk(decoded, d, n, ino);
    hide FileOk, Valid, Sound, DiskOk;
    DiskMoves(decoded, s, t, e);
  }

  lemma {:induction false} CreateKeeps(decoded: Key -> Bytes, s: State, t: Tid, ok: bool, ino: Ino)
    requires Inv(decoded, s) && Enabled(decoded, s, Create(t, ok, ino))
    ensures Inv(decoded, Apply(decoded, s, Create(t, ok, ino)))
  {
    assert CallOk(decoded, s, t);
    var c := s.calls[t];
    if ok {
      CreateMoves(decoded, s, t, c.pc.tmp, ino);
      var r := s.(disk := Disk(s.disk.dir[c.pc.tmp := ino], s.disk.inodes[ino := File([], false)]));
      hide Valid, Sound, DiskOk;
      Settle(decoded, r, t, c.(pc := Reserving(c.pc.tmp, ino)), s.procs[c.pid], Apply(decoded, s, Create(t, ok, ino)));
    } else {
      GotoKeeps(decoded, s, t, Cleaning(c.pc.tmp));
    }
  }

  lemma {:induction false} ReserveKeeps(decoded: Key -> Bytes, s: State, t: Tid, ok: bool, bytes: Bytes)
    requires Inv(decoded, s) && Enabled(decoded, s, Reserve(t, ok, bytes))
    ensures Inv(decoded, Apply(decoded, s, Reserve(t, ok, bytes)))
  {
    assert CallOk(decoded, s, t);
    var pc := s.calls[t].pc;
    WriteMoves(decoded, s, t, File(bytes, false));
    GotoKeeps(decoded, Write(s, pc.ino, File(bytes, false)), t,
              if ok then Filling(pc.tmp, pc.ino) else Cleaning(pc.tmp));
  }

  lemma {:induction false} ScribbleKeeps(decoded: Key -> Bytes, s: State, t: Tid, bytes: Bytes)
    requires Inv(decoded, s) && Enabled(decoded, s, Scribble(t, bytes))
    ensures Inv(decoded, Apply(decoded, s, Scribble(t, bytes)))
  {
    assert CallOk(decoded, s, t);
    var pc := s.calls[t].pc;
    WriteMoves(decoded, s, t, File(bytes, false));
    GotoKeeps(decoded, Write(s, pc.ino, File(bytes, false)), t, pc);
    assert Goto(Write(s, pc.ino, File(bytes, false)), t, pc) == Apply(decoded, s, Scribble(t, bytes));
  }

  lemma {:induction false} DecodeKeeps(decoded: Key -> Bytes, s: State, t: Tid, ok: bool)
    requires Inv(decoded, s) && Enabled(decoded, s, Decode(t, ok))
    ensures Inv(decoded, Apply(decoded, s, Decode(t, ok)))
  {
    assert CallOk(decoded, s, t);
    var c := s.calls[t];
    if ok {
      WriteMoves(decoded, s, t, File(decoded(c.key), false));
      GotoKeeps(decoded, Write(s, c.pc.ino, File(decoded(c.key), false)), t, Flushing(c.pc.tmp, c.pc.ino));
    } else {
      GotoKeeps(decoded, s, t, Cleaning(c.pc.tmp));
    }
  }

  lemma {:induction false} SyncKeeps(decoded: Key -> Bytes, s: State, t: Tid, ok: bool)
    requires Inv(decoded, s) && Enabled(decoded, s, Sync(t, ok))
    ensures Inv(decoded, Apply(decoded, s, Sync(t, ok)))
  {
    assert CallOk(decoded, s, t);
    var pc := s.calls[t].pc;
    if ok {
      var f := s.disk.inodes[pc.ino].(durable := true);
      WriteMoves(decoded, s, t, f);
      GotoKeeps(decoded, Write(s, pc.ino, f), t, Renaming(pc.tmp, pc.ino));
    } else {
      GotoKeeps(decoded, s, t, Cleaning(pc.tmp));
    }
  }

  lemma {:induction false} CleanKeeps(decoded: Key -> Bytes, s: State, t: Tid, gone: bool)
    requires Inv(decoded, s) && Enabled(decoded, s, Clean(t, gone))
    ensures Inv(decoded, Apply(decoded, s, Clean(t, gone)))
  {
    assert CallOk(decoded, s, t);
    UnlinkMoves(decoded, s, t, s.calls[t].pc.tmp);
    ReturnKeeps(decoded, if gone then Unlink(s, s.calls[t].pc.tmp) else s, t, Failed);
  }

  lemma {:induction false} FallKeeps(decoded: Key -> Bytes, s: State, t: Tid, gone: bool)
    requires Inv(decoded, s) && Enabled(decoded, s, Fall(t, gone))
    ensures Inv(decoded, Apply(decoded, s, Fall(t, gone)))
  {
    assert CallOk(decoded, s, t);
    UnlinkMoves(decoded, s, t, s.calls[t].pc.tmp);
    GotoKeeps(decoded, if gone then Unlink(s, s.calls[t].pc.tmp) else s, t, Accepting);
  }

  lemma {:induction false} PublishKeeps(decoded: Key -> Bytes, s: State, t: Tid)
    requires InvBut(decoded, s, t) && At(s, t) && s.procs[s.calls[t].pid].lock == Some(t)
    requires Valid(decoded, s.disk, s.calls[t].key)
    requires s.calls[t].key !in s.removed ==> s.procs[s.calls[t].pid].finished[s.calls[t].key] == 0
    ensures Inv(decoded, Publish(s, t))
  {
    var c := s.calls[t];
    var p := s.procs[c.pid];
    assert Sound(decoded, s.disk, c.key);
    hide Valid, Sound, DiskOk;
    Settle(decoded, s, t, c.(pc := Opening(true)), p.(finished := p.finished + multiset{c.key}), Publish(s, t));
  }

  lemma {:induction false} AcceptKeeps(decoded: Key -> Bytes, s: State, t: Tid)
    requires Inv(decoded, s) && Enabled(decoded, s, Accept(t))
    ensures Inv(decoded, Apply(decoded, s, Accept(t)))
  {
    assert CallOk(decoded, s, t);
    hide Valid, Sound, DiskOk;
    if Valid(decoded, s.disk, s.calls[t].key) {
      PublishKeeps(decoded, s, t);
    } else {
      ReturnKeeps(decoded, s, t, Failed);
    }
  }

  lemma {:induction false} RenameMoves(decoded: Key -> Bytes, s: State, t: Tid, tmp: Name, k: Key, ino: Ino)
    requires Inv(decoded, s) && t in s.calls && tmp.Tmp? && ino in s.disk.inodes
             && s.disk.inodes[ino] == File(decoded(k), true)
    ensures InvBut(decoded, s.(disk := s.disk.(dir := (s.disk.dir - {tmp})[Cache(k) := ino])), t)
    ensures Valid(decoded, s.disk.(dir := (s.disk.dir - {tmp})[Cache(k) := ino]), k)
  {
    var d := s.disk.(dir := s.disk.dir - {tmp});
    var e := d.(dir := d.dir[Cache(k) := ino]);
    forall u | u in s.calls && u != t ensures FileOk(decoded, e, s.calls[u]) {
      assert CallOk(decoded, s, u);
      UnlinkSpares(decoded, s.disk, tmp, s.calls[u]);
      LinkSpares(decoded, d, Cache(k), ino, s.calls[u]);
    }
    UnlinkKeepsDisk(decoded, s.disk, tmp);
    LinkKeepsDisk(decoded, d, Cache(k), ino);
    hide FileOk, Valid, Sound, DiskOk;
    DiskMoves(decoded, s, t, e);
  }

  lemma {:induction false} RenameKeeps(decoded: Key -> Bytes, s: State, t: Tid, ok: bool)
    requires Inv(decoded, s) && Enabled(decoded, s, Rename(t, ok))
    ensures Inv(decoded, Apply(decoded, s, Rename(t, ok)))
  {
    assert CallOk(decoded, s, t);
    var c := s.calls[t];
    if ok {
      RenameMoves(decoded, s, t, c.pc.tmp, c.key, c.pc.ino);
      hide Valid, Sound, DiskOk;
      PublishKeeps(decoded, s.(disk := s.disk.(dir := (s.disk.dir - {c.pc.tmp})[Cache(c.key) := c.pc.ino])), t);
    } else {
      GotoKeeps(decoded, s, t, Falling(c.pc.tmp));
    }
  }

  lemma {:induction false} OpenKeeps(decoded: Key -> Bytes, s: State, t: Tid, ok: bool)
    requires Inv(decoded, s) && Enabled(decoded, s, Open(t, ok))
    ensures Inv(decoded, Apply(decoded, s, Open(t, ok)))
  {
    assert CallOk(decoded, s, t);
    ReturnKeeps(decoded, s, t, if ok then Mapped(s.disk.dir[Cache(s.calls[t].key)]) else Failed);
  }

  lemma {:induction false} PanicKeeps(decoded: Key -> Bytes, s: State, t: Tid)
    requires Inv(decoded, s) && Enabled(decoded, s, Panic(t))
    ensures Inv(decoded, Apply(decoded, s, Panic(t)))
  {
    assert CallOk(decoded, s, t);
    ReturnKeeps(decoded, s, t, Panicked);
  }

  lemma {:induction false} RetireKeeps(decoded: Key -> Bytes, s: State, t: Tid)
    requires Inv(decoded, s) && Enabled(decoded, s, Retire(t))
    ensures Inv(decoded, Apply(decoded, s, Retire(t)))
  {
    hide FileOk, Valid, Sound, DiskOk;
    var r := Apply(decoded, s, Retire(t));
    forall u | u in r.calls ensures CallOk(decoded, r, u) {
      OtherKept(decoded, s, r, u);
    }
  }

  lemma {:induction false} BeginKeeps(decoded: Key -> Bytes, s: State, t: Tid, p: Pid, key: Key, cached: bool)
    requires Inv(decoded, s) && Enabled(decoded, s, Begin(t, p, key, cached))
    ensures Inv(decoded, Apply(decoded, s, Begin(t, p, key, cached)))
  {
    hide Valid, Sound, DiskOk;
    var r := Apply(decoded, s, Begin(t, p, key, cached));
    forall u | u in r.calls ensures CallOk(decoded, r, u) {
      if u != t {
        assert CallOk(decoded, s, u);
        OtherKept(decoded, s, r, u);
      } else {
        assert s.procs[p].lock != Some(t);
      }
    }
  }

  lemma {:induction false} SpawnKeeps(decoded: Key -> Bytes, s: State, p: Pid)
    requires Inv(decoded, s) && Enabled(decoded, s, Spawn(p))
    ensures Inv(decoded, Apply(decoded, s, Spawn(p)))
  {
    hide FileOk, Valid, Sound, DiskOk;
    var r := Apply(decoded, s, Spawn(p));
    forall u | u in r.calls ensures CallOk(decoded, r, u) {
      assert CallOk(decoded, s, u);
      OtherKept(decoded, s, r, u);
    }
  }

  lemma {:induction false} CrashKeeps(decoded: Key -> Bytes, s: State, p: Pid)
    requires Inv(decoded, s) && Enabled(decoded, s, Crash(p))
    ensures Inv(decoded, Apply(decoded, s, Crash(p)))
  {
    hide FileOk, Valid, Sound, DiskOk;
    var r := Apply(decoded, s, Crash(p));
    forall u | u in r.calls ensures CallOk(decoded, r, u) {
      assert CallOk(decoded, s, u);
      OtherKept(decoded, s, r, u);
    }
  }

  lemma {:induction false} PowerCutKeeps(decoded: Key -> Bytes, s: State, survivors: map<Ino, File>, lost: set<Name>)
    requires Inv(decoded, s) && Enabled(decoded, s, PowerCut(survivors, lost))
    ensures Inv(decoded, Apply(decoded, s, PowerCut(survivors, lost)))
  {
    var e := Disk(s.disk.dir - lost, survivors);
    forall k | Valid(decoded, e, k) ensures Sound(decoded, e, k) {
      assert Valid(decoded, s.disk, k) && Sound(decoded, s.disk, k);
    }
  }

  lemma {:induction false} RemoveKeeps(decoded: Key -> Bytes, s: State, n: Name)
    requires Inv(decoded, s) && Enabled(decoded, s, Remove(n))
    ensures Inv(decoded, Apply(decoded, s, Remove(n)))
  {
    var r := Apply(decoded, s, Remove(n));
    UnlinkKeepsDisk(decoded, s.disk, n);
    forall u | u in r.calls ensures FileOk(decoded, r.disk, r.calls[u]) && CallOk(decoded, s, u) {
      UnlinkSpares(decoded, s.disk, n, s.calls[u]);
    }
    hide FileOk, Valid, Sound, DiskOk;
    forall u | u in r.calls ensures CallOk(decoded, r, u) {
      OtherKept(decoded, s, r, u);
    }
  }

  /** No step of any thread, crash, power cut or outside removal breaks the invariant. */
  lemma {:induction false} StepKeeps(decoded: Key -> Bytes, s: State, step: Step)
    requires Inv(decoded, s) && Enabled(decoded, s, step)
    ensures Inv(decoded, Apply(decoded, s, step))
  {
    hide Inv, Enabled, Apply;
    match step
    case Spawn(p) => SpawnKeeps(decoded, s, p);
    case Crash(p) => CrashKeeps(decoded, s, p);
    case PowerCut(survivors, lost) => PowerCutKeeps(decoded, s, survivors, lost);
    case Remove(n) => RemoveKeeps(decoded, s, n);
    case Begin(t, p, key, cached) => BeginKeeps(decoded, s, t, p, key, cached);
    case Check(t) => CheckKeeps(decoded, s, t);
    case Acquire(t) => AcquireKeeps(decoded, s, t);
    case Recheck(t) => RecheckKeeps(decoded, s, t);
    case DecodeInMemory(t, ok) => DecodeInMemoryKeeps(decoded, s, t, ok);
    case Prepare(t, ok) => PrepareKeeps(decoded, s, t, ok);
    case Create(t, ok, ino) => CreateKeeps(decoded, s, t, ok, ino);
    case Reserve(t, ok, bytes) => ReserveKeeps(decoded, s, t, ok, bytes);
    case Scribble(t, bytes) => ScribbleKeeps(decoded, s, t, bytes);
    case Decode(t, ok) => DecodeKeeps(decoded, s, t, ok);
    case Sync(t, ok) => SyncKeeps(decoded, s, t, ok);
    case Clean(t, gone) => CleanKeeps(decoded, s, t, gone);
    case Rename(t, ok) => RenameKeeps(decoded, s, t, ok);
    case Fall(t, gone) => FallKeeps(decoded, s, t, gone);
    case Accept(t) => AcceptKeeps(decoded, s, t);
    case Open(t, ok) => OpenKeeps(decoded, s, t, ok);
    case Panic(t) => PanicKeeps(decoded, s, t);
    case Retire(t) => RetireKeeps(decoded, s, t);
  }

  lemma {:induction false} RunKeeps(decoded: Key -> Bytes, run: seq<State>, i: nat)
    requires IsRun(decoded, run) && i < |run|
    ensures Inv(decoded, run[i])
  {
    if i == 0 {
    } else {
      hide Inv, Enabled, Apply;
      RunKeeps(decoded, run, i - 1);
      assert Next(decoded, run[i - 1], run[i]);
      var step :| Enabled(decoded, run[i - 1], step) && run[i] == Apply(decoded, run[i - 1], step);
      StepKeeps(decoded, run[i - 1], step);
    }
  }
}

/** What holds in every run of the decode cache. */
module DecodeCacheSafety {
  import opened DecodeCache

  /** Whatever interleaving and whatever crashes: a file of the expected length at a cache path is the
      whole decode of its key. */
  lemma {:induction false} CacheFilesWhole(decoded: Key -> Bytes, run: seq<State>, i: nat, k: Key)
    requires IsRun(decoded, run) && i < |run| && Valid(decoded, run[i].disk, k)
    ensures run[i].disk.inodes[run[i].disk.dir[Cache(k)]] == File(decoded(k), true)
  {
    RunKeeps(decoded, run, i);
    assert Sound(decoded, run[i].disk, k);
  }

  /** Every call that succeeded holds whole data, for as long as it lives: its mapping never changes
      under it. */
  lemma {:induction false} SuccessfulCallsWhole(decoded: Key -> Bytes, run: seq<State>, i: nat, t: Tid)
    requires IsRun(decoded, run) && i < |run| && t in run[i].calls && run[i].calls[t].pc.Returned?
    ensures var o := run[i].calls[t].pc.outcome;
            && (o.Mapped? ==>
                  o.ino in run[i].disk.inodes && run[i].disk.inodes[o.ino].bytes == decoded(run[i].calls[t].key))
            && (o.Memory? ==> o.bytes == decoded(run[i].calls[t].key))
  {
    RunKeeps(decoded, run, i);
    assert CallOk(decoded, run[i], t);
  }

  /** At most one decode is in flight in each process. */
  lemma {:induction false} OneDecodeInFlight(decoded: Key -> Bytes, run: seq<State>, i: nat, t: Tid, u: Tid)
    requires IsRun(decoded, run) && i < |run| && t in run[i].calls && u in run[i].calls
    requires Decoding(run[i].calls[t].pc) && Decoding(run[i].calls[u].pc) && run[i].calls[t].pid == run[i].calls[u].pid
    ensures t == u
  {
    hide FileOk;
    RunKeeps(decoded, run, i);
    LockExcludes(decoded, run[i], t, u);
  }

  /** Unless someone outside removes its cache file, a process publishes a decode of a key at most once. */
  lemma {:induction false} DecodedAtMostOnce(decoded: Key -> Bytes, run: seq<State>, i: nat, p: Pid, k: Key)
    requires IsRun(decoded, run) && i < |run| && p in run[i].procs && k !in run[i].removed
    ensures run[i].procs[p].finished[k] <= 1
  {
    RunKeeps(decoded, run, i);
  }

  /** Two live decodes never share a temporary file, though a crashed process may have left one behind. */
  lemma {:induction false} TemporariesApart(decoded: Key -> Bytes, run: seq<State>, i: nat, t: Tid, u: Tid)
    requires IsRun(decoded, run) && i < |run| && t in run[i].calls && u in run[i].calls && t != u
    requires Writing(run[i].calls[t].pc) && Writing(run[i].calls[u].pc)
    ensures run[i].calls[t].pc.tmp != run[i].calls[u].pc.tmp && run[i].calls[t].pc.ino != run[i].calls[u].pc.ino
  {
    RunKeeps(decoded, run, i);
    assert CallOk(decoded, run[i], t) && CallOk(decoded, run[i], u);
    if run[i].calls[t].pid == run[i].calls[u].pid { LockExcludes(decoded, run[i], t, u); }
  }
}
