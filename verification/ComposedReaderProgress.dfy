/**
 When a waiting read() of ComposedReader can still return, whatever happens next, and when it waits for
 ever.
 */
module ComposedReaderProgress {
  import opened Common
  import opened ComposedReader

  /** The caller is in the wait loop of read(). */
  predicate Waits(pc: CallerPc) {
    pc.Scanning? || pc == WaitingHas || pc == SlowLocking || pc == SlowTesting || pc == SlowPopping ||
    pc.SlowPopped? || pc.SlowReleasing? || pc == SlowClearing || pc == SlowUnlocking
  }

  // ---- Two more invariants ----

  predicate HasAppended(pc: ThreadPc) { pc == SettingHas || pc == ClearingNeed || pc == Unlocking }

  /** A reader lock is held by a thread of that reader. */
  predicate OwnLocks(p: Pool)
    requires PoolShape(p)
  {
    forall i :: 0 <= i < |p.rlocks| && p.rlocks[i].Some? ==>
      p.rlocks[i].value < |p.threads| && p.threads[p.rlocks[i].value].reader == i
  }

  /** What a thread has appended stays queued until it lets go of the queue lock. */
  predicate StillQueued(threads: seq<Thread>, queue: seq<Item>) {
    forall t :: 0 <= t < |threads| && HasAppended(threads[t].pc) ==> queue != []
  }

  predicate Owned(s: State)
    requires Shape(s)
  {
    OwnLocks(s.pool) && StillQueued(s.pool.threads, s.chan.queue)
  }

  lemma PoolStepKeepsOwned(s: State, t: nat, p': Pool)
    requires Shape(s) && Owned(s) && t < |s.pool.threads| && PoolShape(p')
    requires PoolNext(s.pool, s.chan.need, t) == Some(p')
    ensures OwnLocks(p') && StillQueued(p'.threads, s.chan.queue)
  {
    PoolNextFrame(s.pool, s.chan.need, t, p');
  }

  lemma QueueStepKeepsOwned(s: State, t: nat, s': State)
    requires Shape(s) && Owned(s) && t < |s.pool.threads| && QueueNext(s, t) == To(s') && Shape(s')
    ensures Owned(s')
  {
    assert forall u :: 0 <= u < |s.pool.threads| && u != t ==> s'.pool.threads[u] == s.pool.threads[u];
    assert s'.pool.threads[t].reader == s.pool.threads[t].reader;
    assert s'.chan.queue == [] ==> s.chan.queue == [];
  }

  lemma ReaderKeepsOwned(s: State, t: nat, result: Option<Record>, s': State)
    requires Shape(s) && Owned(s) && t < |s.pool.threads| && ReturnsNext(s, t, result) == To(s') && Shape(s')
    ensures Owned(s')
  {
    assert forall u :: 0 <= u < |s.pool.threads| && u != t ==> s'.pool.threads[u] == s.pool.threads[u];
    assert s'.pool.threads[t].reader == s.pool.threads[t].reader;
  }

  /** The caller starts threads that wait, and takes a record only when it holds the lock. */
  lemma CallerFrame(s: State, s': State)
    requires Shape(s) && Next(s, CallerStep) == To(s')
    ensures |s.pool.threads| <= |s'.pool.threads| && s'.pool.rlocks == s.pool.rlocks
    ensures forall u :: 0 <= u < |s.pool.threads| ==> s'.pool.threads[u] == s.pool.threads[u]
    ensures forall u :: |s.pool.threads| <= u < |s'.pool.threads| ==> s'.pool.threads[u].pc == Waiting
    ensures s'.chan.queue == s.chan.queue || s.caller == FastPopping || s.caller == SlowPopping
  {
  }

  lemma CallerKeepsOwned(s: State, s': State)
    requires Shape(s) && QueueLock(s.pool.threads, s.chan.lock, s.caller)
    requires Owned(s) && Next(s, CallerStep) == To(s') && Shape(s')
    ensures Owned(s')
  {
    CallerFrame(s, s');
    hide Next, Shape;
    forall u | 0 <= u < |s.pool.threads| && HasAppended(s.pool.threads[u].pc) ensures s'.chan.queue == s.chan.queue {
      assert s.chan.lock == ByThread(u);
    }
  }

  lemma StepKeepsOwned(s: State, a: Action, s': State)
    requires Inv(s) && Owned(s) && Next(s, a) == To(s') && Shape(s')
    ensures Owned(s')
  {
    match a
    case CallRead =>
    case CallerStep => CallerKeepsOwned(s, s');
    case ThreadStep(t) =>
      if UsesQueue(s.pool.threads[t].pc) { QueueStepKeepsOwned(s, t, s'); } else { PoolStepKeepsOwned(s, t, s'.pool); }
    case ReaderReturns(t, result) => ReaderKeepsOwned(s, t, result, s');
  }

  lemma {:induction false} RunKeepsOwned(s: State, acts: seq<Action>, s': State)
    requires Inv(s) && Owned(s) && Run(s, acts) == To(s')
    ensures Inv(s') && Owned(s')
    decreases |acts|
  {
    if acts != [] {
      var before := Run(s, acts[..|acts| - 1]).state;
      RunKeepsOwned(s, acts[..|acts| - 1], before);
      StepKeepsInv(before, acts[|acts| - 1], s');
      StepKeepsOwned(before, acts[|acts| - 1], s');
    }
  }

  lemma ReachableOwned(n: nat, s: State)
    requires Reachable(n, s)
    ensures Inv(s) && Owned(s)
  {
    var acts :| Run(Init(n), acts) == To(s);
    ReachableInv(n, Init(n)) by { assert Run(Init(n), []) == To(Init(n)); }
    RunKeepsOwned(Init(n), acts, s);
  }

  // ---- What a return can come from ----

  predicate AnyAppending(threads: seq<Thread>) { exists t :: 0 <= t < |threads| && threads[t].pc.Appending? }

  predicate AnyHolding(threads: seq<Thread>) { exists t :: 0 <= t < |threads| && threads[t].pc.Holding? }

  predicate AnyReading(threads: seq<Thread>) { exists t :: 0 <= t < |threads| && threads[t].pc == Reading }

  predicate AnyLocking(threads: seq<Thread>) { exists t :: 0 <= t < |threads| && threads[t].pc == Locking }

  predicate AnyChecking(threads: seq<Thread>) { exists t :: 0 <= t < |threads| && threads[t].pc == Checking }

  predicate AnyWaiting(threads: seq<Thread>) { exists t :: 0 <= t < |threads| && threads[t].pc == Waiting }

  /** Every EOF flag is up, or about to be. */
  predicate EofComing(p: Pool)
    requires PoolShape(p)
  {
    forall i :: 0 <= i < |p.eof| ==> p.eof[i] || (p.slots[i].Some? && p.threads[p.slots[i].value].pc == GotEof)
  }

  /** A record has been taken or is queued, a thread has one or may get one from its reader, a thread is about to
      see that one is needed, or all readers have come to their end. */
  predicate MayReturn(s: State)
    requires Shape(s)
  {
    || InHand(s.caller) != [] || s.chan.queue != []
    || AnyAppending(s.pool.threads) || AnyHolding(s.pool.threads)
    || AnyReading(s.pool.threads) || AnyLocking(s.pool.threads)
    || (s.chan.need && (AnyChecking(s.pool.threads) || AnyWaiting(s.pool.threads)))
    || EofComing(s.pool)
  }

  ghost predicate CanReturn(s: State) {
    exists acts, s' :: Run(s, acts) == To(s') && s'.obs.outcomes != s.obs.outcomes
  }

  // ---- A read() that waits for ever ----

  lemma StuckCallerStep(s: State, s': State)
    requires Inv(s) && Waits(s.caller) && !MayReturn(s) && Next(s, CallerStep) == To(s')
    ensures Waits(s'.caller) && s'.pool == s.pool && s'.chan.queue == [] && s'.chan.need == s.chan.need
    ensures InHand(s'.caller) == [] && s'.obs == s.obs
  {
    var i :| 0 <= i < |s.pool.eof| && !s.pool.eof[i];
  }

  /** A thread that can move at all is on its way out, or one whose end of file is not enough. */
  lemma StuckThreads(s: State, t: nat)
    requires Inv(s) && Owned(s) && !MayReturn(s) && t < |s.pool.threads|
    ensures var pc := s.pool.threads[t].pc;
            && !UsesQueue(pc) && pc != Reading && pc != Locking
            && (pc == Waiting || pc == Checking ==> !s.chan.need)
  {
    var pc := s.pool.threads[t].pc;
    hide Inv, EofComing;
    assert pc.Appending? ==> AnyAppending(s.pool.threads);
    assert pc.Holding? ==> AnyHolding(s.pool.threads);
    assert pc == Reading ==> AnyReading(s.pool.threads);
    assert pc == Locking ==> AnyLocking(s.pool.threads);
    assert pc == Checking ==> AnyChecking(s.pool.threads);
    assert pc == Waiting ==> AnyWaiting(s.pool.threads);
  }

  lemma StuckPoolStep(s: State, t: nat, p': Pool)
    requires Inv(s) && Owned(s) && !MayReturn(s) && t < |s.pool.threads| && PoolShape(p')
    requires PoolNext(s.pool, s.chan.need, t) == Some(p')
    ensures forall u :: 0 <= u < |p'.threads| && u != t ==> p'.threads[u] == s.pool.threads[u]
    ensures |p'.threads| == |s.pool.threads|
    ensures var pc := p'.threads[t].pc; Leaving(pc) || (pc == Checking && !s.chan.need)
    ensures !EofComing(p')
  {
    StuckThreads(s, t);
    assert OneLiveThread(s.pool) && !EofComing(s.pool);
    hide Inv, Owned, MayReturn, EofComing;
    PoolNextFrame(s.pool, s.chan.need, t, p');
    EofNotComing(s.pool, s.chan.need, t, p');
  }

  lemma EofNotComing(p: Pool, need: bool, t: nat, p': Pool)
    requires PoolShape(p) && PoolShape(p') && OneLiveThread(p) && !EofComing(p) && t < |p.threads|
    requires p.threads[t].pc != Reading && PoolNext(p, need, t) == Some(p')
    ensures !EofComing(p')
  {
    var i :| 0 <= i < |p.eof| && !p.eof[i] && !(p.slots[i].Some? && p.threads[p.slots[i].value].pc == GotEof);
    EofStaysDown(p, need, t, p', i);
    assert !p'.eof[i] && !(p'.slots[i].Some? && p'.threads[p'.slots[i].value].pc == GotEof);
  }

  lemma EofStaysDown(p: Pool, need: bool, t: nat, p': Pool, i: nat)
    requires PoolShape(p) && PoolShape(p') && OneLiveThread(p) && t < |p.threads| && i < |p.eof| && !p.eof[i]
    requires !(p.slots[i].Some? && p.threads[p.slots[i].value].pc == GotEof)
    requires p.threads[t].pc != Reading && PoolNext(p, need, t) == Some(p')
    ensures !p'.eof[i] && p'.slots == p.slots
    ensures !(p'.slots[i].Some? && p'.threads[p'.slots[i].value].pc == GotEof)
  {
    assert p.threads[t].pc == GotEof ==> p.slots[p.threads[t].reader] == Some(t);
    assert forall u :: 0 <= u < |p.threads| && u != t ==> p'.threads[u] == p.threads[u];
    hide OneLiveThread;
  }

  lemma StuckThreadStep(s: State, t: nat, s': State)
    requires Inv(s) && Owned(s) && !MayReturn(s) && Next(s, ThreadStep(t)) == To(s') && Shape(s')
    ensures s'.caller == s.caller && s'.chan == s.chan && s'.obs == s.obs && !MayReturn(s')
  {
    StuckThreads(s, t);
    StuckPoolStep(s, t, s'.pool);
    assert s'.pool == PoolNext(s.pool, s.chan.need, t).value && s' == s.(pool := s'.pool);
    hide Inv, Owned, Next, MayReturn, EofComing;
    StillStuck(s, t, s');
  }

  lemma StillStuck(s: State, t: nat, s': State)
    requires Shape(s) && Shape(s') && !MayReturn(s) && s' == s.(pool := s'.pool) && !EofComing(s'.pool)
    requires t < |s.pool.threads| == |s'.pool.threads|
    requires forall u :: 0 <= u < |s.pool.threads| && u != t ==> s'.pool.threads[u] == s.pool.threads[u]
    requires var pc := s'.pool.threads[t].pc; Leaving(pc) || (pc == Checking && !s.chan.need)
    ensures !MayReturn(s')
  {
    hide Shape, EofComing;
  }

  lemma StuckNoRead(s: State, t: nat, result: Option<Record>)
    requires Inv(s) && Owned(s) && !MayReturn(s)
    ensures Next(s, ReaderReturns(t, result)) == Blocked
  {
    if t < |s.pool.threads| { StuckThreads(s, t); }
  }

  lemma StuckStep(s: State, a: Action, s': State)
    requires Inv(s) && Owned(s) && Waits(s.caller) && !MayReturn(s) && Next(s, a) == To(s') && Shape(s')
    ensures Waits(s'.caller) && !MayReturn(s') && s'.obs == s.obs
  {
    match a
    case CallRead =>
    case CallerStep => StuckCallerStep(s, s');
    case ThreadStep(t) => StuckThreadStep(s, t, s');
    case ReaderReturns(t, result) => StuckNoRead(s, t, result);
  }

  /** Nothing that can happen lets it return, and no reader is read any more. */
  lemma {:induction false} StuckForEver(s: State, acts: seq<Action>, s': State)
    requires Inv(s) && Owned(s) && Waits(s.caller) && !MayReturn(s) && Run(s, acts) == To(s')
    ensures Inv(s') && Owned(s') && Waits(s'.caller) && !MayReturn(s') && s'.obs == s.obs
    decreases |acts|
  {
    if acts != [] {
      var before := Run(s, acts[..|acts| - 1]).state;
      StuckForEver(s, acts[..|acts| - 1], before);
      StepKeepsInv(before, acts[|acts| - 1], s');
      StepKeepsOwned(before, acts[|acts| - 1], s');
      StuckStep(before, acts[|acts| - 1], s');
    }
  }

  // ---- A read() that can still return ----

  predicate Queued(s: State) { InHand(s.caller) != [] || s.chan.queue != [] }

  /** How far the nearest record is; 7 is for no record, when only the readers' ends can help. */
  function Stage(s: State): nat {
    var threads := s.pool.threads;
    if Queued(s) then 0
    else if AnyAppending(threads) then 1
    else if AnyHolding(threads) then 2
    else if AnyReading(threads) then 3
    else if AnyLocking(threads) then 4
    else if s.chan.need && AnyChecking(threads) then 5
    else if s.chan.need && AnyWaiting(threads) then 6
    else 7
  }

  /** How long a thread still holds the queue lock. */
  function LockRank(s: State): nat {
    if s.chan.lock.ByThread? && s.chan.lock.t < |s.pool.threads| then
      match s.pool.threads[s.chan.lock.t].pc
      case Appending(_) => 4
      case SettingHas => 3
      case ClearingNeed => 2
      case Unlocking => 1
      case _ => 0
    else 0
  }

  /** How many of the first n flags are down. */
  function Down(eof: seq<bool>, n: nat): nat
    requires n <= |eof|
  {
    if n == 0 then 0 else Down(eof, n - 1) + if eof[n - 1] then 0 else 1
  }

  /** How far the caller is from returning a queued record, or from a scan of all the flags. */
  function Dist(pc: CallerPc, n: nat, queued: bool): nat {
    match pc
    case Scanning(i) => (if queued then 6 else 1) + if i < n then n - i else 0
    case WaitingHas => n + if queued then 7 else 2
    case SlowReleasing(_) => 1
    case SlowPopped(_) => 2
    case SlowPopping => 3
    case SlowTesting => if queued then 4 else n + 5
    case SlowLocking => if queued then 5 else n + 6
    case SlowClearing => n + 4
    case SlowUnlocking => n + 3
    case _ => 0
  }

  function DistOf(s: State): nat { Dist(s.caller, |s.pool.eof|, Queued(s)) }

  function DownOf(s: State): nat { Down(s.pool.eof, |s.pool.eof|) }

  predicate Smaller(s: State, t: State) {
    || Stage(s) < Stage(t)
    || (Stage(s) == Stage(t) && LockRank(s) < LockRank(t))
    || (Stage(s) == Stage(t) && LockRank(s) == LockRank(t) && DownOf(s) < DownOf(t))
    || (Stage(s) == Stage(t) && LockRank(s) == LockRank(t) && DownOf(s) == DownOf(t) && DistOf(s) < DistOf(t))
  }

  /** A step after which read() has returned, or still may and is nearer to it. */
  predicate Advances(s: State, s': State)
    requires Shape(s')
  {
    || s'.obs.outcomes != s.obs.outcomes
    || (Waits(s'.caller) && MayReturn(s') && Smaller(s', s))
  }

  lemma StageMayReturn(s: State)
    requires Shape(s) && Stage(s) < 7
    ensures MayReturn(s)
  {
  }

  /** A record is queued: whoever holds the lock goes on, or the caller does. */
  lemma LockHolderAdvances(s: State, s': State)
    requires Inv(s) && Owned(s) && Waits(s.caller) && Queued(s) && s.chan.lock.ByThread?
    requires Next(s, ThreadStep(s.chan.lock.t)) == To(s') && Shape(s')
    ensures Advances(s, s')
  {
    assert InQueueLock(s.pool.threads[s.chan.lock.t].pc);
    hide Inv, PoolInv, Down;
    assert Queued(s') && LockRank(s') < LockRank(s);
  }

  lemma CallerTakesQueued(s: State, s': State)
    requires Inv(s) && Waits(s.caller) && Queued(s) && !s.chan.lock.ByThread?
    requires Next(s, CallerStep) == To(s') && Shape(s')
    ensures Advances(s, s')
  {
    CallerNearsQueue(s, s');
    hide Inv, Next, Down, Dist;
  }

  lemma CallerNearsQueue(s: State, s': State)
    requires Shape(s) && Announced(s.pool.threads, s.chan, s.caller) && Waits(s.caller) && Queued(s)
    requires CallerHoldsLock(s.caller) ==> s.chan.lock == Caller
    requires !s.chan.lock.ByThread? && Next(s, CallerStep) == To(s')
    ensures s'.obs.outcomes == s.obs.outcomes ==>
              && s'.pool == s.pool && !s'.chan.lock.ByThread? && Queued(s') && Waits(s'.caller)
              && DistOf(s') < DistOf(s)
  {
    hide PoolShape;
  }

  lemma CallerLeavesSection(s: State, s': State)
    requires Shape(s) && Announced(s.pool.threads, s.chan, s.caller) && Waits(s.caller) && !Queued(s)
    requires CallerHoldsLock(s.caller) && s.chan.lock == Caller && Next(s, CallerStep) == To(s')
    ensures s'.pool == s.pool && s'.chan.need == s.chan.need && s'.chan.queue == s.chan.queue && InHand(s'.caller) == []
    ensures Waits(s'.caller) && !s'.chan.lock.ByThread?
    ensures forall n :: Dist(s'.caller, n, false) < Dist(s.caller, n, false)
  {
    assert s.caller == SlowTesting || s.caller == SlowClearing || s.caller == SlowUnlocking;
  }

  /** Nothing is queued and the caller holds the lock: it lets go of it. */
  lemma CallerLetsGo(s: State, s': State)
    requires Inv(s) && Waits(s.caller) && MayReturn(s) && !Queued(s) && s.chan.lock == Caller
    requires Next(s, CallerStep) == To(s') && Shape(s')
    ensures Advances(s, s')
  {
    hide Next, PoolInv, Announced, EofSeen, Conserved, Down, Dist;
    CallerLeavesSection(s, s');
    hide Inv, QueueLock;
    SameStage(s, s');
  }

  lemma SameStage(s: State, s': State)
    requires s'.pool == s.pool && s'.chan.need == s.chan.need && s'.chan.queue == s.chan.queue
    requires InHand(s.caller) == [] && InHand(s'.caller) == []
    ensures Stage(s') == Stage(s) && DownOf(s') == DownOf(s)
    ensures Shape(s) && Shape(s') ==> MayReturn(s') == MayReturn(s)
    ensures Queued(s') == Queued(s)
  {
  }

  /** What a thread's step leaves alone. */
  predicate OnlyThread(s: State, s': State) {
    s'.caller == s.caller && s'.chan.queue == s.chan.queue && s'.chan.need == s.chan.need &&
    |s'.pool.threads| == |s.pool.threads|
  }

  predicate Nearer(stage: nat, pc: ThreadPc, need: bool) {
    || (stage > 1 && pc.Appending?)
    || (stage > 2 && pc.Holding?)
    || (stage > 3 && pc == Reading)
    || (stage > 4 && pc == Locking)
    || (stage > 5 && pc == Checking && need)
  }

  /** With the queue lock free and nothing queued, a thread's own step brings the nearest record nearer. */
  lemma ThreadAdvances(s: State, t: nat, a: Action, s': State)
    requires Inv(s) && Waits(s.caller) && !Queued(s) && t < |s.pool.threads| && Next(s, a) == To(s') && Shape(s')
    requires OnlyThread(s, s') && Nearer(Stage(s), s'.pool.threads[t].pc, s.chan.need)
    ensures Advances(s, s')
  {
    var (threads, pc) := (s'.pool.threads, s'.pool.threads[t].pc);
    assert pc.Appending? ==> AnyAppending(threads);
    assert pc.Holding? ==> AnyHolding(threads);
    assert pc == Reading ==> AnyReading(threads);
    assert pc == Locking ==> AnyLocking(threads);
    assert pc == Checking ==> AnyChecking(threads);
    hide Inv, Next, AnyAppending, AnyHolding, AnyReading, AnyLocking, AnyChecking, AnyWaiting;
    StageMayReturn(s');
  }

  /** The lock is free when nothing is queued or appended and the caller does not hold it. */
  lemma LockIsFree(s: State)
    requires Inv(s) && Owned(s) && !Queued(s) && !AnyAppending(s.pool.threads) && s.chan.lock != Caller
    ensures s.chan.lock == Free
  {
    forall t | 0 <= t < |s.pool.threads| ensures !InQueueLock(s.pool.threads[t].pc) {
      assert !s.pool.threads[t].pc.Appending? && !HasAppended(s.pool.threads[t].pc);
    }
  }

  /** Only one thread may want a reader's lock. */
  lemma ReaderLockIsFree(s: State, t: nat)
    requires Inv(s) && Owned(s) && t < |s.pool.threads| && s.pool.threads[t].pc == Locking
    ensures s.pool.rlocks[s.pool.threads[t].reader].None?
  {
    var i := s.pool.threads[t].reader;
    assert s.pool.slots[i] == Some(t);
    forall u | 0 <= u < |s.pool.threads| && s.pool.threads[u].reader == i ensures !InReaderLock(s.pool.threads[u].pc) {
      assert Live(s.pool.threads[u]) ==> u == t;
    }
  }

  lemma StageAdvances(s: State, t: nat, a: Action)
    requires Inv(s) && Waits(s.caller) && !Queued(s) && t < |s.pool.threads| && Next(s, a).To?
    requires OnlyThread(s, Next(s, a).state)
    requires Nearer(Stage(s), Next(s, a).state.pool.threads[t].pc, s.chan.need)
    ensures Inv(Next(s, a).state) && Advances(s, Next(s, a).state)
  {
    hide Next, PoolInv, QueueLock, Announced, EofSeen, Conserved, Stage, Advances, Queued, Waits;
    StepKeepsInv(s, a, Next(s, a).state);
    ThreadAdvances(s, t, a, Next(s, a).state);
  }

  lemma PickHolder(s: State) returns (t: nat)
    requires Stage(s) == 2
    ensures !Queued(s) && t < |s.pool.threads| && s.pool.threads[t].pc.Holding?
  {
    t :| 0 <= t < |s.pool.threads| && s.pool.threads[t].pc.Holding?;
  }

  lemma HolderSteps(s: State, t: nat)
    requires Shape(s) && t < |s.pool.threads| && s.pool.threads[t].pc.Holding?
    requires s.chan.lock == Free
    ensures Next(s, ThreadStep(t)).To?
    ensures OnlyThread(s, Next(s, ThreadStep(t)).state) && Next(s, ThreadStep(t)).state.pool.threads[t].pc.Appending?
  {
  }

  /** A thread with a record takes the lock. */
  lemma HolderAdvances(s: State) returns (a: Action)
    requires Inv(s) && Owned(s) && Waits(s.caller) && Stage(s) == 2 && s.chan.lock == Free
    ensures Next(s, a).To?
    ensures Inv(Next(s, a).state) && Advances(s, Next(s, a).state)
  {
    hide PoolInv, QueueLock, Announced, EofSeen, Conserved, Owned, Next, Advances, OnlyThread, Stage, Queued;
    var t := PickHolder(s);
    a := ThreadStep(t);
    HolderSteps(s, t);
    StageAdvances(s, t, a);
  }

  lemma PickReader(s: State) returns (t: nat)
    requires Stage(s) == 3
    ensures !Queued(s) && t < |s.pool.threads| && s.pool.threads[t].pc == Reading
  {
    t :| 0 <= t < |s.pool.threads| && s.pool.threads[t].pc == Reading;
  }

  lemma ReaderSteps(s: State, t: nat)
    requires Shape(s) && t < |s.pool.threads| && s.pool.threads[t].pc == Reading
    ensures Next(s, ReaderReturns(t, Some(""))).To?
    ensures OnlyThread(s, Next(s, ReaderReturns(t, Some(""))).state) && Next(s, ReaderReturns(t, Some(""))).state.pool.threads[t].pc.Holding?
  {
  }

  /** A reader that is being read may have a record. */
  lemma ReaderAdvances(s: State) returns (a: Action)
    requires Inv(s) && Owned(s) && Waits(s.caller) && Stage(s) == 3 && s.chan.lock == Free
    ensures Next(s, a).To?
    ensures Inv(Next(s, a).state) && Advances(s, Next(s, a).state)
  {
    hide PoolInv, QueueLock, Announced, EofSeen, Conserved, Owned, Next, Advances, OnlyThread, Stage, Queued;
    var t := PickReader(s);
    a := ReaderReturns(t, Some(""));
    ReaderSteps(s, t);
    StageAdvances(s, t, a);
  }

  lemma PickLocker(s: State) returns (t: nat)
    requires Stage(s) == 4
    ensures !Queued(s) && t < |s.pool.threads| && s.pool.threads[t].pc == Locking
  {
    t :| 0 <= t < |s.pool.threads| && s.pool.threads[t].pc == Locking;
  }

  lemma LockerSteps(s: State, t: nat)
    requires Shape(s) && t < |s.pool.threads| && s.pool.threads[t].pc == Locking
    requires s.pool.rlocks[s.pool.threads[t].reader].None?
    ensures Next(s, ThreadStep(t)).To?
    ensures OnlyThread(s, Next(s, ThreadStep(t)).state) && Next(s, ThreadStep(t)).state.pool.threads[t].pc == Reading
  {
  }

  /** A thread takes its reader's lock. */
  lemma LockerAdvances(s: State) returns (a: Action)
    requires Inv(s) && Owned(s) && Waits(s.caller) && Stage(s) == 4 && s.chan.lock == Free
    ensures Next(s, a).To?
    ensures Inv(Next(s, a).state) && Advances(s, Next(s, a).state)
  {
    hide PoolInv, QueueLock, Announced, EofSeen, Conserved, Owned, Next, Advances, OnlyThread, Stage, Queued;
    var t := PickLocker(s);
    a := ThreadStep(t);
    ReaderLockIsFree(s, t);
    LockerSteps(s, t);
    StageAdvances(s, t, a);
  }

  lemma PickChecker(s: State) returns (t: nat)
    requires Stage(s) == 5
    ensures !Queued(s) && t < |s.pool.threads| && s.pool.threads[t].pc == Checking && s.chan.need
  {
    t :| 0 <= t < |s.pool.threads| && s.pool.threads[t].pc == Checking;
  }

  lemma CheckerSteps(s: State, t: nat)
    requires Shape(s) && t < |s.pool.threads| && s.pool.threads[t].pc == Checking && s.chan.need
    ensures Next(s, ThreadStep(t)).To?
    ensures OnlyThread(s, Next(s, ThreadStep(t)).state) && Next(s, ThreadStep(t)).state.pool.threads[t].pc == Locking
  {
  }

  /** A thread sees that a record is needed. */
  lemma CheckerAdvances(s: State) returns (a: Action)
    requires Inv(s) && Owned(s) && Waits(s.caller) && Stage(s) == 5 && s.chan.lock == Free
    ensures Next(s, a).To?
    ensures Inv(Next(s, a).state) && Advances(s, Next(s, a).state)
  {
    hide PoolInv, QueueLock, Announced, EofSeen, Conserved, Owned, Next, Advances, OnlyThread, Stage, Queued;
    var t := PickChecker(s);
    a := ThreadStep(t);
    CheckerSteps(s, t);
    StageAdvances(s, t, a);
  }

  lemma PickWaiter(s: State) returns (t: nat)
    requires Stage(s) == 6
    ensures !Queued(s) && t < |s.pool.threads| && s.pool.threads[t].pc == Waiting && s.chan.need
  {
    t :| 0 <= t < |s.pool.threads| && s.pool.threads[t].pc == Waiting;
  }

  lemma WaiterSteps(s: State, t: nat)
    requires Shape(s) && t < |s.pool.threads| && s.pool.threads[t].pc == Waiting
    ensures Next(s, ThreadStep(t)).To?
    ensures OnlyThread(s, Next(s, ThreadStep(t)).state) && Next(s, ThreadStep(t)).state.pool.threads[t].pc == Checking
  {
  }

  /** A thread wakes up. */
  lemma WaiterAdvances(s: State) returns (a: Action)
    requires Inv(s) && Owned(s) && Waits(s.caller) && Stage(s) == 6 && s.chan.lock == Free
    ensures Next(s, a).To?
    ensures Inv(Next(s, a).state) && Advances(s, Next(s, a).state)
  {
    hide PoolInv, QueueLock, Announced, EofSeen, Conserved, Owned, Next, Advances, OnlyThread, Stage, Queued;
    var t := PickWaiter(s);
    a := ThreadStep(t);
    WaiterSteps(s, t);
    StageAdvances(s, t, a);
  }

  lemma SomeThreadAdvances(s: State) returns (a: Action)
    requires Inv(s) && Owned(s) && Waits(s.caller) && 1 < Stage(s) < 7 && s.chan.lock == Free
    ensures Next(s, a).To?
    ensures Inv(Next(s, a).state) && Advances(s, Next(s, a).state)
  {
    hide Inv, Owned, Next, Advances;
    if Stage(s) == 2 { a := HolderAdvances(s); }
    else if Stage(s) == 3 { a := ReaderAdvances(s); }
    else if Stage(s) == 4 { a := LockerAdvances(s); }
    else if Stage(s) == 5 { a := CheckerAdvances(s); }
    else { a := WaiterAdvances(s); }
  }

  lemma PickAppender(s: State) returns (t: nat)
    requires Stage(s) == 1
    ensures t < |s.pool.threads| && s.pool.threads[t].pc.Appending?
  {
    t :| 0 <= t < |s.pool.threads| && s.pool.threads[t].pc.Appending?;
  }

  /** The thread that holds the lock to append does so. */
  lemma AppenderAdvances(s: State) returns (a: Action)
    requires Inv(s) && Owned(s) && Waits(s.caller) && Stage(s) == 1
    ensures Next(s, a).To?
    ensures Inv(Next(s, a).state) && Advances(s, Next(s, a).state)
  {
    hide PoolInv, QueueLock, Announced, EofSeen, Conserved, Owned, Next, Advances, Stage;
    var t := PickAppender(s);
    a := ThreadStep(t);
    AppendSteps(s, t);
    StepKeepsInv(s, a, Next(s, a).state);
    NowQueued(s, Next(s, a).state);
  }

  lemma AppendSteps(s: State, t: nat)
    requires Shape(s) && t < |s.pool.threads| && s.pool.threads[t].pc.Appending?
    ensures Next(s, ThreadStep(t)).To?
    ensures var s' := Next(s, ThreadStep(t)).state; s'.caller == s.caller && s'.chan.queue != []
  {
  }

  lemma NowQueued(s: State, s': State)
    requires Shape(s') && Stage(s) == 1 && Waits(s'.caller) && s'.chan.queue != []
    ensures Advances(s, s')
  {
  }

  // ---- Only the readers' ends are left ----

  lemma {:induction false} DownUpdate(eof: seq<bool>, n: nat, i: nat)
    requires i < n <= |eof| && !eof[i]
    ensures Down(eof[i := true], n) == Down(eof, n) - 1
  {
    if i < n - 1 { DownUpdate(eof, n - 1, i); } else { DownSame(eof, n - 1, i); }
  }

  lemma {:induction false} DownSame(eof: seq<bool>, n: nat, i: nat)
    requires n <= i < |eof|
    ensures Down(eof[i := true], n) == Down(eof, n)
  {
    if n > 0 { DownSame(eof, n - 1, i); }
  }

  /** A thread that has seen the end of file raises its flag. */
  lemma EofAdvances(s: State, i: nat) returns (a: Action)
    requires Inv(s) && Owned(s) && Waits(s.caller) && Stage(s) == 7 && EofComing(s.pool) && s.chan.lock == Free
    requires i < |s.pool.eof| && !s.pool.eof[i]
    ensures Next(s, a).To?
    ensures Inv(Next(s, a).state) && Advances(s, Next(s, a).state)
  {
    var t := s.pool.slots[i].value;
    a := ThreadStep(t);
    var s' := Next(s, a).state;
    StepKeepsInv(s, a, s');
    DownUpdate(s.pool.eof, |s.pool.eof|, i);
    assert s'.pool.eof == s.pool.eof[i := true] && |s'.pool.eof| == |s.pool.eof|;
    assert forall u :: 0 <= u < |s.pool.threads| && u != t ==> s'.pool.threads[u] == s.pool.threads[u];
    assert s'.pool.threads[t].pc == Exiting && s'.chan == s.chan && s'.caller == s.caller && s'.pool.slots == s.pool.slots;
    EofStillComing(s.pool, s'.pool, t, i);
    hide Inv, Next, Down;
    StillLastStage(s, s', t);
  }

  lemma EofStillComing(p: Pool, p': Pool, t: nat, i: nat)
    requires PoolShape(p) && PoolShape(p') && EofComing(p) && t < |p.threads| == |p'.threads| && i < |p.eof|
    requires p.slots[i] == Some(t) && p'.slots == p.slots && p'.eof == p.eof[i := true]
    requires forall u :: 0 <= u < |p.threads| && u != t ==> p'.threads[u] == p.threads[u]
    ensures EofComing(p')
  {
    forall j | 0 <= j < |p.eof| && j != i && !p.eof[j] ensures p.slots[j].value != t {
      assert p.threads[p.slots[j].value].reader == j;
    }
  }

  lemma StillLastStage(s: State, s': State, t: nat)
    requires t < |s.pool.threads| == |s'.pool.threads| && s'.pool.threads[t].pc == Exiting
    requires s'.chan == s.chan && s'.caller == s.caller && Stage(s) == 7
    requires forall u :: 0 <= u < |s.pool.threads| && u != t ==> s'.pool.threads[u] == s.pool.threads[u]
    ensures Stage(s') == 7
  {
  }

  /** All flags are up: the caller scans them and returns None. */
  lemma ScanAdvances(s: State) returns (a: Action)
    requires Inv(s) && Owned(s) && Waits(s.caller) && Stage(s) == 7 && s.chan.lock == Free
    requires forall i :: 0 <= i < |s.pool.eof| ==> s.pool.eof[i]
    ensures Next(s, a).To?
    ensures Inv(Next(s, a).state) && Advances(s, Next(s, a).state)
  {
    a := CallerStep;
    ScanStep(s);
    StepKeepsInv(s, a, Next(s, a).state);
  }

  lemma ScanStep(s: State)
    requires Shape(s) && Waits(s.caller) && Stage(s) == 7 && s.chan.lock == Free && EofComing(s.pool)
    requires CallerHoldsLock(s.caller) <==> s.chan.lock == Caller
    requires forall i :: 0 <= i < |s.pool.eof| ==> s.pool.eof[i]
    ensures Next(s, CallerStep).To?
    ensures Shape(Next(s, CallerStep).state) && Advances(s, Next(s, CallerStep).state)
  {
    var s' := Next(s, CallerStep).state;
    if s'.obs.outcomes == s.obs.outcomes {
      assert s'.pool == s.pool && s'.chan.queue == s.chan.queue && s'.chan.need == s.chan.need;
      assert Stage(s') == 7 && LockRank(s') == LockRank(s) == 0;
    }
  }

  // ---- Exactly when ----

  /** Wherever read() may still return, some step brings it nearer. */
  lemma SomeStepAdvances(s: State) returns (a: Action)
    requires Inv(s) && Owned(s) && Waits(s.caller) && MayReturn(s)
    ensures Next(s, a).To?
    ensures Inv(Next(s, a).state) && Advances(s, Next(s, a).state)
  {
    if Queued(s) {
      a := QueuedAdvances(s);
    } else if Stage(s) == 1 {
      a := AppenderAdvances(s);
    } else if s.chan.lock == Caller {
      a := CallerStep;
      CallerCanLetGo(s);
      StepKeepsInv(s, a, Next(s, a).state);
      CallerLetsGo(s, Next(s, a).state);
    } else {
      LockIsFree(s);
      if Stage(s) < 7 {
        a := SomeThreadAdvances(s);
      } else if i :| 0 <= i < |s.pool.eof| && !s.pool.eof[i] {
        a := EofAdvances(s, i);
      } else {
        a := ScanAdvances(s);
      }
    }
  }

  lemma CallerCanLetGo(s: State)
    requires Inv(s) && Waits(s.caller) && !Queued(s) && s.chan.lock == Caller
    ensures Next(s, CallerStep).To?
  {
  }

  lemma QueuedAdvances(s: State) returns (a: Action)
    requires Inv(s) && Owned(s) && Waits(s.caller) && Queued(s)
    ensures Next(s, a).To?
    ensures Inv(Next(s, a).state) && Advances(s, Next(s, a).state)
  {
    if s.chan.lock.ByThread? {
      a := ThreadStep(s.chan.lock.t);
      assert InQueueLock(s.pool.threads[s.chan.lock.t].pc);
      StepKeepsInv(s, a, Next(s, a).state);
      LockHolderAdvances(s, Next(s, a).state);
    } else {
      a := CallerStep;
      assert Next(s, a).To?;
      StepKeepsInv(s, a, Next(s, a).state);
      CallerTakesQueued(s, Next(s, a).state);
    }
  }

  lemma {:induction false} RunFrom(s: State, a: Action, acts: seq<Action>)
    requires Shape(s) && Next(s, a).To?
    ensures Run(s, [a] + acts) == Run(Next(s, a).state, acts)
    decreases |acts|
  {
    var all := [a] + acts;
    if acts == [] {
      assert all[..0] == [] && Run(s, []) == To(s);
    } else {
      assert all[..|all| - 1] == [a] + acts[..|acts| - 1];
      RunFrom(s, a, acts[..|acts| - 1]);
    }
  }

  lemma CanReturnLater(s: State, a: Action, s': State)
    requires Shape(s) && Next(s, a) == To(s')
    requires s'.obs.outcomes != s.obs.outcomes || CanReturn(s')
    ensures CanReturn(s)
  {
    if s'.obs.outcomes != s.obs.outcomes {
      RunFrom(s, a, []);
      assert Run(s, [a] + []) == To(s');
    } else {
      var acts, s'' :| Run(s', acts) == To(s'') && s''.obs.outcomes != s'.obs.outcomes;
      RunFrom(s, a, acts);
      assert Run(s, [a] + acts) == To(s'');
    }
  }

  /** So by steps that each bring it nearer it returns. */
  lemma {:induction false} Progress(s: State)
    requires Inv(s) && Owned(s) && Waits(s.caller) && MayReturn(s)
    ensures CanReturn(s)
    decreases Stage(s), LockRank(s), DownOf(s), DistOf(s)
  {
    hide PoolInv, QueueLock, Announced, EofSeen, Conserved, Shape, Owned, Next, MayReturn, Waits, CanReturn;
    hide Stage, LockRank, DownOf, DistOf;
    var a := SomeStepAdvances(s);
    var s' := Next(s, a).state;
    StepKeepsOwned(s, a, s');
    if s'.obs.outcomes == s.obs.outcomes { Progress(s'); }
    CanReturnLater(s, a, s');
  }

  /** A waiting read() can still return exactly when a record has been taken, is queued or is in a thread's
      hands, when a reader is being read or about to be, when a record is asked for and a thread is there to see
      that, or when all readers have come to their end. Otherwise it waits for ever. */
  lemma CanReturnIff(n: nat, s: State)
    requires Reachable(n, s) && Waits(s.caller)
    ensures Shape(s) && (CanReturn(s) <==> MayReturn(s))
  {
    ReachableOwned(n, s);
    if MayReturn(s) {
      Progress(s);
    } else {
      forall acts, s' | Run(s, acts) == To(s') ensures s'.obs.outcomes == s.obs.outcomes {
        StuckForEver(s, acts, s');
      }
    }
  }

  // ---- A new read() can always return ----

  /** A live thread is in the slot of every reader below i that has not come to its end. */
  predicate Attended(p: Pool, i: nat)
    requires PoolShape(p)
  {
    forall j :: 0 <= j < i && j < |p.eof| && !p.eof[j] ==> p.slots[j].Some? && Live(p.threads[p.slots[j].value])
  }

  /** The restart loop leaves a reader that has not come to its end with a live thread, the one it had if that
      is alive, and changes nothing else. */
  lemma RestartAttends(s: State, i: nat, s': State)
    requires Shape(s) && s.caller == Restarting(i) && i < |s.pool.slots| && !s.pool.eof[i]
    requires Next(s, CallerStep) == To(s') && Shape(s')
    ensures s'.caller == Restarting(i + 1) && s'.chan == s.chan && s'.pool.eof == s.pool.eof
    ensures s'.pool.slots[i].Some? && Live(s'.pool.threads[s'.pool.slots[i].value])
    ensures s.pool.slots[i].Some? && Live(s.pool.threads[s.pool.slots[i].value]) ==> s'.pool == s.pool
    ensures forall j :: 0 <= j < |s.pool.slots| && j != i ==> s'.pool.slots[j] == s.pool.slots[j]
    ensures s.pool.threads <= s'.pool.threads
  {
    assert s.pool.eof[i := false] == s.pool.eof;
  }

  lemma RestartKeepsAttended(s: State, i: nat, s': State)
    requires Inv(s) && s.caller == Restarting(i) && i < |s.pool.slots| && Attended(s.pool, i)
    requires Next(s, CallerStep) == To(s') && Shape(s')
    ensures s'.caller == Restarting(i + 1) && s'.obs == s.obs && Attended(s'.pool, i + 1)
  {
    if s.pool.eof[i] {
      assert s.pool.slots[i].Some?;
      assert s'.pool == s.pool;
    } else {
      RestartAttends(s, i, s');
    }
  }

  /** Once a record is asked for, a live thread for every reader that has not come to its end is enough. */
  lemma AttendedMayReturn(s: State)
    requires Inv(s) && Owned(s) && s.chan.need && Attended(s.pool, |s.pool.eof|)
    ensures MayReturn(s)
  {
    if !EofComing(s.pool) {
      var i :| 0 <= i < |s.pool.eof| && !s.pool.eof[i] && !(s.pool.slots[i].Some? && s.pool.threads[s.pool.slots[i].value].pc == GotEof);
      var t := s.pool.slots[i].value;
      assert s.pool.threads[t].pc != Exiting;
      LiveMayReturn(s, t);
    }
  }

  lemma LiveMayReturn(s: State, t: nat)
    requires Shape(s) && StillQueued(s.pool.threads, s.chan.queue) && s.chan.need
    requires t < |s.pool.threads| && !Leaving(s.pool.threads[t].pc) && s.pool.threads[t].pc != GotEof
    ensures MayReturn(s)
  {
    var pc := s.pool.threads[t].pc;
    hide EofComing;
    assert pc.Appending? ==> AnyAppending(s.pool.threads);
    assert pc.Holding? ==> AnyHolding(s.pool.threads);
    assert pc == Reading ==> AnyReading(s.pool.threads);
    assert pc == Locking ==> AnyLocking(s.pool.threads);
    assert pc == Checking ==> AnyChecking(s.pool.threads);
    assert pc == Waiting ==> AnyWaiting(s.pool.threads);
  }

  /** From the restart loop on. */
  lemma {:induction false} RestartCanReturn(s: State, i: nat)
    requires Inv(s) && Owned(s) && s.caller == Restarting(i) && i <= |s.pool.slots| && Attended(s.pool, i)
    ensures CanReturn(s)
    decreases |s.pool.slots| - i
  {
    hide Owned, CanReturn, MayReturn, PoolInv, QueueLock, Announced, EofSeen, Conserved;
    var s' := Next(s, CallerStep).state;
    StepKeepsInv(s, CallerStep, s');
    StepKeepsOwned(s, CallerStep, s');
    if i < |s.pool.slots| {
      RestartKeepsAttended(s, i, s');
      assert |s'.pool.slots| == |s.pool.slots|;
      RestartCanReturn(s', i + 1);
    } else {
      AskingCanReturn(s');
    }
    CanReturnLater(s, CallerStep, s');
  }

  lemma AskingCanReturn(s: State)
    requires Inv(s) && Owned(s) && s.caller == SettingNeed && Attended(s.pool, |s.pool.eof|)
    ensures CanReturn(s)
  {
    hide Owned, CanReturn, MayReturn, PoolInv, QueueLock, Announced, EofSeen, Conserved;
    var s' := Next(s, CallerStep).state;
    StepKeepsInv(s, CallerStep, s');
    StepKeepsOwned(s, CallerStep, s');
    AttendedMayReturn(s');
    Progress(s');
    CanReturnLater(s, CallerStep, s');
  }

  /** From a state in which no call is under way. */
  lemma {:induction false} CallCanReturn(s: State)
    requires Inv(s) && Owned(s) && s.caller == Idle
    ensures CanReturn(s)
    decreases LockRank(s)
  {
    hide Owned, CanReturn, PoolInv, Announced, EofSeen, Conserved;
    if s.chan.lock.ByThread? {
      var a := ThreadStep(s.chan.lock.t);
      HolderNearsEnd(s);
      var s' := Next(s, a).state;
      StepKeepsInv(s, a, s');
      StepKeepsOwned(s, a, s');
      CallCanReturn(s');
      CanReturnLater(s, a, s');
    } else if s.chan.queue != [] {
      ReadTakesTheOldest(s);
      OutcomeIsReturn(s, [CallRead, CallerStep, CallerStep, CallerStep, CallerStep]);
    } else {
      var s1 := Next(s, CallRead).state;
      var s2 := Next(s1, CallerStep).state;
      StepKeepsInv(s, CallRead, s1);
      StepKeepsInv(s1, CallerStep, s2);
      StepKeepsOwned(s, CallRead, s1);
      StepKeepsOwned(s1, CallerStep, s2);
      RestartCanReturn(s2, 0);
      CanReturnLater(s1, CallerStep, s2);
      CanReturnLater(s, CallRead, s1);
    }
  }

  lemma HolderNearsEnd(s: State)
    requires Shape(s) && QueueLock(s.pool.threads, s.chan.lock, s.caller) && s.chan.lock.ByThread?
    ensures var step := Next(s, ThreadStep(s.chan.lock.t));
            step.To? && step.state.caller == s.caller && LockRank(step.state) < LockRank(s)
  {
    assert InQueueLock(s.pool.threads[s.chan.lock.t].pc);
  }

  lemma OutcomeIsReturn(s: State, acts: seq<Action>)
    requires Run(s, acts).To? && Run(s, acts).state.obs.outcomes != s.obs.outcomes
    ensures CanReturn(s)
  {
  }

  /** Whatever has happened, threads that timed out included, the next read() can return: none is stuck from
      the start, only from a time-out after it has looked which threads are alive. */
  lemma NextReadCanReturn(n: nat, s: State)
    requires Reachable(n, s) && s.caller == Idle
    ensures CanReturn(s)
  {
    ReachableOwned(n, s);
    hide CanReturn;
    CallCanReturn(s);
  }

  // A run of two readers in which read() never returns. Both threads time out after read() has looked
  // whether they are alive and before it asks for a record.

  /** A thread that no record is needed from wakes up and ends. */
  lemma ThreadTimesOut(r: State -> bool, s: State, t: nat) returns (s': State)
    requires Closed(r) && r(s) && Shape(s) && t < |s.pool.threads|
    requires s.pool.threads[t].pc == Waiting && !s.chan.need
    ensures r(s') && Shape(s') && s' == s.(pool := At(s.pool, t, Done))
  {
    var s1 := Next(s, ThreadStep(t)).state;
    s' := Next(s1, ThreadStep(t)).state;
  }

  lemma BothTimeOut(r: State -> bool) returns (s: State)
    requires Closed(r)
    ensures r(s) && Shape(s)
    ensures s == State(TwoThreads(Done, Done), Channel([], Free, true, false), Scanning(0), Observed([], [[], []], []))
  {
    s := FirstReadStartsThreads(r);
    s := ThreadTimesOut(r, s, 0);
    s := ThreadTimesOut(r, s, 1);
    assert s.pool == TwoThreads(Done, Done);
    s := AsksInVain(r, s);
  }

  lemma AsksInVain(r: State -> bool, s: State) returns (s': State)
    requires Closed(r) && r(s) && Shape(s) && s.caller == Restarting(2) && |s.pool.slots| == 2
    ensures r(s') && Shape(s') && s' == s.(chan := s.chan.(need := true), caller := Scanning(0))
  {
    s' := Next(s, CallerStep).state;
    s' := Next(s', CallerStep).state;
  }

  /** Such a state is reachable: read() waits, no thread is alive, and nothing can make it return. */
  lemma ReadWaitsForEver() returns (s: State)
    ensures Reachable(2, s) && Waits(s.caller) && !CanReturn(s)
    ensures forall t :: 0 <= t < |s.pool.threads| ==> !Live(s.pool.threads[t])
  {
    hide Reachable, CanReturn, Closed;
    ReachableIsClosed();
    s := BothTimeOut(x => Reachable(2, x));
    assert !s.pool.eof[0];
    assert s.pool.threads == [Thread(0, Done), Thread(1, Done)];
    CanReturnIff(2, s);
  }
}
