/**
 ComposedReader: reader threads, one queue, two events and per-reader locks and EOF flags.

 The class is modelled as a state machine whose actions are the atomic steps of the threads: an access
 to a shared variable is a step of its own, and a step that has to wait for a lock is not enabled while
 the lock is taken. Waiting on an event always ends, because every wait has a timeout.

 Three steps are several accesses at once, which nobody can tell apart. The test of whether a reader
 needs a thread reads its slot, whether that thread is alive and its EOF flag: the slot changes in read
 only, and a thread that is not alive raises no flag any more. Starting a thread writes slot and flag and
 starts it: both are read in read only. Noting EOF raises the flag and releases the reader's lock: only
 that reader's one live thread takes this lock.
 */
module ComposedReader {
  import opened Common

  type Record = string

  /** A record and the component reader it came from. */
  datatype Item = Item(reader: nat, record: Record)

  /** Where a reader thread is inside _run_reader. */
  datatype ThreadPc =
    | Waiting                      // in queue_needs_record.wait
    | Checking                     // about to test queue_needs_record.is_set
    | Locking                      // about to take reader_locks[index]
    | Reading                      // holds the reader lock, inside readers[index].read
    | GotEof                       // read returned None, the lock is still held
    | Holding(record: Record)      // reader lock released, wants the queue lock
    | Appending(record: Record)    // holds the queue lock, about to append
    | SettingHas                   // appended, about to set queue_has_record
    | ClearingNeed                 // about to clear queue_needs_record
    | Unlocking                    // about to release the queue lock
    | Exiting                      // EOF flag set, returning
    | Done                         // not alive any more

  datatype Thread = Thread(reader: nat, pc: ThreadPc)

  /** Where the single caller is inside read. */
  datatype CallerPc =
    | Idle
    | Testing                      // `if self.queue` outside the lock
    | FastLocking | FastPopping | FastReleasing(item: Item)
    | Restarting(i: nat)           // the loop that restarts timed-out threads
    | SettingNeed
    | Scanning(i: nat)             // `while False in reader_returned_eof`, one flag at a time
    | SlowLocking | SlowTesting | SlowPopping | SlowPopped(item: Item) | SlowReleasing(item: Item)
    | SlowClearing | SlowUnlocking
    | WaitingHas                   // in queue_has_record.wait

  /** The fields about threads; `threads` is every thread ever started, rlocks records the holder. */
  datatype Pool = Pool(threads: seq<Thread>, slots: seq<Option<nat>>, eof: seq<bool>, rlocks: seq<Option<nat>>)

  datatype Owner = Free | Caller | ByThread(t: nat)

  /** The queue with its lock and the two events. */
  datatype Channel = Channel(queue: seq<Item>, lock: Owner, need: bool, has: bool)

  /** What an observer has seen: the results of finished read() calls, what each component reader
      has produced, and what was appended since read() last found the queue empty. */
  datatype Observed = Observed(outcomes: seq<Option<Item>>, produced: seq<seq<Record>>, since: seq<Item>)

  datatype State = State(pool: Pool, chan: Channel, caller: CallerPc, obs: Observed)

  function Repeat<T>(x: T, n: nat): (s: seq<T>)
    ensures |s| == n && forall k :: 0 <= k < n ==> s[k] == x
  {
    seq(n, k => x)
  }

  function Init(n: nat): State {
    State(Pool([], Repeat(None, n), Repeat(false, n), Repeat(None, n)),
          Channel([], Free, false, false), Idle, Observed([], Repeat([], n), []))
  }

  datatype Action =
    | CallRead                                      // the client calls read()
    | CallerStep                                    // read() takes its next step
    | ThreadStep(t: nat)                            // thread t takes its next step
    | ReaderReturns(t: nat, result: Option<Record>) // a component reader's read() returns

  /** Where a step leads, or that the step is not enabled. */
  datatype Step = Blocked | To(state: State)

  predicate Live(th: Thread) { th.pc != Done }

  // ---- Steps of read() ----

  /** The restart test, with Python's precedence: no thread, or (dead and no EOF). */
  predicate NeedsThread(p: Pool, i: nat)
    requires i < |p.slots| == |p.eof|
  {
    p.slots[i].None? ||
    (p.slots[i].value < |p.threads| && !Live(p.threads[p.slots[i].value]) && !p.eof[i])
  }

  function StartThread(p: Pool, i: nat): Pool
    requires i < |p.slots| == |p.eof|
  {
    p.(threads := p.threads + [Thread(i, Waiting)],
       slots := p.slots[i := Some(|p.threads|)],
       eof := p.eof[i := false])
  }

  /** The steps that take a record already in the queue when read() is called. */
  function FastNext(s: State): Step {
    var c := s.chan;
    match s.caller
    case Testing =>
      if c.queue != [] then To(s.(caller := FastLocking))
      else To(s.(caller := Restarting(0), obs := s.obs.(since := [])))
    case FastLocking => if c.lock == Free then To(s.(chan := c.(lock := Caller), caller := FastPopping)) else Blocked
    case FastPopping =>
      if c.queue == [] then Blocked // IndexError
      else To(s.(chan := c.(queue := c.queue[1..]), caller := FastReleasing(c.queue[0])))
    case FastReleasing(item) => To(Return(s.(chan := c.(lock := Free)), Some(item)))
    case _ => Blocked
  }

  function Return(s: State, outcome: Option<Item>): State {
    s.(caller := Idle, obs := s.obs.(outcomes := s.obs.outcomes + [outcome]))
  }

  /** The steps that wake the readers up and scan their EOF flags. */
  function WakeNext(s: State): Step
    requires |s.pool.slots| == |s.pool.eof|
  {
    match s.caller
    case Restarting(i) =>
      if i >= |s.pool.slots| then To(s.(caller := SettingNeed))
      else if NeedsThread(s.pool, i) then To(s.(pool := StartThread(s.pool, i), caller := Restarting(i + 1)))
      else To(s.(caller := Restarting(i + 1)))
    case SettingNeed => To(s.(chan := s.chan.(need := true), caller := Scanning(0)))
    case Scanning(i) =>
      if i >= |s.pool.eof| then To(Return(s, None))
      else To(s.(caller := if s.pool.eof[i] then Scanning(i + 1) else SlowLocking))
    case WaitingHas => To(s.(caller := Scanning(0)))
    case _ => Blocked
  }

  /** The steps inside the wait loop that look at the queue under the lock. */
  function SlowNext(s: State): Step {
    var c := s.chan;
    match s.caller
    case SlowLocking => if c.lock == Free then To(s.(chan := c.(lock := Caller), caller := SlowTesting)) else Blocked
    case SlowTesting => To(s.(caller := if c.queue != [] then SlowPopping else SlowClearing))
    case SlowPopping =>
      if c.queue == [] then Blocked // IndexError
      else To(s.(chan := c.(queue := c.queue[1..]), caller := SlowPopped(c.queue[0])))
    case SlowPopped(item) => To(s.(chan := c.(has := c.has && c.queue != []), caller := SlowReleasing(item)))
    case SlowReleasing(item) => To(Return(s.(chan := c.(lock := Free)), Some(item)))
    case SlowClearing => To(s.(chan := c.(has := false), caller := SlowUnlocking))
    case SlowUnlocking => To(s.(chan := c.(lock := Free), caller := WaitingHas))
    case _ => Blocked
  }

  predicate IsFast(pc: CallerPc) { pc == Testing || pc == FastLocking || pc == FastPopping || pc.FastReleasing? }

  predicate IsWake(pc: CallerPc) { pc.Restarting? || pc == SettingNeed || pc.Scanning? || pc == WaitingHas }

  // ---- Steps of _run_reader ----

  function At(p: Pool, t: nat, pc: ThreadPc): Pool
    requires t < |p.threads|
  {
    p.(threads := p.threads[t := Thread(p.threads[t].reader, pc)])
  }

  /** The steps that do not involve the queue; `need` is queue_needs_record. */
  function PoolNext(p: Pool, need: bool, t: nat): Option<Pool>
    requires t < |p.threads| && p.threads[t].reader < |p.eof| == |p.rlocks|
  {
    var i := p.threads[t].reader;
    match p.threads[t].pc
    case Waiting => Some(At(p, t, Checking))
    case Checking => Some(At(p, t, if need then Locking else Done))
    case Locking => if p.rlocks[i].None? then Some(At(p, t, Reading).(rlocks := p.rlocks[i := Some(t)])) else None
    case GotEof => Some(At(p, t, Exiting).(eof := p.eof[i := true], rlocks := p.rlocks[i := None]))
    case Exiting => Some(At(p, t, Done))
    case _ => None
  }

  /** The steps that put a record in the queue. */
  function QueueNext(s: State, t: nat): Step
    requires t < |s.pool.threads|
  {
    var c := s.chan;
    var i := s.pool.threads[t].reader;
    match s.pool.threads[t].pc
    case Holding(r) =>
      if c.lock == Free then To(s.(pool := At(s.pool, t, Appending(r)), chan := c.(lock := ByThread(t)))) else Blocked
    case Appending(r) =>
      To(s.(pool := At(s.pool, t, SettingHas), chan := c.(queue := c.queue + [Item(i, r)]),
            obs := s.obs.(since := s.obs.since + [Item(i, r)])))
    case SettingHas => To(s.(pool := At(s.pool, t, ClearingNeed), chan := c.(has := true)))
    case ClearingNeed => To(s.(pool := At(s.pool, t, Unlocking), chan := c.(need := false)))
    case Unlocking => To(s.(pool := At(s.pool, t, Waiting), chan := c.(lock := Free)))
    case _ => Blocked
  }

  predicate UsesQueue(pc: ThreadPc) {
    pc.Holding? || InQueueLock(pc)
  }

  function ReturnsNext(s: State, t: nat, result: Option<Record>): Step
    requires t < |s.pool.threads| && s.pool.threads[t].reader < |s.pool.rlocks| == |s.obs.produced|
  {
    var i := s.pool.threads[t].reader;
    var p := s.pool;
    if p.threads[t].pc != Reading then Blocked
    else match result
      case None => To(s.(pool := At(p, t, GotEof)))
      case Some(r) =>
        To(s.(pool := At(p, t, Holding(r)).(rlocks := p.rlocks[i := None]),
              obs := s.obs.(produced := s.obs.produced[i := s.obs.produced[i] + [r]])))
  }

  /** The state after an action, if the action is enabled. */
  function Next(s: State, a: Action): Step
    requires Shape(s)
  {
    match a
    case CallRead => if s.caller == Idle then To(s.(caller := Testing)) else Blocked
    case CallerStep => if IsFast(s.caller) then FastNext(s) else if IsWake(s.caller) then WakeNext(s) else SlowNext(s)
    case ThreadStep(t) =>
      if t >= |s.pool.threads| then Blocked
      else if UsesQueue(s.pool.threads[t].pc) then QueueNext(s, t)
      else (match PoolNext(s.pool, s.chan.need, t)
            case None => Blocked
            case Some(p) => To(s.(pool := p)))
    case ReaderReturns(t, result) =>
      if t < |s.pool.threads| then ReturnsNext(s, t, result) else Blocked
  }

  // ---- Invariants ----

  predicate PoolShape(p: Pool) {
    && |p.slots| == |p.eof| == |p.rlocks|
    && (forall t :: 0 <= t < |p.threads| ==> p.threads[t].reader < |p.slots|)
    && (forall i :: 0 <= i < |p.slots| && p.slots[i].Some? ==>
          p.slots[i].value < |p.threads| && p.threads[p.slots[i].value].reader == i)
  }

  predicate Shape(s: State) {
    PoolShape(s.pool) && |s.obs.produced| == |s.pool.slots|
  }

  /** At most one live thread per reader: the one in its slot. */
  predicate OneLiveThread(p: Pool)
    requires PoolShape(p)
  {
    forall t :: 0 <= t < |p.threads| && Live(p.threads[t]) ==> p.slots[p.threads[t].reader] == Some(t)
  }

  predicate InReaderLock(pc: ThreadPc) { pc == Reading || pc == GotEof }

  predicate ReaderLocks(p: Pool)
    requires PoolShape(p)
  {
    && (forall t :: 0 <= t < |p.threads| ==>
          (InReaderLock(p.threads[t].pc) <==> p.rlocks[p.threads[t].reader] == Some(t)))
    && (forall i :: 0 <= i < |p.rlocks| && p.rlocks[i].Some? ==> p.rlocks[i].value < |p.threads|)
  }

  predicate Leaving(pc: ThreadPc) { pc == Exiting || pc == Done }

  /** An EOF flag is up only for a reader whose thread is leaving or gone. */
  predicate EofFlags(p: Pool)
    requires PoolShape(p)
  {
    && (forall i :: 0 <= i < |p.eof| && p.eof[i] ==> p.slots[i].Some? && Leaving(p.threads[p.slots[i].value].pc))
    && (forall t :: 0 <= t < |p.threads| && p.threads[t].pc == Exiting ==> p.eof[p.threads[t].reader])
  }

  predicate PoolInv(p: Pool) {
    PoolShape(p) && OneLiveThread(p) && ReaderLocks(p) && EofFlags(p)
  }

  predicate InQueueLock(pc: ThreadPc) {
    pc.Appending? || pc == SettingHas || pc == ClearingNeed || pc == Unlocking
  }

  predicate CallerHoldsLock(pc: CallerPc) {
    pc == FastPopping || pc.FastReleasing? || pc == SlowTesting || pc == SlowPopping ||
    pc.SlowPopped? || pc.SlowReleasing? || pc == SlowClearing || pc == SlowUnlocking
  }

  /** The queue lock is held exactly by whoever is inside its `with` block. */
  predicate QueueLock(threads: seq<Thread>, lock: Owner, pc: CallerPc) {
    && (forall t :: 0 <= t < |threads| ==> (InQueueLock(threads[t].pc) <==> lock == ByThread(t)))
    && (lock.ByThread? ==> lock.t < |threads|)
    && (CallerHoldsLock(pc) <==> lock == Caller)
  }

  predicate SeenNonEmpty(pc: CallerPc) { pc == FastLocking || pc == FastPopping || pc == SlowPopping }

  /** A waiting record is announced, except between the append and the set inside the lock. */
  predicate Announced(threads: seq<Thread>, c: Channel, pc: CallerPc) {
    && (c.queue != [] ==> c.has || (c.lock.ByThread? && c.lock.t < |threads| && threads[c.lock.t].pc == SettingHas))
    && (SeenNonEmpty(pc) ==> c.queue != [])
    && (pc == SlowClearing || pc == SlowUnlocking ==> c.queue == [])
  }

  /** read() has returned None, or has scanned past a flag, only if those flags are up. */
  predicate EofSeen(eof: seq<bool>, pc: CallerPc, outcomes: seq<Option<Item>>) {
    && (pc.Scanning? ==> forall j :: 0 <= j < pc.i && j < |eof| ==> eof[j])
    && (None in outcomes ==> forall i :: 0 <= i < |eof| ==> eof[i])
  }

  /** The caller found the queue empty and has not popped anything since. */
  predicate SawEmpty(pc: CallerPc) {
    IsWake(pc) || pc == SlowLocking || pc == SlowTesting || pc == SlowPopping || pc == SlowClearing || pc == SlowUnlocking
  }

  function Of(items: seq<Item>, i: nat): seq<Record> {
    if items == [] then []
    else if items[0].reader == i then [items[0].record] + Of(items[1..], i)
    else Of(items[1..], i)
  }

  function Returned(outcomes: seq<Option<Item>>): seq<Item> {
    if outcomes == [] then []
    else if outcomes[0].Some? then [outcomes[0].value] + Returned(outcomes[1..])
    else Returned(outcomes[1..])
  }

  /** The record read() has popped and not yet returned. */
  function InHand(pc: CallerPc): seq<Item> {
    match pc
    case FastReleasing(item) => [item]
    case SlowPopped(item) => [item]
    case SlowReleasing(item) => [item]
    case _ => []
  }

  function Carried(pc: ThreadPc): seq<Record> {
    match pc
    case Holding(r) => [r]
    case Appending(r) => [r]
    case _ => []
  }

  /** The record reader i's thread holds on its way to the queue; at most one. */
  function InFlight(p: Pool, i: nat): (f: seq<Record>)
    requires PoolShape(p) && i < |p.slots|
    ensures |f| <= 1
  {
    if p.slots[i].None? then [] else Carried(p.threads[p.slots[i].value].pc)
  }

  /** Everything that has left the threads' hands, oldest first. */
  function Sent(s: State): seq<Item> { Returned(s.obs.outcomes) + InHand(s.caller) + s.chan.queue }

  predicate Conserved(s: State)
    requires Shape(s)
  {
    forall i :: 0 <= i < |s.pool.slots| ==> s.obs.produced[i] == Of(Sent(s), i) + InFlight(s.pool, i)
  }

  predicate Inv(s: State) {
    && Shape(s) && PoolInv(s.pool)
    && QueueLock(s.pool.threads, s.chan.lock, s.caller)
    && Announced(s.pool.threads, s.chan, s.caller)
    && EofSeen(s.pool.eof, s.caller, s.obs.outcomes)
    && Conserved(s)
    && (SawEmpty(s.caller) ==> s.chan.queue == s.obs.since)
  }

  // ---- Preservation: the thread pool ----

  lemma StartThreadKeepsLocks(p: Pool, i: nat)
    requires PoolShape(p) && OneLiveThread(p) && ReaderLocks(p) && i < |p.slots| && NeedsThread(p, i)
    ensures PoolShape(StartThread(p, i)) && OneLiveThread(StartThread(p, i)) && ReaderLocks(StartThread(p, i))
  {
    var p' := StartThread(p, i);
    assert forall t :: 0 <= t < |p.threads| ==> p'.threads[t] == p.threads[t];
  }

  /** A restart replaces only a missing or dead thread, and never takes an EOF flag down. */
  lemma StartThreadKeepsPool(p: Pool, i: nat)
    requires PoolInv(p) && i < |p.slots| && NeedsThread(p, i)
    ensures PoolInv(StartThread(p, i)) && StartThread(p, i).eof == p.eof
    ensures forall j :: 0 <= j < |p.slots| ==> InFlight(StartThread(p, i), j) == InFlight(p, j)
  {
    StartThreadKeepsLocks(p, i);
    assert !p.eof[i];
    assert p.eof[i := false] == p.eof;
    var p' := StartThread(p, i);
    assert forall t :: 0 <= t < |p.threads| ==> p'.threads[t] == p.threads[t];
  }

  /** Moving one thread between program points outside its reader lock keeps the pool's invariant. */
  lemma AtKeepsPool(p: Pool, t: nat, pc: ThreadPc)
    requires PoolInv(p) && t < |p.threads| && Live(p.threads[t]) && !InReaderLock(p.threads[t].pc)
    requires !InReaderLock(pc) && pc != Exiting && (Leaving(p.threads[t].pc) ==> pc == Done)
    ensures PoolInv(At(p, t, pc))
  {
    var p' := At(p, t, pc);
    assert forall u :: 0 <= u < |p.threads| && u != t ==> p'.threads[u] == p.threads[u];
  }

  lemma LockingKeepsPool(p: Pool, t: nat)
    requires PoolInv(p) && t < |p.threads| && p.threads[t].pc == Locking && p.rlocks[p.threads[t].reader].None?
    ensures PoolInv(At(p, t, Reading).(rlocks := p.rlocks[p.threads[t].reader := Some(t)]))
  {
    var p' := At(p, t, Reading).(rlocks := p.rlocks[p.threads[t].reader := Some(t)]);
    assert forall u :: 0 <= u < |p.threads| && u != t ==> p'.threads[u] == p.threads[u];
  }

  lemma GotEofKeepsPool(p: Pool, t: nat)
    requires PoolInv(p) && t < |p.threads| && p.threads[t].pc == GotEof
    ensures var i := p.threads[t].reader;
            PoolInv(At(p, t, Exiting).(eof := p.eof[i := true], rlocks := p.rlocks[i := None]))
  {
    var i := p.threads[t].reader;
    var p' := At(p, t, Exiting).(eof := p.eof[i := true], rlocks := p.rlocks[i := None]);
    assert forall u :: 0 <= u < |p.threads| && u != t ==> p'.threads[u] == p.threads[u];
  }

  lemma PoolNextKeepsPool(p: Pool, need: bool, t: nat, p': Pool)
    requires PoolInv(p) && t < |p.threads| && PoolNext(p, need, t) == Some(p')
    ensures PoolInv(p')
  {
    match p.threads[t].pc
    case Locking => LockingKeepsPool(p, t);
    case GotEof => GotEofKeepsPool(p, t);
    case Waiting => AtKeepsPool(p, t, Checking);
    case Checking => AtKeepsPool(p, t, if need then Locking else Done);
    case Exiting => AtKeepsPool(p, t, Done);
  }

  /** A pool step changes one thread's pc and raises flags only; it never touches a record. */
  lemma PoolNextFrame(p: Pool, need: bool, t: nat, p': Pool)
    requires PoolShape(p) && t < |p.threads| && PoolNext(p, need, t) == Some(p')
    ensures |p'.threads| == |p.threads| && p'.slots == p.slots && |p'.eof| == |p.eof|
    ensures forall u :: 0 <= u < |p.threads| && u != t ==> p'.threads[u] == p.threads[u]
    ensures p'.threads[t].reader == p.threads[t].reader
    ensures !UsesQueue(p.threads[t].pc) && !UsesQueue(p'.threads[t].pc)
    ensures forall j :: 0 <= j < |p.eof| && p.eof[j] ==> p'.eof[j]
  {
  }

  lemma GettingEofKeepsPool(p: Pool, t: nat)
    requires PoolInv(p) && t < |p.threads| && p.threads[t].pc == Reading
    ensures PoolInv(At(p, t, GotEof))
  {
    var p' := At(p, t, GotEof);
    assert forall u :: 0 <= u < |p.threads| && u != t ==> p'.threads[u] == p.threads[u];
  }

  lemma GettingRecordKeepsPool(p: Pool, t: nat, r: Record)
    requires PoolInv(p) && t < |p.threads| && p.threads[t].pc == Reading
    ensures PoolInv(At(p, t, Holding(r)).(rlocks := p.rlocks[p.threads[t].reader := None]))
  {
    var p' := At(p, t, Holding(r)).(rlocks := p.rlocks[p.threads[t].reader := None]);
    assert forall u :: 0 <= u < |p.threads| && u != t ==> p'.threads[u] == p.threads[u];
  }

  // ---- Preservation: steps of read() ----

  lemma {:induction false} OfConcat(a: seq<Item>, b: seq<Item>, i: nat)
    ensures Of(a + b, i) == Of(a, i) + Of(b, i)
  {
    if a == [] {
      assert a + b == b;
    } else {
      assert (a + b)[0] == a[0] && (a + b)[1..] == a[1..] + b;
      OfConcat(a[1..], b, i);
    }
  }

  lemma {:induction false} ReturnedConcat(a: seq<Option<Item>>, b: seq<Option<Item>>)
    ensures Returned(a + b) == Returned(a) + Returned(b)
  {
    if a == [] {
      assert a + b == b;
    } else {
      assert (a + b)[0] == a[0] && (a + b)[1..] == a[1..] + b;
      ReturnedConcat(a[1..], b);
    }
  }

  /** What read() takes from the queue it holds until it returns it. */
  lemma FastKeepsSent(s: State, s': State)
    requires FastNext(s) == To(s')
    ensures Sent(s') == Sent(s)
  {
    match s.caller
    case FastReleasing(item) => ReturnedConcat(s.obs.outcomes, [Some(item)]);
    case FastPopping => assert s.chan.queue == [s.chan.queue[0]] + s'.chan.queue;
    case _ =>
  }

  lemma WakeKeepsSent(s: State, s': State)
    requires |s.pool.slots| == |s.pool.eof| && WakeNext(s) == To(s')
    ensures Sent(s') == Sent(s)
  {
    ReturnedConcat(s.obs.outcomes, [None]);
  }

  lemma SlowKeepsSent(s: State, s': State)
    requires SlowNext(s) == To(s')
    ensures Sent(s') == Sent(s)
  {
    match s.caller
    case SlowReleasing(item) => ReturnedConcat(s.obs.outcomes, [Some(item)]);
    case SlowPopping => assert s.chan.queue == [s.chan.queue[0]] + s'.chan.queue;
    case _ =>
  }

  lemma SameRecords(s: State, s': State)
    requires Shape(s) && Conserved(s)
    requires s'.pool == s.pool && s'.obs.produced == s.obs.produced && Sent(s') == Sent(s)
    ensures Shape(s') && Conserved(s')
  {
  }

  lemma FastKeepsInv(s: State, s': State)
    requires Inv(s) && FastNext(s) == To(s')
    ensures Inv(s')
  {
    FastKeepsSent(s, s');
    SameRecords(s, s');
  }

  lemma RestartKeepsInv(s: State, i: nat)
    requires Inv(s) && s.caller == Restarting(i) && i < |s.pool.slots| && NeedsThread(s.pool, i)
    ensures Inv(s.(pool := StartThread(s.pool, i), caller := Restarting(i + 1)))
  {
    StartThreadKeepsPool(s.pool, i);
    var s' := s.(pool := StartThread(s.pool, i), caller := Restarting(i + 1));
    assert Sent(s') == Sent(s);
  }

  predicate RestartsThread(s: State)
    requires |s.pool.slots| == |s.pool.eof|
  {
    s.caller.Restarting? && s.caller.i < |s.pool.slots| && NeedsThread(s.pool, s.caller.i)
  }

  lemma WakeKeepsControl(s: State, s': State)
    requires Shape(s) && WakeNext(s) == To(s') && !RestartsThread(s)
    requires QueueLock(s.pool.threads, s.chan.lock, s.caller) && Announced(s.pool.threads, s.chan, s.caller)
    requires EofSeen(s.pool.eof, s.caller, s.obs.outcomes)
    ensures s'.pool == s.pool && s'.obs.produced == s.obs.produced
    ensures s'.chan.queue == s.chan.queue && s'.obs.since == s.obs.since && IsWake(s.caller)
    ensures QueueLock(s'.pool.threads, s'.chan.lock, s'.caller) && Announced(s'.pool.threads, s'.chan, s'.caller)
    ensures EofSeen(s'.pool.eof, s'.caller, s'.obs.outcomes)
  {
  }

  lemma WakeKeepsInv(s: State, s': State)
    requires Inv(s) && WakeNext(s) == To(s')
    ensures Inv(s')
  {
    if RestartsThread(s) {
      RestartKeepsInv(s, s.caller.i);
    } else {
      WakeKeepsControl(s, s');
      WakeKeepsSent(s, s');
      SameRecords(s, s');
    }
  }

  lemma SlowKeepsInv(s: State, s': State)
    requires Inv(s) && SlowNext(s) == To(s')
    ensures Inv(s')
  {
    SlowKeepsSent(s, s');
    SameRecords(s, s');
  }

  // ---- Preservation: steps of the reader threads ----

  lemma PoolStepKeepsInv(s: State, t: nat, p': Pool)
    requires Inv(s) && t < |s.pool.threads| && PoolNext(s.pool, s.chan.need, t) == Some(p')
    ensures Inv(s.(pool := p'))
  {
    PoolNextKeepsPool(s.pool, s.chan.need, t, p');
    PoolNextFrame(s.pool, s.chan.need, t, p');
    assert Sent(s.(pool := p')) == Sent(s);
    hide Of, Sent, Returned;
    forall i | 0 <= i < |p'.slots| ensures InFlight(p', i) == InFlight(s.pool, i) {}
  }

  lemma QueueStepKeepsControl(s: State, t: nat, s': State)
    requires Shape(s) && t < |s.pool.threads| && QueueNext(s, t) == To(s')
    requires QueueLock(s.pool.threads, s.chan.lock, s.caller) && Announced(s.pool.threads, s.chan, s.caller)
    ensures QueueLock(s'.pool.threads, s'.chan.lock, s'.caller) && Announced(s'.pool.threads, s'.chan, s'.caller)
  {
    assert forall u :: 0 <= u < |s.pool.threads| && u != t ==> s'.pool.threads[u] == s.pool.threads[u];
  }

  /** What a queue step adds to the queue comes out of the thread's own hands. */
  lemma QueueStepMoves(s: State, t: nat, s': State)
    requires t < |s.pool.threads| && QueueNext(s, t) == To(s')
    ensures var pc := s.pool.threads[t].pc;
            if pc.Appending? then
              var item := Item(s.pool.threads[t].reader, pc.record);
              Sent(s') == Sent(s) + [item] && Carried(s'.pool.threads[t].pc) == [] && s'.obs.since == s.obs.since + [item]
            else Sent(s') == Sent(s) && Carried(s'.pool.threads[t].pc) == Carried(pc) && s'.obs.since == s.obs.since
  {
  }

  lemma QueueStepKeepsReader(s: State, t: nat, s': State, i: nat)
    requires Shape(s) && OneLiveThread(s.pool) && i < |s.pool.slots|
    requires t < |s.pool.threads| && QueueNext(s, t) == To(s') && Shape(s') && s'.pool.slots == s.pool.slots
    ensures Of(Sent(s'), i) + InFlight(s'.pool, i) == Of(Sent(s), i) + InFlight(s.pool, i)
  {
    QueueStepMoves(s, t, s');
    var pc, me := s.pool.threads[t].pc, s.pool.threads[t].reader;
    assert i == me ==> s.pool.slots[i] == Some(t);
    assert i != me ==> InFlight(s'.pool, i) == InFlight(s.pool, i);
    if pc.Appending? {
      OfConcat(Sent(s), [Item(me, pc.record)], i);
    }
  }

  lemma QueueStepKeepsRecords(s: State, t: nat, s': State)
    requires Shape(s) && Conserved(s) && OneLiveThread(s.pool)
    requires t < |s.pool.threads| && QueueNext(s, t) == To(s') && Shape(s')
    ensures Conserved(s')
  {
    assert s'.pool.slots == s.pool.slots && s'.obs.produced == s.obs.produced;
    forall i | 0 <= i < |s'.pool.slots|
      ensures s'.obs.produced[i] == Of(Sent(s'), i) + InFlight(s'.pool, i)
    {
      QueueStepKeepsReader(s, t, s', i);
    }
  }

  lemma QueueStepKeepsInv(s: State, t: nat, s': State)
    requires Inv(s) && t < |s.pool.threads| && QueueNext(s, t) == To(s')
    ensures Inv(s')
  {
    AtKeepsPool(s.pool, t, s'.pool.threads[t].pc);
    QueueStepKeepsControl(s, t, s');
    QueueStepKeepsRecords(s, t, s');
  }

  lemma ReturnsKeepsPool(s: State, t: nat, result: Option<Record>, s': State)
    requires Shape(s) && PoolInv(s.pool) && t < |s.pool.threads| && ReturnsNext(s, t, result) == To(s')
    ensures PoolInv(s'.pool) && Shape(s') && s'.chan == s.chan && s'.caller == s.caller && s'.pool.eof == s.pool.eof
    ensures s'.obs.outcomes == s.obs.outcomes && s'.obs.since == s.obs.since
  {
    if result.None? { GettingEofKeepsPool(s.pool, t); } else { GettingRecordKeepsPool(s.pool, t, result.value); }
    hide PoolInv;
  }

  /** A queue lock that the thread does not hold stays as it is. */
  lemma ReturnsKeepsLock(s: State, t: nat, result: Option<Record>, s': State)
    requires Shape(s) && t < |s.pool.threads| && ReturnsNext(s, t, result) == To(s')
    requires QueueLock(s.pool.threads, s.chan.lock, s.caller) && Announced(s.pool.threads, s.chan, s.caller)
    ensures QueueLock(s'.pool.threads, s'.chan.lock, s'.caller) && Announced(s'.pool.threads, s'.chan, s'.caller)
  {
    assert forall u :: 0 <= u < |s.pool.threads| && u != t ==> s'.pool.threads[u] == s.pool.threads[u];
  }

  /** A record that a component reader returns is in flight from now on. */
  lemma ReturnsKeepsRecords(s: State, t: nat, result: Option<Record>, s': State)
    requires Shape(s) && Shape(s') && Conserved(s) && OneLiveThread(s.pool)
    requires t < |s.pool.threads| && ReturnsNext(s, t, result) == To(s')
    ensures Conserved(s')
  {
    var me := s.pool.threads[t].reader;
    assert s.pool.slots[me] == Some(t);
    assert forall u :: 0 <= u < |s.pool.threads| && u != t ==> s'.pool.threads[u] == s.pool.threads[u];
    assert Sent(s') == Sent(s);
    hide Of, Sent;
    forall i | 0 <= i < |s'.pool.slots|
      ensures s'.obs.produced[i] == Of(Sent(s'), i) + InFlight(s'.pool, i)
    {
      if i != me { assert InFlight(s'.pool, i) == InFlight(s.pool, i); }
    }
  }

  lemma ReturnsKeepsInv(s: State, t: nat, result: Option<Record>, s': State)
    requires Inv(s) && t < |s.pool.threads| && ReturnsNext(s, t, result) == To(s')
    ensures Inv(s')
  {
    ReturnsKeepsPool(s, t, result, s');
    ReturnsKeepsLock(s, t, result, s');
    ReturnsKeepsRecords(s, t, result, s');
    hide ReturnsNext, QueueLock, Announced, EofSeen, Conserved;
  }

  lemma StepKeepsInv(s: State, a: Action, s': State)
    requires Inv(s) && Next(s, a) == To(s')
    ensures Inv(s')
  {
    match a
    case CallRead => assert Sent(s') == Sent(s);
    case CallerStep =>
      if IsFast(s.caller) { FastKeepsInv(s, s'); }
      else if IsWake(s.caller) { WakeKeepsInv(s, s'); }
      else { SlowKeepsInv(s, s'); }
    case ThreadStep(t) =>
      if UsesQueue(s.pool.threads[t].pc) { QueueStepKeepsInv(s, t, s'); }
      else { PoolStepKeepsInv(s, t, s'.pool); }
    case ReaderReturns(t, result) => ReturnsKeepsInv(s, t, result, s');
  }

  // ---- Whole runs ----

  /** The state after the actions, each of which must be enabled when its turn comes. */
  function Run(s: State, acts: seq<Action>): Step
    decreases |acts|
  {
    if acts == [] then To(s)
    else match Run(s, acts[..|acts| - 1])
      case Blocked => Blocked
      case To(before) => if Shape(before) then Next(before, acts[|acts| - 1]) else Blocked
  }

  lemma {:induction false} RunKeepsInv(s: State, acts: seq<Action>, s': State)
    requires Inv(s) && Run(s, acts) == To(s')
    ensures Inv(s')
    decreases |acts|
  {
    if acts != [] {
      var before := Run(s, acts[..|acts| - 1]).state;
      RunKeepsInv(s, acts[..|acts| - 1], before);
      StepKeepsInv(before, acts[|acts| - 1], s');
    }
  }

  /** A state that n readers and the client's calls of read() can come to. */
  ghost predicate Reachable(n: nat, s: State) { exists acts :: Run(Init(n), acts) == To(s) }

  lemma ReachableInv(n: nat, s: State)
    requires Reachable(n, s)
    ensures Inv(s)
  {
    var acts :| Run(Init(n), acts) == To(s);
    RunKeepsInv(Init(n), acts, s);
  }

  /** In every interleaving, what a component reader has produced is, in order, what read() has
      returned of it, what read() has in hand, what is queued, and at most one record in flight. */
  lemma NothingLostOrDuplicated(n: nat, s: State, i: nat)
    requires Reachable(n, s)
    ensures Shape(s)
    ensures i < |s.pool.slots| ==>
              s.obs.produced[i] == Of(Returned(s.obs.outcomes), i) + Of(InHand(s.caller), i)
                                   + Of(s.chan.queue, i) + InFlight(s.pool, i)
  {
    ReachableInv(n, s);
    OfConcat(Returned(s.obs.outcomes) + InHand(s.caller), s.chan.queue, i);
    OfConcat(Returned(s.obs.outcomes), InHand(s.caller), i);
  }

  /** Each reader has at most one live thread, whatever was restarted and whatever timed out. */
  lemma AtMostOneLiveThread(n: nat, s: State, t: nat, u: nat)
    requires Reachable(n, s)
    requires t < |s.pool.threads| && u < |s.pool.threads| && Live(s.pool.threads[t]) && Live(s.pool.threads[u])
    requires s.pool.threads[t].reader == s.pool.threads[u].reader
    ensures t == u
  {
    ReachableInv(n, s);
  }

  /** No lost wake-up: whenever nobody is inside the queue lock, a queued record is announced. */
  lemma NoLostWakeUp(n: nat, s: State)
    requires Reachable(n, s)
    requires s.chan.lock == Free && s.chan.queue != []
    ensures s.chan.has
  {
    ReachableInv(n, s);
  }

  /** read() never pops an empty queue, although it tests the queue outside the lock. */
  lemma PopsFindARecord(n: nat, s: State)
    requires Reachable(n, s)
    requires s.caller == FastPopping || s.caller == SlowPopping
    ensures s.chan.queue != []
  {
    ReachableInv(n, s);
  }

  /** read() returns None only after every component reader has returned EOF. */
  lemma NoneOnlyAfterAllEof(n: nat, s: State, i: nat)
    requires Reachable(n, s)
    requires None in s.obs.outcomes && i < |s.pool.eof|
    ensures s.pool.eof[i]
  {
    ReachableInv(n, s);
  }

  lemma WakeKeepsEof(s: State, s': State)
    requires Shape(s) && PoolInv(s.pool) && WakeNext(s) == To(s')
    ensures s'.pool.eof == s.pool.eof && |s'.pool.slots| == |s.pool.slots| && s'.obs.produced == s.obs.produced
    ensures forall i :: 0 <= i < |s.pool.eof| && s.pool.eof[i] ==> s'.pool.slots[i] == s.pool.slots[i]
  {
    if RestartsThread(s) { StartThreadKeepsPool(s.pool, s.caller.i); }
  }

  /** A reader that has returned EOF gets no new thread and is never read again. */
  lemma EofIsFinal(s: State, a: Action, s': State, i: nat)
    requires Shape(s) && PoolInv(s.pool) && Next(s, a) == To(s')
    requires i < |s.pool.eof| && s.pool.eof[i]
    ensures |s'.pool.eof| == |s.pool.eof| == |s'.pool.slots| == |s'.obs.produced| && s'.pool.eof[i]
    ensures s'.pool.slots[i] == s.pool.slots[i] && s'.obs.produced[i] == s.obs.produced[i]
  {
    match a
    case CallerStep => if IsWake(s.caller) { WakeKeepsEof(s, s'); }
    case ThreadStep(t) =>
      if !UsesQueue(s.pool.threads[t].pc) { PoolNextFrame(s.pool, s.chan.need, t, s'.pool); }
    case ReaderReturns(t, result) => NoReadAfterEof(s, t, result, s', i);
    case CallRead =>
  }

  lemma NoReadAfterEof(s: State, t: nat, result: Option<Record>, s': State, i: nat)
    requires Shape(s) && PoolInv(s.pool) && t < |s.pool.threads| && ReturnsNext(s, t, result) == To(s')
    requires i < |s.pool.eof| && s.pool.eof[i]
    ensures s.pool.threads[t].reader != i
    ensures s'.pool.eof == s.pool.eof && s'.pool.slots == s.pool.slots && |s'.obs.produced| == |s.obs.produced|
    ensures s'.obs.produced[i] == s.obs.produced[i]
  {
    assert s.pool.slots[s.pool.threads[t].reader] == Some(t);
  }

  predicate AllEof(s: State) {
    forall i :: 0 <= i < |s.pool.eof| ==> s.pool.eof[i]
  }

  /** Once every reader has returned EOF, records only move from the queue to the client, in order. */
  lemma AllEofOnlyDrains(s: State, a: Action, s': State)
    requires Inv(s) && Next(s, a) == To(s') && AllEof(s)
    ensures Sent(s') == Sent(s)
  {
    match a
    case CallerStep =>
      if IsFast(s.caller) { FastKeepsSent(s, s'); }
      else if IsWake(s.caller) { WakeKeepsSent(s, s'); }
      else { SlowKeepsSent(s, s'); }
    case ThreadStep(t) =>
      assert Leaving(s.pool.threads[t].pc);
      PoolNextFrame(s.pool, s.chan.need, t, s'.pool);
    case _ =>
  }

  lemma AllEofStays(s: State, a: Action, s': State)
    requires Inv(s) && Next(s, a) == To(s') && AllEof(s)
    ensures AllEof(s')
  {
    forall i | 0 <= i < |s'.pool.eof| ensures s'.pool.eof[i] {
      StepKeepsInv(s, a, s');
      if |s.pool.eof| > 0 { EofIsFinal(s, a, s', 0); }
      if i < |s.pool.eof| { EofIsFinal(s, a, s', i); }
    }
  }

  /** After a None, whatever runs next: nothing enters or leaves the stream of sent records. */
  lemma {:induction false} DrainedInOrder(s: State, acts: seq<Action>, s': State)
    requires Inv(s) && Run(s, acts) == To(s') && AllEof(s)
    ensures AllEof(s') && Sent(s') == Sent(s)
    decreases |acts|
  {
    if acts != [] {
      var before := Run(s, acts[..|acts| - 1]).state;
      DrainedInOrder(s, acts[..|acts| - 1], before);
      RunKeepsInv(s, acts[..|acts| - 1], before);
      AllEofOnlyDrains(before, acts[|acts| - 1], s');
      AllEofStays(before, acts[|acts| - 1], s');
    }
  }

  lemma AllEofNothingInFlight(s: State, i: nat)
    requires Inv(s) && AllEof(s) && i < |s.pool.slots|
    ensures s.obs.produced[i] == Of(Sent(s), i)
  {
    assert s.pool.eof[i];
  }

  /** After a None nothing is in flight: all that was ever produced is returned, in hand or queued,
      and every later state only shifts the border between these three. */
  lemma AfterNoneAllIsSent(n: nat, s: State, later: seq<Action>, s': State, i: nat)
    requires Reachable(n, s) && None in s.obs.outcomes && Run(s, later) == To(s')
    ensures Shape(s) && Shape(s')
    ensures Sent(s') == Sent(s)
    ensures i < |s.pool.slots| ==> s.obs.produced[i] == Of(Sent(s), i)
    ensures i < |s'.pool.slots| ==> s'.obs.produced[i] == Of(Sent(s), i)
  {
    ReachableInv(n, s);
    RunKeepsInv(s, later, s');
    DrainedInOrder(s, later, s');
    if i < |s.pool.slots| { AllEofNothingInFlight(s, i); }
    if i < |s'.pool.slots| { AllEofNothingInFlight(s', i); }
  }

  /** With a record queued and the lock free, the next read() returns the oldest queued record. */
  lemma ReadTakesTheOldest(s: State)
    requires Inv(s) && s.caller == Idle && s.chan.queue != [] && s.chan.lock == Free
    ensures var s' := Run(s, [CallRead, CallerStep, CallerStep, CallerStep, CallerStep]);
            s'.To? && s'.state.caller == Idle && s'.state.chan.queue == s.chan.queue[1..] && s'.state.chan.lock == Free &&
            s'.state.obs.outcomes == s.obs.outcomes + [Some(s.chan.queue[0])]
  {
    var a4 := [CallRead, CallerStep, CallerStep, CallerStep];
    var a3, a2, a1 := a4[..3], a4[..2], a4[..1];
    assert [CallRead, CallerStep, CallerStep, CallerStep, CallerStep][..4] == a4;
    assert a3[..2] == a2 && a2[..1] == a1 && a1[..0] == [];
    assert Run(s, a1) == To(s.(caller := Testing));
    assert Run(s, a2) == To(s.(caller := FastLocking));
    var s3 := s.(caller := FastPopping, chan := s.chan.(lock := Caller));
    assert Run(s, a3) == To(s3);
    assert Run(s, a4) == To(s3.(caller := FastReleasing(s.chan.queue[0]), chan := s3.chan.(queue := s.chan.queue[1..])));
  }

  // ---- None does not mean that the queue is empty ----

  /** Exactly what a read() that returns None leaves queued: what was appended after its first test
      of the queue. So it leaves the queue empty if and only if nothing was appended meanwhile. */
  lemma WhatNoneLeavesQueued(n: nat, s: State, s': State)
    requires Reachable(n, s) && Shape(s) && Next(s, CallerStep) == To(s')
    requires s.caller.Scanning? && s.caller.i >= |s.pool.eof|
    ensures s'.obs.outcomes == s.obs.outcomes + [None]
    ensures s'.chan.queue == s.obs.since
    ensures s'.chan.queue == [] <==> s.obs.since == []
  {
    ReachableInv(n, s);
  }

  // A run of two readers that returns None with a record still queued. In it thread 1 holds a
  // record while read() finds the queue empty, and queues it before read() asks for more.

  /** A set of states that holds the initial state of two readers and is closed under steps. */
  ghost predicate Closed(r: State -> bool) {
    r(Init(2)) && forall s, a :: r(s) && Shape(s) && Next(s, a).To? ==> r(Next(s, a).state)
  }

  lemma RunFurther(s: State, acts: seq<Action>, t: State, a: Action)
    requires Run(s, acts) == To(t) && Shape(t)
    ensures Run(s, acts + [a]) == Next(t, a)
  {
    assert (acts + [a])[..|acts|] == acts;
  }

  lemma ReachableNext(n: nat, s: State, a: Action)
    requires Reachable(n, s) && Shape(s) && Next(s, a).To?
    ensures Reachable(n, Next(s, a).state)
  {
    var acts :| Run(Init(n), acts) == To(s);
    RunFurther(Init(n), acts, s, a);
    hide Next, Run, Shape;
  }

  lemma ReachableIsClosed()
    ensures Closed(s => Reachable(2, s))
  {
    assert Run(Init(2), []) == To(Init(2));
    hide Next, Run, Shape;
    forall s, a | Reachable(2, s) && Shape(s) && Next(s, a).To? ensures Reachable(2, Next(s, a).state) {
      ReachableNext(2, s, a);
    }
  }

  /** A waiting thread wakes up and starts reading from its component reader. */
  lemma ThreadWakes(r: State -> bool, s: State, t: nat) returns (s': State)
    requires Closed(r) && r(s) && Shape(s) && t < |s.pool.threads|
    requires s.pool.threads[t].pc == Waiting && s.chan.need && s.pool.rlocks[s.pool.threads[t].reader].None?
    ensures r(s') && Shape(s')
    ensures s' == s.(pool := At(s.pool, t, Reading).(rlocks := s.pool.rlocks[s.pool.threads[t].reader := Some(t)]))
  {
    var s1 := Next(s, ThreadStep(t)).state;
    var s2 := Next(s1, ThreadStep(t)).state;
    s' := Next(s2, ThreadStep(t)).state;
  }

  /** A thread that holds a record queues it and goes back to waiting. */
  lemma ThreadQueues(r: State -> bool, s: State, t: nat) returns (s': State)
    requires Closed(r) && r(s) && Shape(s) && t < |s.pool.threads|
    requires s.pool.threads[t].pc.Holding? && s.chan.lock == Free
    ensures r(s') && Shape(s')
    ensures var item := Item(s.pool.threads[t].reader, s.pool.threads[t].pc.record);
            s' == s.(pool := At(s.pool, t, Waiting), chan := Channel(s.chan.queue + [item], Free, false, true),
                     obs := s.obs.(since := s.obs.since + [item]))
  {
    var s1 := Next(s, ThreadStep(t)).state;
    var s2 := Next(s1, ThreadStep(t)).state;
    var s3 := Next(s2, ThreadStep(t)).state;
    var s4 := Next(s3, ThreadStep(t)).state;
    s' := Next(s4, ThreadStep(t)).state;
  }

  /** A waiting read() finds the one queued record under the lock and returns it. */
  lemma CallerReturns(r: State -> bool, s: State, item: Item) returns (s': State)
    requires Closed(r) && r(s) && Shape(s) && s.chan.lock == Free && s.chan.queue == [item]
    requires s.caller == Scanning(0) && |s.pool.eof| > 0 && !s.pool.eof[0]
    ensures r(s') && s' == s.(chan := s.chan.(queue := [], has := false), caller := Idle,
                              obs := s.obs.(outcomes := s.obs.outcomes + [Some(item)]))
  {
    var s1 := Next(s, CallerStep).state;
    var s2 := Next(s1, CallerStep).state;
    var s3 := Next(s2, CallerStep).state;
    var s4 := Next(s3, CallerStep).state;
    var s5 := Next(s4, CallerStep).state;
    s' := Next(s5, CallerStep).state;
  }

  function TwoThreads(pc0: ThreadPc, pc1: ThreadPc): Pool {
    Pool([Thread(0, pc0), Thread(1, pc1)], [Some(0), Some(1)], [false, false],
         [if pc0 == Reading then Some(0) else None, if pc1 == Reading then Some(1) else None])
  }

  /** read() starts the first thread. */
  lemma FirstThreadStarts(r: State -> bool) returns (s: State)
    requires Closed(r)
    ensures r(s)
    ensures s == State(Pool([Thread(0, Waiting)], [Some(0), None], [false, false], [None, None]),
                       Channel([], Free, false, false), Restarting(1), Observed([], [[], []], []))
  {
    var s1 := Next(Init(2), CallRead).state;
    var s2 := Next(s1, CallerStep).state;
    s := Next(s2, CallerStep).state;
    assert s.pool.threads == [Thread(0, Waiting)] && s.pool.slots == [Some(0), None];
    assert s.pool.eof == [false, false] && s.pool.rlocks == [None, None];
    assert s.obs.produced == [[], []];
  }

  /** read() starts the two threads. */
  lemma FirstReadStartsThreads(r: State -> bool) returns (s: State)
    requires Closed(r)
    ensures r(s)
    ensures s == State(TwoThreads(Waiting, Waiting), Channel([], Free, false, false), Restarting(2), Observed([], [[], []], []))
  {
    s := FirstThreadStarts(r);
    s := Next(s, CallerStep).state;
    assert s.pool == TwoThreads(Waiting, Waiting);
  }

  /** It asks for a record, and both threads start reading. */
  lemma BothWake(r: State -> bool) returns (s: State)
    requires Closed(r)
    ensures r(s)
    ensures s == State(TwoThreads(Reading, Reading), Channel([], Free, true, false), Scanning(0), Observed([], [[], []], []))
  {
    s := FirstReadStartsThreads(r);
    s := Next(s, CallerStep).state;
    s := Next(s, CallerStep).state;
    s := ThreadWakes(r, s, 0);
    assert s.pool == TwoThreads(Reading, Waiting);
    s := ThreadWakes(r, s, 1);
    assert s.pool == TwoThreads(Reading, Reading);
  }

  /** Both readers answer. */
  lemma BothAnswer(r: State -> bool) returns (s: State)
    requires Closed(r)
    ensures r(s)
    ensures s == State(TwoThreads(Holding("a"), Holding("b")), Channel([], Free, true, false), Scanning(0),
                       Observed([], [["a"], ["b"]], []))
  {
    var none: seq<Record> := [];
    assert none + ["a"] == ["a"] && none + ["b"] == ["b"];
    s := BothWake(r);
    s := Next(s, ReaderReturns(0, Some("a"))).state;
    assert s.pool == TwoThreads(Holding("a"), Reading);
    assert s.obs.produced == [["a"], []];
    s := Next(s, ReaderReturns(1, Some("b"))).state;
    assert s.pool == TwoThreads(Holding("a"), Holding("b"));
    assert s.obs.produced == [["a"], ["b"]];
  }

  /** Thread 0 queues its record, read() returns it, and thread 1 still holds its own. */
  lemma FirstReadReturns(r: State -> bool) returns (s: State)
    requires Closed(r)
    ensures r(s)
    ensures s == State(TwoThreads(Waiting, Holding("b")), Channel([], Free, false, false), Idle,
                       Observed([Some(Item(0, "a"))], [["a"], ["b"]], [Item(0, "a")]))
  {
    s := BothAnswer(r);
    s := ThreadQueues(r, s, 0);
    assert s.pool == TwoThreads(Waiting, Holding("b"));
    s := CallerReturns(r, s, Item(0, "a"));
  }

  /** The next read() finds the queue empty; now thread 1 queues "b". */
  lemma RecordArrivesLate(r: State -> bool) returns (s: State)
    requires Closed(r)
    ensures r(s)
    ensures s == State(TwoThreads(Waiting, Waiting), Channel([Item(1, "b")], Free, false, true), Restarting(0),
                       Observed([Some(Item(0, "a"))], [["a"], ["b"]], [Item(1, "b")]))
  {
    s := FirstReadReturns(r);
    s := Next(s, CallRead).state;
    s := Next(s, CallerStep).state;
    s := ThreadQueues(r, s, 1);
    assert s.pool == TwoThreads(Waiting, Waiting);
  }

  /** Only then does read() ask for more; both readers are read again. */
  lemma SecondReadAsks(r: State -> bool) returns (s: State)
    requires Closed(r)
    ensures r(s)
    ensures s == State(TwoThreads(Reading, Reading), Channel([Item(1, "b")], Free, true, true), Scanning(0),
                       Observed([Some(Item(0, "a"))], [["a"], ["b"]], [Item(1, "b")]))
  {
    s := RecordArrivesLate(r);
    s := Next(s, CallerStep).state;
    s := Next(s, CallerStep).state;
    s := Next(s, CallerStep).state;
    s := Next(s, CallerStep).state;
    s := ThreadWakes(r, s, 0);
    assert s.pool == TwoThreads(Reading, Waiting);
    s := ThreadWakes(r, s, 1);
    assert s.pool == TwoThreads(Reading, Reading);
  }

  /** Both readers report EOF. */
  lemma BothReportEof(r: State -> bool) returns (s: State)
    requires Closed(r)
    ensures r(s) && Shape(s)
    ensures s.pool.eof == [true, true] && s.chan.queue == [Item(1, "b")]
    ensures s.caller == Scanning(0) && s.obs.outcomes == [Some(Item(0, "a"))]
  {
    s := SecondReadAsks(r);
    s := Next(s, ReaderReturns(0, None)).state;
    s := Next(s, ThreadStep(0)).state;
    assert s.pool == Pool([Thread(0, Exiting), Thread(1, Reading)], [Some(0), Some(1)], [true, false], [None, Some(1)]);
    s := Next(s, ReaderReturns(1, None)).state;
    s := Next(s, ThreadStep(1)).state;
    assert s.pool == Pool([Thread(0, Exiting), Thread(1, Exiting)], [Some(0), Some(1)], [true, true], [None, None]);
  }

  /** read() can return None with a record still in the queue. */
  lemma NoneWithARecordQueued() returns (s: State)
    ensures Reachable(2, s)
    ensures s.obs.outcomes == [Some(Item(0, "a")), None] && s.chan.queue == [Item(1, "b")] && s.caller == Idle
  {
    ReachableIsClosed();
    var r := x => Reachable(2, x);
    s := BothReportEof(r);
    s := Next(s, CallerStep).state;
    s := Next(s, CallerStep).state;
    s := Next(s, CallerStep).state;
    assert r(s);
  }
}
