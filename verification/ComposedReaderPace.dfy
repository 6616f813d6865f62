/**
 How far the component readers of ComposedReader run ahead of the client.
 */
module ComposedReaderPace {
  import opened Common
  import opened ComposedReader

  /** A call of read() that has not asked for a record yet, and may not have to. */
  predicate Pending(pc: CallerPc) { IsFast(pc) || pc.Restarting? || pc == SettingNeed }

  /** How often calls of read() may have asked for a record, once there were n calls. */
  function Budget(n: nat, pc: CallerPc): int { n - if Pending(pc) then 1 else 0 }

  predicate HasRecord(pc: ThreadPc) { pc.Holding? || pc.Appending? || pc == SettingHas || pc == ClearingNeed }

  /** Reader i is being read or about to be, or would be if its thread looked now. */
  predicate Claims(p: Pool, need: bool, i: nat)
    requires PoolShape(p) && i < |p.slots|
  {
    if p.slots[i].None? then need
    else
      var pc := p.threads[p.slots[i].value].pc;
      pc == Locking || pc == Reading || (need && !HasRecord(pc))
  }

  predicate Paced(s: State, n: nat)
    requires Shape(s)
  {
    forall i :: 0 <= i < |s.pool.slots| ==>
      |s.obs.produced[i]| + (if Claims(s.pool, s.chan.need, i) then 1 else 0) <= Budget(n, s.caller)
  }

  lemma RestartKeepsPace(s: State, n: nat, s': State)
    requires Shape(s) && Shape(s') && Paced(s, n) && s.caller.Restarting? && WakeNext(s) == To(s')
    ensures Paced(s', n)
  {
    assert forall t :: 0 <= t < |s.pool.threads| ==> s'.pool.threads[t] == s.pool.threads[t];
    forall i | 0 <= i < |s.pool.slots| ensures Claims(s'.pool, s.chan.need, i) <==> Claims(s.pool, s.chan.need, i) { }
  }

  lemma CallerKeepsPace(s: State, n: nat, s': State)
    requires Shape(s) && Shape(s') && Paced(s, n) && Next(s, CallerStep) == To(s')
    ensures Paced(s', n)
  {
    if s.caller.Restarting? {
      RestartKeepsPace(s, n, s');
    } else {
      assert s'.pool == s.pool && s'.obs.produced == s.obs.produced;
      assert s'.chan.need == s.chan.need || s.caller == SettingNeed;
    }
  }

  /** A thread that moves is its reader's one live thread. */
  lemma ThreadKeepsPace(s: State, t: nat, n: nat, s': State)
    requires Inv(s) && Shape(s') && Paced(s, n) && t < |s.pool.threads| && Next(s, ThreadStep(t)) == To(s')
    ensures Paced(s', n)
  {
    var me := s.pool.threads[t].reader;
    assert s.pool.slots[me] == Some(t);
    assert s'.pool.slots == s.pool.slots && s'.obs.produced == s.obs.produced && s'.caller == s.caller;
    assert s'.chan.need ==> s.chan.need;
    assert forall u :: 0 <= u < |s.pool.threads| && u != t ==> s'.pool.threads[u] == s.pool.threads[u];
    assert s'.pool.threads[t].reader == me;
    hide Inv;
    forall i | 0 <= i < |s.pool.slots| ensures Claims(s'.pool, s'.chan.need, i) ==> Claims(s.pool, s.chan.need, i) {
      if i == me { ClaimFollows(s, t, s'); }
    }
  }

  lemma ClaimFollows(s: State, t: nat, s': State)
    requires Shape(s) && Shape(s') && t < |s.pool.threads| && Next(s, ThreadStep(t)) == To(s')
    requires s.pool.slots[s.pool.threads[t].reader] == Some(t) && s'.pool.slots == s.pool.slots
    ensures var i := s.pool.threads[t].reader; Claims(s'.pool, s'.chan.need, i) ==> Claims(s.pool, s.chan.need, i)
  {
  }

  lemma ReaderKeepsPace(s: State, t: nat, result: Option<Record>, n: nat, s': State)
    requires Inv(s) && Shape(s') && Paced(s, n) && Next(s, ReaderReturns(t, result)) == To(s')
    ensures Paced(s', n)
  {
    var me := s.pool.threads[t].reader;
    assert s.pool.slots[me] == Some(t);
    assert forall u :: 0 <= u < |s.pool.threads| && u != t ==> s'.pool.threads[u] == s.pool.threads[u];
    assert s'.pool.slots == s.pool.slots && s'.chan == s.chan && s'.caller == s.caller;
    hide Inv;
    forall i | 0 <= i < |s.pool.slots| && i != me ensures Claims(s'.pool, s.chan.need, i) <==> Claims(s.pool, s.chan.need, i) { }
  }

  lemma StepKeepsPace(s: State, a: Action, n: nat, s': State)
    requires Inv(s) && Shape(s') && Paced(s, n) && Next(s, a) == To(s')
    ensures Paced(s', if a.CallRead? then n + 1 else n)
  {
    match a
    case CallRead =>
    case CallerStep => CallerKeepsPace(s, n, s');
    case ThreadStep(t) => ThreadKeepsPace(s, t, n, s');
    case ReaderReturns(t, result) => ReaderKeepsPace(s, t, result, n, s');
  }

  /** How often the client calls read(). */
  function Calls(acts: seq<Action>): nat {
    if acts == [] then 0 else Calls(acts[..|acts| - 1]) + if acts[|acts| - 1].CallRead? then 1 else 0
  }

  lemma {:induction false} RunKeepsPace(s: State, acts: seq<Action>, s': State)
    requires Inv(s) && Paced(s, 0) && Run(s, acts) == To(s')
    ensures Inv(s') && Paced(s', Calls(acts))
    decreases |acts|
  {
    if acts != [] {
      var before := Run(s, acts[..|acts| - 1]).state;
      RunKeepsPace(s, acts[..|acts| - 1], before);
      StepKeepsInv(before, acts[|acts| - 1], s');
      StepKeepsPace(before, acts[|acts| - 1], Calls(acts[..|acts| - 1]), s');
    }
  }

  /** However the threads and the client interleave, no reader has ever given more records than the client has
      called read(): readers are read only on demand. */
  lemma NoReaderRunsAhead(n: nat, acts: seq<Action>, s: State, i: nat)
    requires Run(Init(n), acts) == To(s)
    ensures Shape(s) && (i < |s.pool.slots| ==> |s.obs.produced[i]| <= Calls(acts))
  {
    ReachableInv(n, Init(n)) by { assert Run(Init(n), []) == To(Init(n)); }
    RunKeepsPace(Init(n), acts, s);
  }
}
