/**
 What one client receives of one field over a whole run, in which publishers add samples, the clean-up
 task prunes the cache and the client says `ready`, in any order.
 */
module DeliveryRuns {
  import opened Common
  import opened RecordCaches
  import opened Formats
  import opened Subscriptions

  datatype Event =
    | Arrive(s: Sample)                                        // cache_record adds a sample
    | Clean(oldest: int, maxRecords: nat, minBack: nat)        // cleanup runs
    | Ready                                                    // the client is sent what is new

  /** The field's cached list, the client's mark and what it was sent; and, for an observer, every
      sample that ever arrived and, as indices into that, how many have left the cache, how many the
      client is done with, which were sent, and which had left the cache when their turn came. */
  datatype State = State(list: seq<Sample>, mark: int, out: seq<Sample>,
                         arrived: seq<Sample>, dropped: nat, seen: nat, sent: seq<nat>, missed: seq<nat>)

  /** The numbers from `from` up to `to`. */
  function Upto(from: nat, to: nat): seq<nat> {
    if from >= to then [] else Upto(from, to - 1) + [to - 1]
  }

  lemma {:induction false} UptoMembers(from: nat, to: nat, j: nat)
    ensures j in Upto(from, to) <==> from <= j < to
  {
    if from < to { UptoMembers(from, to - 1, j); }
  }

  function DropFront(st: State, k: nat): State
    requires k <= |st.list|
  {
    st.(list := st.list[k..], dropped := st.dropped + k)
  }

  function Step(st: State, e: Event, spec: FieldSpec): State {
    match e
    case Arrive(s) => st.(list := st.list + [s], arrived := st.arrived + [s])
    case Clean(oldest, maxRecords, minBack) =>
      DropFront(st, Dropped(st.list, oldest, maxRecords, minBack))
    case Ready =>
      match DictReply(st.list, st.mark, spec)
      case None => st
      case Some(r) =>
        st.(mark := if r == [] then st.mark else r[|r| - 1].time,
            out := st.out + r,
            seen := |st.arrived|,
            sent := st.sent + Upto(Max(st.dropped, st.seen), |st.arrived|),
            missed := st.missed + Upto(st.seen, st.dropped))
  }

  /** Samples arrive in order: each is newer than all before it, and all times are positive. */
  predicate InOrder(st: State, e: Event) {
    e.Arrive? ==> e.s.time > 0 && (st.arrived != [] ==> st.arrived[|st.arrived| - 1].time < e.s.time)
  }

  /** The cache is what cleanup has left of the arrivals, and the mark separates what the client is
      done with from what is still to be sent. */
  predicate CacheOk(st: State) {
    && Rising(st.arrived)
    && st.dropped <= |st.arrived| && st.list == st.arrived[st.dropped..]
    && (st.arrived != [] ==> st.list != [])
    && st.seen <= |st.arrived|
    && (st.dropped < st.seen ==> st.arrived[st.seen - 1].time <= st.mark)
    && (Max(st.dropped, st.seen) < |st.arrived| ==> st.mark < st.arrived[Max(st.dropped, st.seen)].time)
    && (st.mark <= 0 || (st.arrived != [] && st.mark <= st.arrived[|st.arrived| - 1].time))
  }

  /** The client was sent the samples with the indices in sent, in order and each once. */
  predicate SentOk(arrived: seq<Sample>, out: seq<Sample>, sent: seq<nat>, start: nat, seen: nat)
    requires seen <= |arrived|
  {
    && |out| == |sent|
    && (forall k :: 0 <= k < |sent| ==> start <= sent[k] < seen && out[k] == arrived[sent[k]])
    && (forall i, k :: 0 <= i < k < |sent| ==> sent[i] < sent[k])
  }

  /** Of the samples from start to seen all that were not sent were missed, every one because it had been
      dropped. */
  predicate Accounted(sent: seq<nat>, missed: seq<nat>, start: nat, seen: nat, dropped: nat) {
    && (forall j {:trigger j in missed} :: start <= j < seen ==> j in sent || j in missed)
    && (forall j :: j in missed ==> start <= j < seen && j < dropped)
    && (forall j :: j in missed ==> j !in sent)
  }

  predicate LedgerOk(st: State, start: nat) {
    && start <= st.seen <= |st.arrived|
    && SentOk(st.arrived, st.out, st.sent, start, st.seen)
    && Accounted(st.sent, st.missed, start, st.seen, st.dropped)
  }

  predicate Inv(st: State, start: nat) { CacheOk(st) && LedgerOk(st, start) }

  lemma RisingGrows(list: seq<Sample>, s: Sample)
    requires Rising(list) && s.time > 0 && (list != [] ==> list[|list| - 1].time < s.time)
    ensures Rising(list + [s])
  {
    forall i | 0 <= i < |list| ensures list[i].time < s.time {
      RisesTo(list, i, |list| - 1);
    }
  }

  lemma SliceGrows(list: seq<Sample>, k: nat, s: Sample)
    requires k <= |list|
    ensures (list + [s])[k..] == list[k..] + [s]
  {
  }

  lemma ArriveKeepsCache(st: State, s: Sample, spec: FieldSpec)
    requires CacheOk(st) && InOrder(st, Arrive(s))
    ensures CacheOk(Step(st, Arrive(s), spec))
  {
    RisingGrows(st.arrived, s);
    SliceGrows(st.arrived, st.dropped, s);
    hide Rising, DictReply, Dropped, Upto;
  }

  lemma ArriveKeepsSent(arrived: seq<Sample>, s: Sample, out: seq<Sample>, sent: seq<nat>, start: nat, seen: nat)
    requires seen <= |arrived| && SentOk(arrived, out, sent, start, seen)
    ensures SentOk(arrived + [s], out, sent, start, seen)
  {
  }

  lemma ArriveKeepsInv(st: State, start: nat, s: Sample, spec: FieldSpec)
    requires Inv(st, start) && InOrder(st, Arrive(s))
    ensures Inv(Step(st, Arrive(s), spec), start)
  {
    ArriveKeepsCache(st, s, spec);
    hide Rising, CacheOk, SentOk, Accounted, DictReply, Dropped, Upto;
    ArriveKeepsSent(st.arrived, s, st.out, st.sent, start, st.seen);
  }

  lemma RisesTo(list: seq<Sample>, i: nat, j: nat)
    requires Rising(list) && i <= j < |list|
    ensures list[i].time <= list[j].time
  {
  }

  lemma DropKeepsCache(st: State, k: nat)
    requires CacheOk(st) && k <= |st.list| && (st.list != [] ==> k < |st.list|)
    ensures CacheOk(DropFront(st, k))
  {
    hide Rising;
    var st' := DropFront(st, k);
    SliceOfSlice(st.arrived, st.dropped, k);
    assert st'.list == st.arrived[st'.dropped..];
    if Max(st.dropped + k, st.seen) < |st.arrived| {
      RisesTo(st.arrived, Max(st.dropped, st.seen), Max(st.dropped + k, st.seen));
    }
  }

  lemma CleanKeepsInv(st: State, start: nat, oldest: int, maxRecords: nat, minBack: nat, spec: FieldSpec)
    requires Inv(st, start)
    ensures Inv(Step(st, Clean(oldest, maxRecords, minBack), spec), start)
  {
    hide Rising, DictReply, Upto;
    var k := Dropped(st.list, oldest, maxRecords, minBack);
    DropKeepsCache(st, k);
    DropKeepsLedger(st, start, k);
    hide Dropped, DropFront, CacheOk, LedgerOk;
  }

  lemma DropKeepsLedger(st: State, start: nat, k: nat)
    requires LedgerOk(st, start) && k <= |st.list|
    ensures LedgerOk(DropFront(st, k), start)
  {
    hide SentOk;
  }

  lemma RisingSuffix(list: seq<Sample>, k: nat)
    requires Rising(list) && k <= |list|
    ensures Rising(list[k..])
  {
  }

  lemma ReplyIs(list: seq<Sample>, mark: int, spec: FieldSpec, k: nat)
    requires Rising(list) && k <= |list| && spec.backSeconds != -1
    requires (k > 0 ==> list[k - 1].time <= mark) && (k < |list| ==> mark < list[k].time)
    ensures DictReply(list, mark, spec) == if k == |list| then None else Some(list[k..])
  {
    if k < |list| {
      RisesTo(list, k, |list| - 1);
      hide Newer;
      NewerIsSuffix(list, mark, k);
    }
  }

  /** What ready sends is exactly what is both cached and not yet sent. */
  lemma ReadySends(st: State, spec: FieldSpec)
    requires CacheOk(st) && spec.backSeconds != -1
    ensures var from := Max(st.dropped, st.seen);
            from <= |st.arrived| &&
            DictReply(st.list, st.mark, spec) == if from == |st.arrived| then None else Some(st.arrived[from..])
  {
    hide Rising, DictReply;
    var k := Max(st.dropped, st.seen) - st.dropped;
    RisingSuffix(st.arrived, st.dropped);
    assert k > 0 ==> st.list[k - 1] == st.arrived[st.seen - 1];
    assert k < |st.list| ==> st.list[k] == st.arrived[st.dropped + k];
    SliceOfSlice(st.arrived, st.dropped, k);
    hide CacheOk;
    ReplyIs(st.list, st.mark, spec, k);
  }

  lemma ReadyKeepsCache(st: State, spec: FieldSpec)
    requires CacheOk(st) && spec.backSeconds != -1
    ensures CacheOk(Step(st, Ready, spec))
  {
    ReadySends(st, spec);
    hide DictReply, Upto;
  }

  lemma {:induction false} UptoAt(from: nat, to: nat)
    ensures |Upto(from, to)| == if from <= to then to - from else 0
    ensures forall k :: 0 <= k < |Upto(from, to)| ==> Upto(from, to)[k] == from + k
  {
    if from < to { UptoAt(from, to - 1); }
  }

  lemma SentGrows(arrived: seq<Sample>, out: seq<Sample>, sent: seq<nat>, start: nat, seen: nat, from: nat)
    requires start <= seen <= from <= |arrived| && SentOk(arrived, out, sent, start, seen)
    ensures SentOk(arrived, out + arrived[from..], sent + Upto(from, |arrived|), start, |arrived|)
  {
    UptoAt(from, |arrived|);
    hide Upto;
  }

  lemma AccountGrows(sent: seq<nat>, missed: seq<nat>, start: nat, seen: nat, dropped: nat, from: nat, n: nat)
    requires start <= seen <= from <= n && (from == seen || from == dropped)
    requires (forall j :: j in sent ==> j < seen) && Accounted(sent, missed, start, seen, dropped)
    ensures Accounted(sent + Upto(from, n), missed + Upto(seen, from), start, n, dropped)
  {
    hide Upto;
    var sent', missed' := sent + Upto(from, n), missed + Upto(seen, from);
    forall j {:trigger j in missed'} | start <= j < n ensures j in sent' || j in missed' {
      assert j < seen ==> j in sent || j in missed;
      UptoMembers(seen, from, j);
      UptoMembers(from, n, j);
    }
    forall j: nat | j in missed' ensures start <= j < n && j < dropped && j !in sent' {
      UptoMembers(seen, from, j);
      UptoMembers(from, n, j);
    }
  }

  /** Sending everything from index `from` on and missing what is before it keeps the ledger. */
  lemma LedgerGrows(st: State, start: nat, from: nat, mark: int)
    requires LedgerOk(st, start) && st.seen <= from <= |st.arrived| && (from == st.seen || from == st.dropped)
    ensures LedgerOk(st.(mark := mark, out := st.out + st.arrived[from..], seen := |st.arrived|,
                         sent := st.sent + Upto(from, |st.arrived|), missed := st.missed + Upto(st.seen, from)), start)
  {
    SentBefore(st.arrived, st.out, st.sent, start, st.seen);
    hide SentOk, Accounted, Upto;
    SentGrows(st.arrived, st.out, st.sent, start, st.seen, from);
    AccountGrows(st.sent, st.missed, start, st.seen, st.dropped, from, |st.arrived|);
  }

  lemma SentBefore(arrived: seq<Sample>, out: seq<Sample>, sent: seq<nat>, start: nat, seen: nat)
    requires seen <= |arrived| && SentOk(arrived, out, sent, start, seen)
    ensures forall j :: j in sent ==> j < seen
  {
  }

  lemma ReadyKeepsLedger(st: State, start: nat, spec: FieldSpec)
    requires Inv(st, start) && spec.backSeconds != -1
    ensures LedgerOk(Step(st, Ready, spec), start)
  {
    ReadySends(st, spec);
    var from := Max(st.dropped, st.seen);
    var reply := DictReply(st.list, st.mark, spec);
    if reply.Some? {
      assert Upto(st.seen, st.dropped) == Upto(st.seen, from);
      hide DictReply, Upto;
      LedgerGrows(st, start, from, reply.value[|reply.value| - 1].time);
    }
  }

  lemma StepKeepsInv(st: State, start: nat, e: Event, spec: FieldSpec)
    requires Inv(st, start) && InOrder(st, e) && spec.backSeconds != -1
    ensures Inv(Step(st, e, spec), start)
  {
    match e
    case Arrive(s) => ArriveKeepsInv(st, start, s, spec);
    case Clean(oldest, maxRecords, minBack) => CleanKeepsInv(st, start, oldest, maxRecords, minBack, spec);
    case Ready => ReadyKeepsCache(st, spec); ReadyKeepsLedger(st, start, spec);
  }

  /** For one field and its mark this is what the server does on `ready` with a connection that has its own
      specification of the field. */
  lemma ReadyIsStep(data: Sent, requested: map<string, FieldSpec>, marks: map<string, int>, f: string, st: State)
    requires f in requested && f in marks && Get(data, f, []) == st.list && marks[f] == st.mark
    ensures var (sent, t) := (DictSent(data, requested, marks), Step(st, Ready, requested[f]));
            && (forall g :: g in sent ==> sent[g] != [])
            && t.out == st.out + Get(sent, f, [])
            && MarksAfter(marks, sent)[f] == t.mark
  {
    hide Upto, Newer;
    var sent := DictSent(data, requested, marks);
    forall g | g in sent ensures sent[g] != [] {
      SentNotEmpty(Get(data, g, []), Get(marks, g, 0), requested[g]);
    }
  }

  lemma SentNotEmpty(list: seq<Sample>, mark: int, spec: FieldSpec)
    ensures DictReply(list, mark, spec).Some? ==> DictReply(list, mark, spec).value != []
  {
    if list != [] && list[|list| - 1].time > mark { LastIsNewer(list, mark); }
  }

  // ---- Whole runs ----

  /** The state after the events. */
  function Run(st: State, events: seq<Event>, spec: FieldSpec): State
    decreases |events|
  {
    if events == [] then st
    else Step(Run(st, events[..|events| - 1], spec), events[|events| - 1], spec)
  }

  predicate AllInOrder(st: State, events: seq<Event>, spec: FieldSpec)
    decreases |events|
  {
    events == [] ||
    (AllInOrder(st, events[..|events| - 1], spec) &&
     InOrder(Run(st, events[..|events| - 1], spec), events[|events| - 1]))
  }

  /** A subscription made when `dropped` of the samples that had arrived were no longer cached. */
  function Subscribed(arrived: seq<Sample>, dropped: nat, now: int, spec: FieldSpec): State
    requires dropped <= |arrived|
  {
    var list := arrived[dropped..];
    var mark := FirstMark(list, now, spec);
    NewerFits(list, mark, |list|);
    State(list, mark, [], arrived, dropped, |arrived| - |Newer(list, mark)|, [], [])
  }

  lemma {:induction false} NewerFits(list: seq<Sample>, mark: int, n: nat)
    requires n <= |list|
    ensures |NewerTo(list, mark, n)| <= n
  {
    if n > 0 { NewerFits(list, mark, n - 1); }
  }

  /** In a rising list the newer samples are the last ones. */
  lemma {:induction false} NewerBorder(list: seq<Sample>, mark: int, n: nat)
    requires Rising(list) && n <= |list|
    ensures var k := n - |NewerTo(list, mark, n)|;
            0 <= k <= n && (k > 0 ==> list[k - 1].time <= mark) && (k < n ==> mark < list[k].time)
  {
    if n > 0 { NewerBorder(list, mark, n - 1); }
  }

  lemma SubscribedInv(arrived: seq<Sample>, dropped: nat, now: int, spec: FieldSpec)
    requires Rising(arrived) && dropped <= |arrived| && (arrived != [] ==> dropped < |arrived|)
    ensures var st := Subscribed(arrived, dropped, now, spec); Inv(st, st.seen) && st.dropped <= st.seen
  {
    hide FirstMark, NewerTo;
    var list := arrived[dropped..];
    assert Rising(list);
    FirstMarkIsCached(list, now, spec);
    NewerBorder(list, FirstMark(list, now, spec), |list|);
    hide Rising;
  }

  /** With seconds 0 what has arrived by then is never owed, with seconds -1 the newest sample alone is. */
  lemma OwedFromNowOn(arrived: seq<Sample>, dropped: nat, now: int, spec: FieldSpec)
    requires Rising(arrived) && dropped <= |arrived| && (arrived != [] ==> dropped < |arrived|)
    ensures spec.seconds == 0 ==> Subscribed(arrived, dropped, now, spec).seen == |arrived|
    ensures spec.seconds == -1 && arrived != [] ==> Subscribed(arrived, dropped, now, spec).seen == |arrived| - 1
  {
    RisingSuffix(arrived, dropped);
    hide Rising, FirstMark, Newer;
    if spec.seconds == 0 { NothingCachedIsSent(arrived[dropped..], now, spec); }
    if spec.seconds == -1 { NewestIsSent(arrived[dropped..], now, spec); }
  }

  lemma {:induction false} RunKeepsInv(st: State, start: nat, events: seq<Event>, spec: FieldSpec)
    requires Inv(st, start) && AllInOrder(st, events, spec) && spec.backSeconds != -1
    ensures Inv(Run(st, events, spec), start)
    decreases |events|
  {
    if events != [] {
      var rest := events[..|events| - 1];
      RunKeepsInv(st, start, rest, spec);
      StepKeepsInv(Run(st, rest, spec), start, events[|events| - 1], spec);
    }
  }

  /** Over any run after subscribing, what the client was sent are samples it had a claim to, each at
      most once and in order of arrival; and any other sample it is done with had been dropped by
      cleanup before it could be sent. */
  lemma SentOnceInOrderOrDropped(arrived: seq<Sample>, dropped: nat, now: int, spec: FieldSpec, events: seq<Event>)
    requires Rising(arrived) && dropped <= |arrived| && (arrived != [] ==> dropped < |arrived|)
    requires spec.backSeconds != -1 && AllInOrder(Subscribed(arrived, dropped, now, spec), events, spec)
    ensures var st0 := Subscribed(arrived, dropped, now, spec);
            LedgerOk(Run(st0, events, spec), st0.seen)
  {
    var st0 := Subscribed(arrived, dropped, now, spec);
    SubscribedInv(arrived, dropped, now, spec);
    RunKeepsInv(st0, st0.seen, events, spec);
  }

  /** Whenever cleanup runs, at most one sample more is unsent than it must keep back. */
  predicate KeepsUp(st: State, events: seq<Event>, spec: FieldSpec)
    decreases |events|
  {
    events != [] ==>
      && KeepsUp(st, events[..|events| - 1], spec)
      && CleansLightly(Run(st, events[..|events| - 1], spec), events[|events| - 1])
  }

  predicate CleansLightly(st: State, e: Event) {
    e.Clean? ==> |st.arrived| <= st.seen + e.minBack + 1
  }

  /** All that the client was sent so far is one stretch of the arrivals without gaps. */
  predicate NoGaps(st: State, start: nat) {
    st.dropped <= st.seen && st.missed == [] && start <= st.seen <= |st.arrived| && st.out == st.arrived[start..st.seen]
  }

  lemma CleanLeavesNoGaps(st: State, start: nat, e: Event, spec: FieldSpec)
    requires CacheOk(st) && NoGaps(st, start) && e.Clean? && CleansLightly(st, e)
    ensures NoGaps(Step(st, e, spec), start)
  {
    CleanupKeeps(st.list, e.oldest, e.maxRecords, e.minBack);
    hide Rising, Dropped, DictReply;
  }

  /** With more unsent, a cleanup of samples that are all too old drops one of them. */
  lemma CleanDropsUnsent(st: State, e: Event, spec: FieldSpec)
    requires CacheOk(st) && e.Clean? && !CleansLightly(st, e)
    requires forall k :: 0 <= k < |st.list| ==> st.list[k].time <= e.oldest
    ensures Step(st, e, spec).dropped > st.seen
  {
    CleanupKeeps(st.list, e.oldest, e.maxRecords, e.minBack);
    hide Rising, Dropped, DictReply;
  }

  lemma ReadyLeavesNoGaps(st: State, start: nat, spec: FieldSpec)
    requires CacheOk(st) && NoGaps(st, start) && spec.backSeconds != -1
    ensures NoGaps(Step(st, Ready, spec), start)
  {
    hide Rising, DictReply, Upto;
    ReadySends(st, spec);
    UptoAt(st.seen, st.dropped);
    SlicesJoin(st.arrived, start, st.seen);
  }

  lemma SlicesJoin(list: seq<Sample>, i: nat, j: nat)
    requires i <= j <= |list|
    ensures list[i..j] + list[j..] == list[i..|list|]
  {
  }

  lemma StepLeavesNoGaps(st: State, start: nat, e: Event, spec: FieldSpec)
    requires Inv(st, start) && NoGaps(st, start) && spec.backSeconds != -1 && CleansLightly(st, e)
    ensures NoGaps(Step(st, e, spec), start)
  {
    hide CacheOk, LedgerOk;
    match e
    case Arrive(s) =>
    case Clean(oldest, maxRecords, minBack) => CleanLeavesNoGaps(st, start, e, spec);
    case Ready => ReadyLeavesNoGaps(st, start, spec);
  }

  lemma {:induction false} RunLeavesNoGaps(st: State, start: nat, events: seq<Event>, spec: FieldSpec)
    requires Inv(st, start) && NoGaps(st, start) && spec.backSeconds != -1
    requires AllInOrder(st, events, spec) && KeepsUp(st, events, spec)
    ensures NoGaps(Run(st, events, spec), start)
    decreases |events|
  {
    if events != [] {
      var rest := events[..|events| - 1];
      RunLeavesNoGaps(st, start, rest, spec);
      RunKeepsInv(st, start, rest, spec);
      StepLeavesNoGaps(Run(st, rest, spec), start, events[|events| - 1], spec);
    }
  }

  /** A client that keeps up with what each cleanup must keep back is sent every sample it has a claim to,
      however many were cached when it subscribed. */
  lemma NothingMissed(arrived: seq<Sample>, dropped: nat, now: int, spec: FieldSpec, events: seq<Event>)
    requires Rising(arrived) && dropped <= |arrived| && (arrived != [] ==> dropped < |arrived|)
    requires spec.backSeconds != -1
    requires AllInOrder(Subscribed(arrived, dropped, now, spec), events, spec)
    requires KeepsUp(Subscribed(arrived, dropped, now, spec), events, spec)
    ensures var st0 := Subscribed(arrived, dropped, now, spec);
            var st := Run(st0, events, spec);
            st.missed == [] && st0.seen <= st.seen <= |st.arrived| && st.out == st.arrived[st0.seen..st.seen]
  {
    var st0 := Subscribed(arrived, dropped, now, spec);
    SubscribedInv(arrived, dropped, now, spec);
    hide CacheOk, LedgerOk;
    RunLeavesNoGaps(st0, st0.seen, events, spec);
  }

  // ---- A client that wants only the latest ----

  /** Every ready sends the newest arrival, whether or not it was sent before, and nothing else. */
  predicate OnlyLatest(st: State) {
    (forall s :: s in st.out ==> s in st.arrived) && st.dropped <= |st.arrived| && st.list == st.arrived[st.dropped..] &&
    (st.arrived != [] ==> st.list != [])
  }

  lemma StepSendsLatest(st: State, e: Event, spec: FieldSpec)
    requires OnlyLatest(st) && spec.backSeconds == -1
    ensures var st' := Step(st, e, spec);
            && OnlyLatest(st')
            && st'.out == st.out + if e.Ready? && st.arrived != [] then [st.arrived[|st.arrived| - 1]] else []
  {
    hide Upto;
    if e.Clean? {
      var k := Dropped(st.list, e.oldest, e.maxRecords, e.minBack);
      SliceOfSlice(st.arrived, st.dropped, k);
    } else if e.Ready? && st.arrived != [] {
      assert st.list[|st.list| - 1] == st.arrived[|st.arrived| - 1];
    }
  }

  /** The newest arrival at each ready among the events, in a run that begins with these arrivals. */
  function LatestAtReadys(arrived: seq<Sample>, events: seq<Event>): seq<Sample>
    decreases |events|
  {
    if events == [] then []
    else match events[0]
      case Arrive(s) => LatestAtReadys(arrived + [s], events[1..])
      case Clean(_, _, _) => LatestAtReadys(arrived, events[1..])
      case Ready => (if arrived == [] then [] else [arrived[|arrived| - 1]]) + LatestAtReadys(arrived, events[1..])
  }

  lemma {:induction false} RunFromFirst(st: State, events: seq<Event>, spec: FieldSpec)
    requires events != []
    ensures Run(st, events, spec) == Run(Step(st, events[0], spec), events[1..], spec)
    decreases |events|
  {
    hide Step;
    if |events| == 1 {
      assert events[..0] == [] && events[1..] == [];
    } else {
      RunFromFirst(st, events[..|events| - 1], spec);
      assert events[..|events| - 1][1..] == events[1..][..|events| - 2];
    }
  }

  lemma Associates(a: seq<Sample>, b: seq<Sample>, c: seq<Sample>)
    ensures (a + b) + c == a + (b + c)
  {
  }

  lemma LatestNext(arrived: seq<Sample>, events: seq<Event>)
    requires events != []
    ensures var e := events[0];
            LatestAtReadys(arrived, events) ==
            (if e.Ready? && arrived != [] then [arrived[|arrived| - 1]] else []) +
            LatestAtReadys(arrived + (if e.Arrive? then [e.s] else []), events[1..])
  {
    assert arrived + [] == arrived;
  }

  /** Over any run, whatever cleanup drops, what a client with back_seconds -1 was sent is the newest arrival
      at each of its readys. */
  lemma {:induction false} LatestEachTime(st: State, events: seq<Event>, spec: FieldSpec)
    requires OnlyLatest(st) && spec.backSeconds == -1
    ensures Run(st, events, spec).out == st.out + LatestAtReadys(st.arrived, events)
    decreases |events|
  {
    if events != [] {
      var st' := Step(st, events[0], spec);
      StepSendsLatest(st, events[0], spec);
      assert st'.arrived == st.arrived + if events[0].Arrive? then [events[0].s] else [];
      LatestNext(st.arrived, events);
      hide *;
      RunFromFirst(st, events, spec);
      LatestEachTime(st', events[1..], spec);
      var now := if events[0].Ready? && st.arrived != [] then [st.arrived[|st.arrived| - 1]] else [];
      assert st'.out == st.out + now;
      Associates(st.out, now, LatestAtReadys(st'.arrived, events[1..]));
    }
  }
}
