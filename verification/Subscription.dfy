/**
 A client's subscription: for each requested field the timestamp of the last sample sent, the samples
 a `ready` message gets back, and the two formats in which it can get them. Wildcard fields are not
 modelled; every field specification is a dict.
 */
module Subscriptions {
  import opened Common
  import opened RecordCaches
  import opened Formats

  /** What a client asks of a field. `subscribe` reads seconds and backRecords, `ready` backSeconds. */
  datatype FieldSpec = FieldSpec(seconds: int, backRecords: nat, backSeconds: int)

  /** Of the first n samples, those newer than a mark, in order. */
  function NewerTo(list: seq<Sample>, mark: int, n: nat): seq<Sample>
    requires n <= |list|
  {
    if n == 0 then []
    else if list[n - 1].time > mark then NewerTo(list, mark, n - 1) + [list[n - 1]]
    else NewerTo(list, mark, n - 1)
  }

  function Newer(list: seq<Sample>, mark: int): seq<Sample> {
    NewerTo(list, mark, |list|)
  }

  /** In a rising list the samples newer than the first k are the rest of the list. */
  lemma {:induction false} NewerToIsSlice(list: seq<Sample>, mark: int, k: nat, n: nat)
    requires k <= n <= |list|
    requires forall j :: 0 <= j < k ==> list[j].time <= mark
    requires forall j :: k <= j < n ==> list[j].time > mark
    ensures NewerTo(list, mark, n) == list[k..n]
  {
    if k < n {
      NewerToIsSlice(list, mark, k, n - 1);
    } else if n > 0 {
      NewerToIsSlice(list, mark, n - 1, n - 1);
    }
  }

  lemma NewerIsSuffix(list: seq<Sample>, mark: int, k: nat)
    requires Rising(list) && k <= |list|
    requires (k > 0 ==> list[k - 1].time <= mark) && (k < |list| ==> mark < list[k].time)
    ensures Newer(list, mark) == list[k..]
  {
    NewerToIsSlice(list, mark, k, |list|);
  }

  // ---- The mark that subscribe sets ----

  /** The newest of the first n samples that is more than `seconds` old. */
  function TooOld(list: seq<Sample>, now: int, seconds: int, n: nat): (i: Option<nat>)
    requires n <= |list|
    ensures i.Some? ==> i.value < n && now - list[i.value].time > seconds
    ensures forall j :: (if i.Some? then i.value + 1 else 0) <= j < n ==> now - list[j].time <= seconds
  {
    if n == 0 then None
    else if now - list[n - 1].time > seconds then Some(n - 1)
    else TooOld(list, now, seconds, n - 1)
  }

  /** The mark for a field whose cached samples are `list`; a negative index counts from the end. */
  function FirstMark(list: seq<Sample>, now: int, spec: FieldSpec): int {
    if list == [] then 0
    else if spec.seconds == 0 then list[|list| - 1].time
    else if spec.seconds == -1 then (if |list| > 1 then list[|list| - 2].time else 0)
    else if |list| <= spec.backRecords then 0
    else match TooOld(list, now, spec.seconds, |list| - spec.backRecords)
      case None => 0
      case Some(i) => list[if i == 0 then |list| - 1 else i - 1].time
  }

  /** The backward search of the subscribe branch. */
  method FindMark(list: seq<Sample>, now: int, spec: FieldSpec) returns (mark: int)
    ensures mark == FirstMark(list, now, spec)
  {
    if list == [] { return 0; }
    if spec.seconds == 0 { return list[|list| - 1].time; }
    if spec.seconds == -1 {
      return if |list| > 1 then list[|list| - 2].time else 0;
    }
    if |list| <= spec.backRecords { return 0; }
    var i := |list| - spec.backRecords - 1;
    while i >= 0
      invariant -1 <= i < |list| - spec.backRecords
      invariant TooOld(list, now, spec.seconds, |list| - spec.backRecords) == TooOld(list, now, spec.seconds, i + 1)
    {
      if now - list[i].time > spec.seconds {
        return list[if i == 0 then |list| - 1 else i - 1].time;
      }
      i := i - 1;
    }
    return 0;
  }

  /** What the documentation of subscribe promises of the first delivery. */
  predicate PromiseKept(list: seq<Sample>, now: int, spec: FieldSpec, sent: seq<Sample>) {
    && (exists k :: 0 <= k <= |list| && sent == list[k..])
    && |sent| >= Min(spec.backRecords, |list|)
    && (forall s :: s in list && now - s.time <= spec.seconds ==> s in sent)
  }

  /** The oldest sample is the newest one that is too old, and it is not the only one. */
  predicate OnlyOldestTooOld(list: seq<Sample>, now: int, spec: FieldSpec) {
    |list| >= 2 && |list| > spec.backRecords &&
    TooOld(list, now, spec.seconds, |list| - spec.backRecords) == Some(0)
  }

  lemma SuffixCovers(list: seq<Sample>, now: int, spec: FieldSpec, k: nat)
    requires Rising(list) && k <= |list| && |list| - k >= Min(spec.backRecords, |list|)
    requires forall j :: 0 <= j < k ==> now - list[j].time > spec.seconds
    ensures PromiseKept(list, now, spec, list[k..])
  {
    forall s | s in list && now - s.time <= spec.seconds ensures s in list[k..] {
      var j :| 0 <= j < |list| && list[j] == s;
      assert j >= k && list[k..][j - k] == s;
    }
  }

  /** Where the search finds a sample after the oldest one, the one before it is the mark. */
  lemma MarkBeforeTooOld(list: seq<Sample>, now: int, spec: FieldSpec, i: nat)
    requires Rising(list) && spec.seconds != 0 && spec.seconds != -1 && |list| > spec.backRecords && i > 0
    requires TooOld(list, now, spec.seconds, |list| - spec.backRecords) == Some(i)
    ensures PromiseKept(list, now, spec, Newer(list, FirstMark(list, now, spec)))
  {
    assert FirstMark(list, now, spec) == list[i - 1].time;
    hide PromiseKept, Newer, FirstMark;
    NewerIsSuffix(list, list[i - 1].time, i);
    SuffixCovers(list, now, spec, i);
  }

  /** Where it finds the oldest one, the mark is the newest sample and nothing is sent. */
  lemma MarkWraps(list: seq<Sample>, now: int, spec: FieldSpec)
    requires Rising(list) && spec.seconds != 0 && spec.seconds != -1 && |list| > spec.backRecords
    requires TooOld(list, now, spec.seconds, |list| - spec.backRecords) == Some(0)
    ensures Newer(list, FirstMark(list, now, spec)) == []
    ensures PromiseKept(list, now, spec, Newer(list, FirstMark(list, now, spec))) <==> |list| == 1
  {
    var n := |list| - spec.backRecords;
    assert TooOld(list, now, spec.seconds, n) == Some(0);
    NewerIsSuffix(list, list[|list| - 1].time, |list|);
    if |list| == 1 {
      SuffixCovers(list, now, spec, 1);
    } else if n > 1 {
      assert list[1] in list && now - list[1].time <= spec.seconds;
    }
  }

  lemma NothingTooOld(list: seq<Sample>, now: int, spec: FieldSpec)
    requires Rising(list) && spec.seconds != 0 && spec.seconds != -1
    requires |list| <= spec.backRecords || TooOld(list, now, spec.seconds, |list| - spec.backRecords).None?
    ensures PromiseKept(list, now, spec, Newer(list, FirstMark(list, now, spec)))
  {
    assert FirstMark(list, now, spec) == 0;
    NewerIsSuffix(list, 0, 0);
    SuffixCovers(list, now, spec, 0);
  }

  /** The first delivery after subscribing with other seconds than 0 and -1 keeps the promise exactly when the sample
      before the first one wanted is not the oldest one: then index -1 names the newest sample. */
  lemma FirstDeliveryKeepsPromise(list: seq<Sample>, now: int, spec: FieldSpec)
    requires Rising(list) && spec.seconds != 0 && spec.seconds != -1
    ensures PromiseKept(list, now, spec, Newer(list, FirstMark(list, now, spec))) <==> !OnlyOldestTooOld(list, now, spec)
  {
    hide PromiseKept, Newer, FirstMark;
    if |list| <= spec.backRecords || TooOld(list, now, spec.seconds, |list| - spec.backRecords).None? {
      NothingTooOld(list, now, spec);
    } else {
      var i := TooOld(list, now, spec.seconds, |list| - spec.backRecords).value;
      if i > 0 { MarkBeforeTooOld(list, now, spec, i); } else { MarkWraps(list, now, spec); }
    }
  }

  /** The smallest case: of two samples, one too old and one wanted, nothing is sent. */
  lemma WrapLosesEverything()
    ensures var list := [Sample(10, "old"), Sample(95, "new")];
            var spec := FieldSpec(20, 0, 0);
            OnlyOldestTooOld(list, 100, spec) && Newer(list, FirstMark(list, 100, spec)) == []
  {
    var list := [Sample(10, "old"), Sample(95, "new")];
    assert TooOld(list, 100, 20, 1) == Some(0);
    assert TooOld(list, 100, 20, 2) == Some(0);
    NewerIsSuffix(list, 95, 2);
  }

  /** With seconds 0 nothing that is cached is sent, however many back records were asked for. */
  lemma NothingCachedIsSent(list: seq<Sample>, now: int, spec: FieldSpec)
    requires Rising(list) && spec.seconds == 0
    ensures var sent := Newer(list, FirstMark(list, now, spec));
            sent == [] && (|sent| >= Min(spec.backRecords, |list|) <==> spec.backRecords == 0 || list == [])
  {
    if list != [] { NewerIsSuffix(list, list[|list| - 1].time, |list|); }
  }

  /** With seconds -1 exactly the newest sample is sent, however many back records were asked for. */
  lemma NewestIsSent(list: seq<Sample>, now: int, spec: FieldSpec)
    requires Rising(list) && spec.seconds == -1
    ensures var sent := Newer(list, FirstMark(list, now, spec));
            && sent == (if list == [] then [] else [list[|list| - 1]])
            && (|sent| >= Min(spec.backRecords, |list|) <==> spec.backRecords <= 1 || |list| <= 1)
  {
    if list != [] {
      var mark := FirstMark(list, now, spec);
      assert list[|list| - 1..] == [list[|list| - 1]];
      hide FirstMark, Newer;
      MarkBeforeNewest(list, now, spec);
      NewerIsSuffix(list, mark, |list| - 1);
    }
  }

  lemma MarkBeforeNewest(list: seq<Sample>, now: int, spec: FieldSpec)
    requires Rising(list) && spec.seconds == -1 && list != []
    ensures var mark := FirstMark(list, now, spec);
            mark < list[|list| - 1].time && (|list| > 1 ==> list[|list| - 2].time <= mark)
  {
  }

  lemma FirstMarkIsCached(list: seq<Sample>, now: int, spec: FieldSpec)
    requires Rising(list)
    ensures var m := FirstMark(list, now, spec); m <= 0 || (list != [] && m <= list[|list| - 1].time)
  {
  }

  lemma {:induction false} NewerConcat(list: seq<Sample>, later: seq<Sample>, mark: int, n: nat)
    requires n <= |later| && forall j :: 0 <= j < n ==> later[j].time > mark
    ensures NewerTo(list + later, mark, |list| + n) == Newer(list, mark) + later[..n]
  {
    if n == 0 {
      SameNewer(list, later, mark, |list|);
    } else {
      NewerConcat(list, later, mark, n - 1);
      assert later[..n] == later[..n - 1] + [later[n - 1]];
    }
  }

  lemma {:induction false} SameNewer(list: seq<Sample>, later: seq<Sample>, mark: int, n: nat)
    requires n <= |list|
    ensures NewerTo(list + later, mark, n) == NewerTo(list, mark, n)
  {
    if n > 0 { SameNewer(list, later, mark, n - 1); }
  }

  /** Whatever was asked for, everything that arrives after subscribing is still to be sent, after what was to
      be sent then. */
  lemma LaterIsSentToo(list: seq<Sample>, later: seq<Sample>, now: int, spec: FieldSpec)
    requires Rising(list + later)
    ensures var mark := FirstMark(list, now, spec); Newer(list + later, mark) == Newer(list, mark) + later
  {
    var (all, mark) := (list + later, FirstMark(list, now, spec));
    assert forall k :: 0 <= k < |list| ==> list[k] == all[k];
    assert forall k :: 0 <= k < |later| ==> later[k] == all[|list| + k];
    FirstMarkIsCached(list, now, spec);
    assert list != [] ==> list[|list| - 1] == all[|list| - 1];
    hide FirstMark;
    NewerConcat(list, later, mark, |later|);
    assert later[..|later|] == later;
  }

  // ---- What a ready message gets back ----

  /** The samples a field contributes to a field_dict reply, if any. */
  function DictReply(list: seq<Sample>, mark: int, spec: FieldSpec): Option<seq<Sample>> {
    if list == [] then None
    else if spec.backSeconds == -1 then Some([list[|list| - 1]])
    else if list[|list| - 1].time <= mark then None
    else Some(Newer(list, mark))
  }

  /** The samples a field contributes to a record_list reply, if any. */
  function ListReply(list: seq<Sample>, mark: int): Option<seq<Sample>> {
    if list == [] then None
    else if mark == -1 then Some([list[|list| - 1]])
    else if list[|list| - 1].time <= mark then None
    else Some(Newer(list, mark))
  }

  /** The reply for the requested fields and the marks that it leaves. */
  function DictSent(data: Sent, requested: map<string, FieldSpec>, marks: map<string, int>): Sent {
    map f | f in requested && DictReply(Get(data, f, []), Get(marks, f, 0), requested[f]).Some? ::
      DictReply(Get(data, f, []), Get(marks, f, 0), requested[f]).value
  }

  function ListSent(data: Sent, requested: map<string, FieldSpec>, marks: map<string, int>): Sent {
    map f | f in requested && ListReply(Get(data, f, []), Get(marks, f, 0)).Some? ::
      ListReply(Get(data, f, []), Get(marks, f, 0)).value
  }

  /** The time of the last sample of each field. */
  function LastTimes(sent: Sent): map<string, int>
    requires forall f :: f in sent ==> sent[f] != []
  {
    map f | f in sent :: sent[f][|sent[f]| - 1].time
  }

  /** Every field that sent something is marked with the time of the last sample sent. */
  function MarksAfter(marks: map<string, int>, sent: Sent): map<string, int>
    requires forall f :: f in sent ==> sent[f] != []
  {
    marks + LastTimes(sent)
  }

  lemma LastIsNewer(list: seq<Sample>, mark: int)
    requires list != [] && list[|list| - 1].time > mark
    ensures Newer(list, mark) != [] && Newer(list, mark)[|Newer(list, mark)| - 1] == list[|list| - 1]
  {
  }

  /** [pair for pair in field_cache if pair[0] > latest_timestamp] */
  method Filter(list: seq<Sample>, mark: int) returns (r: seq<Sample>)
    ensures r == Newer(list, mark)
  {
    r := [];
    for i := 0 to |list|
      invariant r == NewerTo(list, mark, i)
    {
      if list[i].time > mark { r := r + [list[i]]; }
    }
  }

  /** results holds what whole says about the fields in done. */
  predicate PartOf(results: Sent, whole: Sent, done: set<string>) {
    && (forall f :: f in results ==> f in done && f in whole && results[f] == whole[f])
    && (forall f :: f in done && f in whole ==> f in results)
  }

  lemma PartIsAll(results: Sent, whole: Sent, done: set<string>)
    requires PartOf(results, whole, done) && whole.Keys <= done
    ensures results == whole
  {
  }

  lemma DictSentKeys(data: Sent, requested: map<string, FieldSpec>, marks: map<string, int>)
    ensures DictSent(data, requested, marks).Keys <= requested.Keys
  {
  }

  lemma ListSentKeys(data: Sent, requested: map<string, FieldSpec>, marks: map<string, int>)
    ensures ListSent(data, requested, marks).Keys <= requested.Keys
  {
  }

  lemma DictSentAt(data: Sent, requested: map<string, FieldSpec>, marks: map<string, int>, f: string)
    requires f in requested
    ensures var reply := DictReply(Get(data, f, []), Get(marks, f, 0), requested[f]);
            var whole := DictSent(data, requested, marks);
            (f in whole <==> reply.Some?) && (f in whole ==> whole[f] == reply.value)
  {
  }

  lemma ListSentAt(data: Sent, requested: map<string, FieldSpec>, marks: map<string, int>, f: string)
    requires f in requested
    ensures var reply := ListReply(Get(data, f, []), Get(marks, f, 0));
            var whole := ListSent(data, requested, marks);
            (f in whole <==> reply.Some?) && (f in whole ==> whole[f] == reply.value)
  {
  }

  lemma NoneMarked(marks: map<string, int>)
    ensures MarksAfter(marks, map[]) == marks
  {
  }

  lemma NotYetMarked(marks: map<string, int>, sent: Sent, field: string)
    requires (forall f :: f in sent ==> sent[f] != []) && field !in sent
    ensures Get(MarksAfter(marks, sent), field, 0) == Get(marks, field, 0)
  {
  }

  lemma OneMoreMarked(marks: map<string, int>, sent: Sent, field: string, r: seq<Sample>)
    requires (forall f :: f in sent ==> sent[f] != []) && r != []
    ensures MarksAfter(marks, sent[field := r]) == MarksAfter(marks, sent)[field := r[|r| - 1].time]
  {
    assert LastTimes(sent[field := r]) == LastTimes(sent)[field := r[|r| - 1].time];
    hide LastTimes;
    assert marks + LastTimes(sent)[field := r[|r| - 1].time] == (marks + LastTimes(sent))[field := r[|r| - 1].time];
  }

  class Connection {
    var requested: map<string, FieldSpec>
    var marks: map<string, int>      // field_timestamps

    /** subscribe: forgets the old subscription; an empty request is an error that changes nothing. */
    method Subscribe(cache: RecordCache, now: int, wanted: map<string, FieldSpec>) returns (accepted: bool)
      modifies this
      ensures accepted <==> wanted != map[]
      ensures !accepted ==> requested == old(requested) && marks == old(marks)
      ensures accepted ==> requested == wanted && marks.Keys == wanted.Keys
      ensures accepted ==> forall f :: f in wanted ==> marks[f] == FirstMark(Get(cache.data, f, []), now, wanted[f])
    {
      hide FirstMark;
      if wanted == map[] { return false; }
      requested, marks := map[], map[];
      var todo := wanted.Keys;
      while todo != {}
        invariant todo <= wanted.Keys && requested.Keys == marks.Keys == wanted.Keys - todo
        invariant forall f :: f in requested ==> requested[f] == wanted[f]
        invariant forall f :: f in marks ==> marks[f] == FirstMark(Get(cache.data, f, []), now, wanted[f])
      {
        var field :| field in todo;
        requested := requested[field := wanted[field]];
        var mark := 0;
        if field in cache.data {
          mark := FindMark(cache.data[field], now, wanted[field]);
        } else {
          NoDataNoMark(now, wanted[field]);
        }
        marks := marks[field := mark];
        todo := todo - {field};
      }
      return true;
    }

    /** What the ready branch collects from one field's list for a field_dict reply. */
    method CollectDict(list: seq<Sample>, field: string) returns (sent: Option<seq<Sample>>)
      requires field in requested
      modifies this`marks
      ensures sent == DictReply(list, Get(old(marks), field, 0), requested[field])
      ensures sent.Some? ==> sent.value != [] && marks == old(marks)[field := sent.value[|sent.value| - 1].time]
      ensures sent.None? ==> marks == old(marks)
    {
      if list == [] { return None; }
      var last := list[|list| - 1];
      if requested[field].backSeconds == -1 {
        marks := marks[field := last.time];
        return Some([last]);
      }
      var mark := Get(marks, field, 0);
      if last.time <= mark { return None; }
      var found := Filter(list, mark);
      LastIsNewer(list, mark);
      marks := marks[field := found[|found| - 1].time];
      return Some(found);
    }

    /** ready, when the client asked for the field_dict format. */
    method ReadyDict(cache: RecordCache) returns (results: Sent)
      modifies this`marks
      ensures results == DictSent(cache.data, requested, old(marks))
      ensures forall f :: f in results ==> results[f] != []
      ensures marks == MarksAfter(old(marks), results)
    {
      hide DictReply, DictSent, MarksAfter;
      results := map[];
      ghost var whole := DictSent(cache.data, requested, marks);
      DictSentKeys(cache.data, requested, marks);
      NoneMarked(marks);
      var todo := requested.Keys;
      while todo != {}
        invariant todo <= requested.Keys && PartOf(results, whole, requested.Keys - todo)
        invariant (forall f :: f in results ==> results[f] != []) && marks == MarksAfter(old(marks), results)
      {
        var field :| field in todo;
        NotYetMarked(old(marks), results, field);
        DictSentAt(cache.data, requested, old(marks), field);
        var sent := CollectDict(Get(cache.data, field, []), field);
        if sent.Some? {
          OneMoreMarked(old(marks), results, field, sent.value);
          results := results[field := sent.value];
        }
        todo := todo - {field};
      }
      PartIsAll(results, whole, requested.Keys);
    }

    /** What the ready branch collects from one field's list for a record_list reply. */
    method CollectList(list: seq<Sample>, field: string) returns (sent: Option<seq<Sample>>)
      modifies this`marks
      ensures sent == ListReply(list, Get(old(marks), field, 0))
      ensures sent.Some? ==> sent.value != [] && marks == old(marks)[field := sent.value[|sent.value| - 1].time]
      ensures sent.None? ==> marks == old(marks)
    {
      var mark := Get(marks, field, 0);
      if list == [] { return None; }
      var last := list[|list| - 1];
      if mark == -1 {
        marks := marks[field := last.time];
        return Some([last]);
      }
      if last.time <= mark { return None; }
      var found := Filter(list, mark);
      LastIsNewer(list, mark);
      marks := marks[field := found[|found| - 1].time];
      return Some(found);
    }

    /** ready, when the client asked for the record_list format: collates while it collects. */
    method ReadyList(cache: RecordCache) returns (entries: seq<Entry>)
      modifies this`marks
      ensures Lists(entries, Collate(ListSent(cache.data, requested, old(marks))))
      ensures forall f :: f in ListSent(cache.data, requested, old(marks)) ==> ListSent(cache.data, requested, old(marks))[f] != []
      ensures marks == MarksAfter(old(marks), ListSent(cache.data, requested, old(marks)))
    {
      hide ListReply, ListSent, MarksAfter, Collate, Lists;
      var records: Records := map[];
      ghost var results: Sent := map[];
      ghost var whole := ListSent(cache.data, requested, marks);
      ListSentKeys(cache.data, requested, marks);
      NothingCollated();
      NoneMarked(marks);
      var todo := requested.Keys;
      while todo != {}
        invariant todo <= requested.Keys && PartOf(results, whole, requested.Keys - todo)
        invariant (forall f :: f in results ==> results[f] != []) && marks == MarksAfter(old(marks), results)
        invariant records == Collate(results)
      {
        var field :| field in todo;
        NotYetMarked(old(marks), results, field);
        ListSentAt(cache.data, requested, old(marks), field);
        var sent := CollectList(Get(cache.data, field, []), field);
        if sent.Some? {
          OneMoreMarked(old(marks), results, field, sent.value);
          records := FoldField(records, field, sent.value, results);
          results := results[field := sent.value];
        }
        todo := todo - {field};
      }
      PartIsAll(results, whole, requested.Keys);
      entries := ListRecords(records);
    }
  }

  lemma NoDataNoMark(now: int, spec: FieldSpec)
    ensures FirstMark([], now, spec) == 0
  {
  }

  lemma NothingCollated()
    ensures Collate(map[]) == map[]
  {
  }

  /** The newest sample is all that is newer than the mark. */
  predicate OnlyLastIsNew(list: seq<Sample>, mark: int) {
    list != [] && mark < list[|list| - 1].time && forall i :: 0 <= i < |list| - 1 ==> list[i].time <= mark
  }

  /** A field for which both formats send the same: it asks for the latest value in both ways or in neither,
      or the latest value is all there is to send. */
  predicate AgreeOn(list: seq<Sample>, mark: int, spec: FieldSpec) {
    (spec.backSeconds == -1 <==> mark == -1) || list == [] || OnlyLastIsNew(list, mark)
  }

  lemma {:induction false} NoneNewer(list: seq<Sample>, mark: int, n: nat)
    requires n <= |list|
    ensures NewerTo(list, mark, n) == [] <==> forall i :: 0 <= i < n ==> list[i].time <= mark
  {
    if n > 0 { NoneNewer(list, mark, n - 1); }
  }

  lemma NewerIsLast(list: seq<Sample>, mark: int)
    requires list != [] && mark < list[|list| - 1].time
    ensures Newer(list, mark) == [list[|list| - 1]] <==> OnlyLastIsNew(list, mark)
  {
    var n := |list| - 1;
    NoneNewer(list, mark, n);
    assert Newer(list, mark) == NewerTo(list, mark, n) + [list[n]];
  }

  lemma RepliesAgree(list: seq<Sample>, mark: int, spec: FieldSpec)
    ensures DictReply(list, mark, spec) == ListReply(list, mark) <==> AgreeOn(list, mark, spec)
  {
    hide Newer;
    if list != [] && mark < list[|list| - 1].time { NewerIsLast(list, mark); }
  }

  lemma RepliesRise(list: seq<Sample>, mark: int, spec: FieldSpec)
    requires Rising(list)
    ensures DictReply(list, mark, spec).Some? ==>
              DictReply(list, mark, spec).value != [] && Rising(DictReply(list, mark, spec).value)
    ensures ListReply(list, mark).Some? ==> ListReply(list, mark).value != [] && Rising(ListReply(list, mark).value)
  {
    if list != [] && mark < list[|list| - 1].time {
      LastIsNewer(list, mark);
      NewerRises(list, mark, |list|);
    }
  }

  lemma {:induction false} NewerRises(list: seq<Sample>, mark: int, n: nat)
    requires Rising(list) && n <= |list|
    ensures Rising(NewerTo(list, mark, n))
    ensures forall s :: s in NewerTo(list, mark, n) ==> s in list[..n]
  {
    if n > 0 {
      NewerRises(list, mark, n - 1);
      var before := NewerTo(list, mark, n - 1);
      forall i | 0 <= i < |before| ensures 0 < before[i].time < list[n - 1].time {
        assert before[i] in list[..n - 1];
      }
    }
  }

  /** The two formats send the same samples exactly when they do so of every field requested. */
  lemma SentAgree(data: Sent, requested: map<string, FieldSpec>, marks: map<string, int>)
    ensures ListSent(data, requested, marks) == DictSent(data, requested, marks) <==>
            forall f :: f in requested ==> AgreeOn(Get(data, f, []), Get(marks, f, 0), requested[f])
  {
    hide AgreeOn, DictReply, ListReply;
    var ls, ds := ListSent(data, requested, marks), DictSent(data, requested, marks);
    forall f | f in requested
      ensures AgreeOn(Get(data, f, []), Get(marks, f, 0), requested[f]) <==>
              (f in ls <==> f in ds) && (f in ls && f in ds ==> ls[f] == ds[f])
    {
      RepliesAgree(Get(data, f, []), Get(marks, f, 0), requested[f]);
    }
  }

  /** From the same cache and marks, both formats send the same samples and leave the same marks, so the
      server's record list is the client's collation of the field dict, if they agree on every field. */
  lemma FormatsAgree(data: Sent, requested: map<string, FieldSpec>, marks: map<string, int>,
                     listed: seq<Entry>, queued: seq<Entry>)
    requires forall f :: f in requested ==> AgreeOn(Get(data, f, []), Get(marks, f, 0), requested[f])
    requires Lists(listed, Collate(ListSent(data, requested, marks)))
    requires Lists(queued, Collate(DictSent(data, requested, marks)))
    ensures ListSent(data, requested, marks) == DictSent(data, requested, marks)
    ensures listed == queued
  {
    hide Lists, Collate, ListSent, DictSent, AgreeOn;
    SentAgree(data, requested, marks);
    ListsOnce(listed, queued, Collate(DictSent(data, requested, marks)));
  }

  lemma SentRises(data: Sent, requested: map<string, FieldSpec>, marks: map<string, int>)
    requires forall f :: f in data ==> Rising(data[f])
    ensures RisingSent(ListSent(data, requested, marks)) && RisingSent(DictSent(data, requested, marks))
  {
    hide DictReply, ListReply, Rising;
    assert Rising([]) by { NothingRises(); }
    forall f | f in requested
      ensures f in ListSent(data, requested, marks) ==>
                var l := ListSent(data, requested, marks)[f]; l != [] && Rising(l)
      ensures f in DictSent(data, requested, marks) ==>
                var l := DictSent(data, requested, marks)[f]; l != [] && Rising(l)
    {
      RepliesRise(Get(data, f, []), Get(marks, f, 0), requested[f]);
    }
  }

  lemma NothingRises()
    ensures Rising([])
  {
  }

  /** For rising samples, -1 or not, the server's record list equals the client's collation of the field dict
      exactly when both formats agree on every field requested. */
  lemma FormatsAgreeIff(data: Sent, requested: map<string, FieldSpec>, marks: map<string, int>,
                        listed: seq<Entry>, queued: seq<Entry>)
    requires forall f :: f in data ==> Rising(data[f])
    requires Lists(listed, Collate(ListSent(data, requested, marks)))
    requires Lists(queued, Collate(DictSent(data, requested, marks)))
    ensures listed == queued <==>
            forall f :: f in requested ==> AgreeOn(Get(data, f, []), Get(marks, f, 0), requested[f])
  {
    SentAgree(data, requested, marks);
    SentRises(data, requested, marks);
    hide Lists, Collate, ListSent, DictSent, RisingSent, AgreeOn;
    var ls, ds := ListSent(data, requested, marks), DictSent(data, requested, marks);
    if listed == queued {
      RecordsOnce(listed, Collate(ls), Collate(ds));
      CollateOnce(ls, ds);
    } else if ls == ds {
      ListsOnce(listed, queued, Collate(ds));
    }
  }
}
