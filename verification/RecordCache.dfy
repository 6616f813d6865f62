/**
 RecordCache: per field, a list of timestamped values that publishers append to and that a
 clean-up task prunes. Each field is handled under its own lock, so an operation on one field is one
 atomic step for that field.
 */
module RecordCaches {
  import opened Common

  type Value = string

  datatype Sample = Sample(time: int, value: Value)

  /** A field's value in a published record: taken at the record's time, or a list of samples. */
  datatype FieldValue = Single(value: Value) | Many(samples: seq<Sample>)

  function SamplesOf(time: int, v: FieldValue): seq<Sample> {
    match v
    case Single(value) => [Sample(time, value)]
    case Many(samples) => samples
  }

  function Get<K, V>(m: map<K, V>, k: K, default: V): V {
    if k in m then m[k] else default
  }

  /** Timestamps rise strictly, and all are positive. */
  predicate Rising(list: seq<Sample>) {
    && (forall i :: 0 <= i < |list| ==> list[i].time > 0)
    && (forall i, j :: 0 <= i < j < |list| ==> list[i].time < list[j].time)
  }

  // ---- Pruning one field ----

  /** Where the scan for the first sample newer than oldest stops; it starts at i and ends before end. */
  function ScanStop(list: seq<Sample>, oldest: int, i: nat, end: nat): (k: nat)
    requires i < end <= |list|
    ensures i <= k < end
    ensures forall j :: i <= j < k ==> list[j].time <= oldest
    ensures k < end - 1 ==> list[k].time > oldest
    decreases end - i
  {
    if i == end - 1 || list[i].time > oldest then i else ScanStop(list, oldest, i + 1, end)
  }

  /** How many samples cleanup drops from the front of a list. */
  function Dropped(list: seq<Sample>, oldest: int, maxRecords: nat, minBack: nat): (k: nat)
    ensures k <= |list| && (list != [] ==> k < |list|)
  {
    if |list| <= minBack then 0
    else
      var cut := if maxRecords > minBack && |list| > maxRecords then |list| - maxRecords else 0;
      ScanStop(list, oldest, cut, |list| - minBack)
  }

  /** What cleanup leaves: a suffix that keeps the newest min(len, minBack + 1) samples and at most
      maxRecords, drops nothing but what is beyond maxRecords or too old, and stops only at a sample
      that is new enough or that minBack protects. */
  lemma CleanupKeeps(list: seq<Sample>, oldest: int, maxRecords: nat, minBack: nat)
    ensures var k := Dropped(list, oldest, maxRecords, minBack);
            && (list != [] ==> k < |list|)
            && |list| - k >= Min(|list|, minBack + 1)
            && (maxRecords > minBack && |list| > minBack ==> |list| - k <= maxRecords)
            && (forall j :: 0 <= j < k ==> list[j].time <= oldest || (maxRecords > minBack && j < |list| - maxRecords))
            && (|list| > minBack ==> |list| - k == minBack + 1 || list[k].time > oldest)
  {
    if |list| > minBack {
      var cut := if maxRecords > minBack && |list| > maxRecords then |list| - maxRecords else 0;
      var _ := ScanStop(list, oldest, cut, |list| - minBack);
    }
  }

  class RecordCache {
    var data: map<string, seq<Sample>>

    constructor ()
      ensures data == map[]
    {
      data := map[];
    }

    /** cache_record: appends each field's samples and leaves the other fields alone. */
    method CacheRecord(time: int, fields: map<string, FieldValue>)
      modifies this
      ensures data.Keys == old(data).Keys + fields.Keys
      ensures forall f :: f in data.Keys ==>
                data[f] == Get(old(data), f, []) + (if f in fields then SamplesOf(time, fields[f]) else [])
    {
      var todo := fields.Keys;
      while todo != {}
        invariant todo <= fields.Keys
        invariant data.Keys == old(data).Keys + (fields.Keys - todo)
        invariant forall f :: f in data.Keys ==>
                    data[f] == Get(old(data), f, []) + (if f in fields && f !in todo then SamplesOf(time, fields[f]) else [])
      {
        var field :| field in todo;
        CacheField(field, time, fields[field]);
        todo := todo - {field};
      }
    }

    /** What cache_record does under one field's lock. */
    method CacheField(field: string, time: int, v: FieldValue)
      modifies this
      ensures data == old(data)[field := Get(old(data), field, []) + SamplesOf(time, v)]
    {
      if field !in data {
        data := data[field := []];
      }
      match v {
        case Single(value) => AddSample(field, Sample(time, value));
        case Many(samples) =>
          ghost var before := data;
          for k := 0 to |samples|
            invariant data.Keys == before.Keys && data[field] == before[field] + samples[..k]
            invariant forall f :: f in data.Keys && f != field ==> data[f] == before[f]
          {
            AddSample(field, samples[k]);
            assert samples[..k + 1] == samples[..k] + [samples[k]];
          }
          assert samples[..|samples|] == samples;
      }
    }

    /** _add_tuple */
    method AddSample(field: string, s: Sample)
      requires field in data
      modifies this
      ensures data == old(data)[field := old(data)[field] + [s]]
    {
      data := data[field := data[field] + [s]];
    }

    /** cleanup, for every field. */
    method Cleanup(oldest: int, maxRecords: nat, minBack: nat)
      modifies this
      ensures data.Keys == old(data).Keys
      ensures forall f :: f in data.Keys ==>
                data[f] == old(data)[f][Dropped(old(data)[f], oldest, maxRecords, minBack)..]
    {
      var todo := data.Keys;
      while todo != {}
        invariant todo <= data.Keys == old(data).Keys
        invariant forall f :: f in todo ==> data[f] == old(data)[f]
        invariant forall f :: f in data.Keys - todo ==>
                    data[f] == old(data)[f][Dropped(old(data)[f], oldest, maxRecords, minBack)..]
      {
        var field :| field in todo;
        var kept := Prune(data[field], oldest, maxRecords, minBack);
        data := data[field := kept];
        todo := todo - {field};
      }
    }
  }

  /** The body of cleanup's loop for one field's list. */
  method Prune(list: seq<Sample>, oldest: int, maxRecords: nat, minBack: nat) returns (kept: seq<Sample>)
    ensures kept == list[Dropped(list, oldest, maxRecords, minBack)..]
  {
    hide ScanStop;
    if |list| <= minBack { return list; }
    var cut := if maxRecords > minBack && |list| > maxRecords then |list| - maxRecords else 0;
    kept := ScanAfter(list, oldest, cut, minBack);
  }

  /** The scan of cleanup, after what is beyond max_records has been cut off. */
  method ScanAfter(list: seq<Sample>, oldest: int, cut: nat, minBack: nat) returns (kept: seq<Sample>)
    requires cut + minBack < |list|
    ensures kept == list[ScanStop(list, oldest, cut, |list| - minBack)..]
  {
    hide ScanStop;
    var values := list[cut..];
    ScanSuffix(list, oldest, cut, 0, |values| - minBack);
    var i := FirstNewer(values, oldest, |values| - minBack);
    SliceOfSlice(list, cut, i);
    kept := values[Min(i, |values| - 1)..];
  }

  lemma SliceOfSlice(list: seq<Sample>, cut: nat, i: nat)
    requires cut + i <= |list|
    ensures list[cut..][i..] == list[cut + i..]
  {
  }

  /** The scan of cleanup: the first sample newer than oldest, or the last one looked at. */
  method FirstNewer(values: seq<Sample>, oldest: int, n: nat) returns (i: nat)
    requires 0 < n <= |values|
    ensures i == ScanStop(values, oldest, 0, n)
  {
    i := 0;
    while i < n - 1 && values[i].time <= oldest
      invariant i < n && ScanStop(values, oldest, 0, n) == ScanStop(values, oldest, i, n)
    {
      i := i + 1;
    }
  }

  lemma {:induction false} ScanSuffix(list: seq<Sample>, oldest: int, cut: nat, i: nat, n: nat)
    requires cut <= |list| && i < n <= |list| - cut
    ensures ScanStop(list, oldest, cut + i, cut + n) == cut + ScanStop(list[cut..], oldest, i, n)
    decreases n - i
  {
    if i < n - 1 { ScanSuffix(list, oldest, cut, i + 1, n); }
  }
}
