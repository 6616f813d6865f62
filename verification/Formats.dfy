/**
 The two formats of a `ready` reply: a dict of sample lists per field, which the client collates by
 timestamp, and a list of records that the server has collated itself.
 */
module Formats {
  import opened RecordCaches

  type Sent = map<string, seq<Sample>>
  type Records = map<int, map<string, Value>>

  /** {'timestamp': time, 'fields': fields} */
  datatype Entry = Entry(time: int, fields: map<string, Value>)

  // ---- Collation ----

  predicate HasTime(list: seq<Sample>, t: int) {
    exists i :: 0 <= i < |list| && list[i].time == t
  }

  /** The last of the values with time t. */
  function ValueAt(list: seq<Sample>, t: int): Value
    requires HasTime(list, t)
  {
    var n := |list| - 1;
    if list[n].time == t then list[n].value
    else
      assert HasTime(list[..n], t) by {
        var i :| 0 <= i < |list| && list[i].time == t;
        assert list[..n][i].time == t;
      }
      ValueAt(list[..n], t)
  }

  function Times(sent: Sent): set<int> {
    set f, s | f in sent && s in sent[f] :: s.time
  }

  /** The fields that have a sample at time t, with the last such value. */
  function Row(sent: Sent, t: int): map<string, Value> {
    map f | f in sent && HasTime(sent[f], t) :: ValueAt(sent[f], t)
  }

  function Collate(sent: Sent): Records {
    map t | t in Times(sent) :: Row(sent, t)
  }

  /** records[time][field] = value, with records[time] created when it is missing. */
  function Put(records: Records, field: string, s: Sample): Records {
    records[s.time := Get(records, s.time, map[])[field := s.value]]
  }

  lemma TimesOfOneMore(sent: Sent, field: string, list: seq<Sample>, s: Sample)
    ensures Times(sent[field := list + [s]]) == Times(sent[field := list]) + {s.time}
  {
    var a, b := sent[field := list], sent[field := list + [s]];
    forall t | t in Times(a) ensures t in Times(b) {
      var f: string, x: Sample :| f in a && x in a[f] && x.time == t;
      assert x in b[f];
    }
    assert s in b[field];
    forall t | t in Times(b) ensures t in Times(a) + {s.time} {
      var f: string, x: Sample :| f in b && x in b[f] && x.time == t;
      assert f == field ==> x in list || x == s;
      if f != field || x in list { assert x in a[f]; }
    }
  }

  lemma OneMoreValue(list: seq<Sample>, s: Sample, t: int)
    ensures HasTime(list + [s], t) <==> HasTime(list, t) || s.time == t
    ensures s.time == t ==> ValueAt(list + [s], t) == s.value
    ensures s.time != t && HasTime(list, t) ==> ValueAt(list + [s], t) == ValueAt(list, t)
  {
    var l := list + [s];
    assert l[|list|] == s && l[..|list|] == list;
    if HasTime(list, t) {
      var i :| 0 <= i < |list| && list[i].time == t;
      assert l[i].time == t;
    }
  }

  lemma TimeIsListed(sent: Sent, f: string, t: int)
    requires f in sent
    ensures HasTime(sent[f], t) ==> t in Times(sent)
  {
    if HasTime(sent[f], t) {
      var i :| 0 <= i < |sent[f]| && sent[f][i].time == t;
      assert sent[f][i] in sent[f];
    }
  }

  lemma NoTimeNoRow(sent: Sent, t: int)
    requires t !in Times(sent)
    ensures Row(sent, t) == map[]
  {
    forall f | f in sent ensures HasTime(sent[f], t) ==> t in Times(sent) { TimeIsListed(sent, f, t); }
  }

  lemma RowOneMore(sent: Sent, field: string, list: seq<Sample>, s: Sample, t: int)
    ensures var row := Row(sent[field := list], t);
            Row(sent[field := list + [s]], t) == if s.time == t then row[field := s.value] else row
  {
    OneMoreValue(list, s, t);
    hide HasTime, ValueAt;
    var a, b := sent[field := list], sent[field := list + [s]];
    assert forall f :: f in sent && f != field ==> a[f] == b[f] == sent[f];
    assert a.Keys == b.Keys;
    var row, row' := Row(a, t), Row(b, t);
    assert forall f :: f in row' ==> f in (if s.time == t then row[field := s.value] else row);
    assert forall f :: f in row ==> f in row';
    assert forall f :: f in row' && f != field ==> row'[f] == row[f];
  }

  /** Collating one more sample of a field is one assignment. */
  lemma CollateOneMore(sent: Sent, field: string, list: seq<Sample>, s: Sample)
    ensures Collate(sent[field := list + [s]]) == Put(Collate(sent[field := list]), field, s)
  {
    var a, b := sent[field := list], sent[field := list + [s]];
    TimesOfOneMore(sent, field, list, s);
    if s.time !in Times(a) { NoTimeNoRow(a, s.time); }
    hide Row, Times;
    forall t | t in Times(b) ensures Collate(b)[t] == Put(Collate(a), field, s)[t] {
      RowOneMore(sent, field, list, s, t);
    }
  }

  /** The loop both sides run over one field's samples. */
  method FoldField(records: Records, field: string, list: seq<Sample>, ghost sent: Sent) returns (r: Records)
    requires field !in sent && records == Collate(sent)
    ensures r == Collate(sent[field := list])
  {
    hide Collate, Put;
    NothingYet(sent, field);
    r := records;
    for k := 0 to |list|
      invariant r == Collate(sent[field := list[..k]])
    {
      CollateOneMore(sent, field, list[..k], list[k]);
      assert list[..k + 1] == list[..k] + [list[k]];
      r := Put(r, field, list[k]);
    }
    assert list[..|list|] == list;
  }

  lemma NothingYet(sent: Sent, field: string)
    requires field !in sent
    ensures Collate(sent[field := []]) == Collate(sent)
  {
    var b := sent[field := []];
    assert Times(b) == Times(sent) by {
      forall t | t in Times(sent) ensures t in Times(b) {
        var f: string, x: Sample :| f in sent && x in sent[f] && x.time == t;
        assert x in b[f];
      }
    }
    forall t | t in Times(sent) ensures Row(b, t) == Row(sent, t) {}
  }

  // ---- Sorting by timestamp ----

  predicate StrictlyAscending(s: seq<int>) {
    forall i, j :: 0 <= i < j < |s| ==> s[i] < s[j]
  }

  lemma HasMember(s: set<int>)
    requires s != {}
    ensures exists t :: t in s
  {
    assert (forall t :: t !in s) ==> s == {};
  }

  /** sorted(times) */
  method Sort(times: set<int>) returns (s: seq<int>)
    ensures StrictlyAscending(s) && forall t :: t in s <==> t in times
  {
    s := [];
    var todo := times;
    while todo != {}
      invariant todo <= times && StrictlyAscending(s)
      invariant forall t :: t in s <==> t in times - todo
    {
      HasMember(todo);
      var t :| t in todo;
      var i := 0;
      while i < |s| && s[i] < t
        invariant i <= |s| && forall j :: 0 <= j < i ==> s[j] < t
      {
        i := i + 1;
      }
      InsertAscending(s, i, t);
      s := s[..i] + [t] + s[i..];
      todo := todo - {t};
    }
  }

  lemma InsertAscending(s: seq<int>, i: nat, t: int)
    requires StrictlyAscending(s) && i <= |s| && t !in s
    requires (forall j :: 0 <= j < i ==> s[j] < t) && (i < |s| ==> s[i] >= t)
    ensures StrictlyAscending(s[..i] + [t] + s[i..])
    ensures forall x :: x in s[..i] + [t] + s[i..] <==> x in s || x == t
  {
    var r := s[..i] + [t] + s[i..];
    assert i < |s| ==> s[i] in s;
    assert r[i] == t && (forall j :: 0 <= j < i ==> r[j] == s[j]) && (forall j :: i < j < |r| ==> r[j] == s[j - 1]);
    forall x ensures x in r <==> x in s || x == t {
      if x in s {
        var j :| 0 <= j < |s| && s[j] == x;
        assert r[if j < i then j else j + 1] == x;
      }
    }
  }

  predicate SameElements(a: seq<int>, b: seq<int>) {
    (forall t :: t in a ==> t in b) && (forall t :: t in b ==> t in a)
  }

  lemma NotEmpty(a: seq<int>, b: seq<int>)
    requires SameElements(a, b) && a != []
    ensures b != []
  {
    var x := a[0];
    assert x in a;
  }

  lemma SameLast(a: seq<int>, b: seq<int>)
    requires StrictlyAscending(a) && StrictlyAscending(b) && SameElements(a, b)
    requires a != [] && b != []
    ensures a[|a| - 1] == b[|b| - 1]
  {
    var x, y := a[|a| - 1], b[|b| - 1];
    assert x in a && y in b;
  }

  /** Strictly ascending sequences with the same elements are the same sequence. */
  lemma {:induction false} SortedOnce(a: seq<int>, b: seq<int>)
    requires StrictlyAscending(a) && StrictlyAscending(b) && SameElements(a, b)
    ensures a == b
  {
    if a != [] {
      NotEmpty(a, b);
      var m, n := |a| - 1, |b| - 1;
      SameLast(a, b);
      forall t ensures (t in a[..m] <==> t in a && t != a[m]) && (t in b[..n] <==> t in b && t != b[n]) {
        AllButLast(a, t);
        AllButLast(b, t);
      }
      SortedOnce(a[..m], b[..n]);
    } else if b != [] {
      NotEmpty(b, a);
    }
  }

  lemma AllButLast(a: seq<int>, t: int)
    requires StrictlyAscending(a) && a != []
    ensures t in a[..|a| - 1] <==> t in a && t != a[|a| - 1]
  {
    assert a == a[..|a| - 1] + [a[|a| - 1]];
  }

  /** The entries list the records by rising timestamp. */
  ghost predicate Lists(entries: seq<Entry>, records: Records) {
    && StrictlyAscending(seq(|entries|, i requires 0 <= i < |entries| => entries[i].time))
    && (forall t :: t in records <==> t in seq(|entries|, i requires 0 <= i < |entries| => entries[i].time))
    && (forall i :: 0 <= i < |entries| ==> entries[i].time in records && entries[i].fields == records[entries[i].time])
  }

  lemma ListsOnce(a: seq<Entry>, b: seq<Entry>, records: Records)
    requires Lists(a, records) && Lists(b, records)
    ensures a == b
  {
    var ta := seq(|a|, i requires 0 <= i < |a| => a[i].time);
    var tb := seq(|b|, i requires 0 <= i < |b| => b[i].time);
    SortedOnce(ta, tb);
    forall i | 0 <= i < |a| ensures a[i] == b[i] {
      assert a[i].time == ta[i] == tb[i] == b[i].time;
    }
  }

  /** And they list no other records. */
  lemma RecordsOnce(entries: seq<Entry>, a: Records, b: Records)
    requires Lists(entries, a) && Lists(entries, b)
    ensures a == b
  {
    var times := seq(|entries|, i requires 0 <= i < |entries| => entries[i].time);
    assert forall t :: t in a <==> t in times;
    assert forall t :: t in b <==> t in times;
    forall t | t in a ensures a[t] == b[t] {
      var i :| 0 <= i < |times| && times[i] == t;
      assert entries[i].time == t;
    }
  }

  // ---- What can be read off a collation ----

  lemma LastTime(list: seq<Sample>, t: int)
    requires Rising(list) && list != []
    ensures HasTime(list, list[|list| - 1].time)
    ensures HasTime(list, t) ==> t <= list[|list| - 1].time
    ensures HasTime(list[..|list| - 1], t) <==> HasTime(list, t) && t != list[|list| - 1].time
    ensures HasTime(list, t) && t != list[|list| - 1].time ==> ValueAt(list, t) == ValueAt(list[..|list| - 1], t)
    ensures Rising(list[..|list| - 1])
  {
    var n := |list| - 1;
    assert list == list[..n] + [list[n]];
    OneMoreValue(list[..n], list[n], t);
    if HasTime(list[..n], t) {
      var i :| 0 <= i < n && list[..n][i].time == t;
      assert list[i].time < list[n].time;
    }
  }

  /** A rising list is determined by its times and the values at them. */
  lemma {:induction false} RisingOnce(a: seq<Sample>, b: seq<Sample>)
    requires Rising(a) && Rising(b)
    requires forall t :: HasTime(a, t) <==> HasTime(b, t)
    requires forall t :: HasTime(a, t) ==> ValueAt(a, t) == ValueAt(b, t)
    ensures a == b
  {
    if a == [] {
      if b != [] { LastTime(b, 0); }
    } else {
      var m, n := |a| - 1, |b| - 1;
      LastTime(a, 0);
      assert HasTime(b, a[m].time);
      LastTime(b, a[m].time);
      LastTime(a, b[n].time);
      assert a[m].time == b[n].time;
      assert ValueAt(a, a[m].time) == ValueAt(b, a[m].time);
      assert a[m] == b[n];
      forall t
        ensures HasTime(a[..m], t) <==> HasTime(b[..n], t)
        ensures HasTime(a[..m], t) ==> ValueAt(a[..m], t) == ValueAt(b[..n], t)
      {
        LastTime(a, t);
        LastTime(b, t);
      }
      RisingOnce(a[..m], b[..n]);
      assert a == a[..m] + [a[m]] && b == b[..n] + [b[n]];
    }
  }

  predicate RisingSent(sent: Sent) { forall f :: f in sent ==> sent[f] != [] && Rising(sent[f]) }

  lemma SameRows(a: Sent, b: Sent, t: int)
    requires Collate(a) == Collate(b)
    ensures Row(a, t) == Row(b, t)
  {
    assert t in Collate(a) <==> t in Times(a);
    assert t in Collate(b) <==> t in Times(b);
    if t in Times(a) {
      assert Row(a, t) == Collate(a)[t] == Collate(b)[t] == Row(b, t);
    } else {
      NoTimeNoRow(a, t);
      NoTimeNoRow(b, t);
    }
  }

  lemma SameFields(a: Sent, b: Sent, f: string)
    requires RisingSent(a) && Collate(a) == Collate(b) && f in a
    ensures f in b
  {
    LastTime(a[f], 0);
    var t := a[f][|a[f]| - 1].time;
    SameRows(a, b, t);
    assert f in Row(a, t);
  }

  /** Rising samples can be read off their collation. */
  lemma CollateOnce(a: Sent, b: Sent)
    requires RisingSent(a) && RisingSent(b) && Collate(a) == Collate(b)
    ensures a == b
  {
    forall f | f in a || f in b ensures f in a && f in b && a[f] == b[f] {
      if f in a { SameFields(a, b, f); } else { SameFields(b, a, f); }
      forall t
        ensures HasTime(a[f], t) <==> HasTime(b[f], t)
        ensures HasTime(a[f], t) ==> ValueAt(a[f], t) == ValueAt(b[f], t)
      {
        SameRows(a, b, t);
        InRow(a, f, t);
        InRow(b, f, t);
      }
      RisingOnce(a[f], b[f]);
    }
  }

  lemma InRow(sent: Sent, f: string, t: int)
    requires f in sent
    ensures f in Row(sent, t) <==> HasTime(sent[f], t)
    ensures HasTime(sent[f], t) ==> Row(sent, t)[f] == ValueAt(sent[f], t)
  {
  }

  /** [{'timestamp': ts, 'fields': records[ts]} for ts in sorted(records)] */
  method ListRecords(records: Records) returns (entries: seq<Entry>)
    ensures Lists(entries, records)
  {
    var times := Sort(records.Keys);
    entries := seq(|times|, i requires 0 <= i < |times| => Entry(times[i], Get(records, times[i], map[])));
    assert seq(|entries|, i requires 0 <= i < |entries| => entries[i].time) == times;
    assert forall i :: 0 <= i < |times| ==> times[i] in times;
  }

  // ---- The client ----

  /** CachedDataReader._parse_response for a field dict: collates it and queues the entries. */
  method ParseFieldDict(data: Sent) returns (queued: seq<Entry>)
    ensures Lists(queued, Collate(data))
  {
    var records: Records := map[];
    var todo := data.Keys;
    assert Collate(map[]) == map[];
    while todo != {}
      invariant todo <= data.Keys
      invariant records == Collate(map f | f in data && f !in todo :: data[f])
    {
      hide Collate;
      var field :| field in todo;
      ghost var done := map f | f in data && f !in todo :: data[f];
      records := FoldField(records, field, data[field], done);
      todo := todo - {field};
      assert (map f | f in data && f !in todo :: data[f]) == done[field := data[field]];
    }
    assert (map f | f in data && f !in todo :: data[f]) == data;
    queued := ListRecords(records);
  }
}
