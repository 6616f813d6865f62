/**
 LogfileReader: a time cursor on top of the record cursor of TextFileReader, for plain text records
 (not JSON, not blank) that are not replayed at the speed of their timestamps.
 */
module Logfiles {
  import opened Common
  import opened TextFiles

  /** Timestamp of a record in milliseconds: the parser of the record's first word. */
  type Clock = string -> int

  function Stamp(d: Disk, msec: Clock, i: nat): int
    requires DiskOk(d) && i < Total(d)
  {
    msec(Record(d, i))
  }

  predicate NoBlanks(d: Disk)
    requires DiskOk(d)
  {
    forall i: nat :: i < Total(d) ==> Record(d, i) != ""
  }

  /** The records are in chronological order; several may share a timestamp. */
  predicate Chronological(d: Disk, msec: Clock)
    requires DiskOk(d)
  {
    forall i: nat, j: nat :: i < j < Total(d) ==> Stamp(d, msec, i) <= Stamp(d, msec, j)
  }

  /** Position p is that of the first record at or after time t, or the end if there is none. */
  predicate AtOrAfter(d: Disk, msec: Clock, t: int, p: nat)
    requires DiskOk(d)
  {
    && p <= Total(d)
    && (forall i: nat :: i < p ==> Stamp(d, msec, i) < t)
    && (p < Total(d) ==> Stamp(d, msec, p) >= t)
  }

  /** Is a record's time within start (included) and stop (excluded), where they are given? */
  predicate Within(t: int, start: Option<int>, stop: Option<int>) {
    (start.None? || start.value <= t) && (stop.None? || t < stop.value)
  }

  /** Of the first n records, those within start and stop, in order. */
  function Between(d: Disk, msec: Clock, start: Option<int>, stop: Option<int>, n: nat): seq<string>
    requires DiskOk(d) && n <= Total(d)
  {
    if n == 0 then []
    else Between(d, msec, start, stop, n - 1)
         + (if Within(Stamp(d, msec, n - 1), start, stop) then [Record(d, n - 1)] else [])
  }

  lemma {:induction false} NoneBetween(d: Disk, msec: Clock, start: Option<int>, stop: Option<int>, m: nat, n: nat)
    requires DiskOk(d) && m <= n <= Total(d)
    requires forall i: nat :: m <= i < n ==> !Within(Stamp(d, msec, i), start, stop)
    ensures Between(d, msec, start, stop, n) == Between(d, msec, start, stop, m)
  {
    if m < n { NoneBetween(d, msec, start, stop, m, n - 1); }
  }

  class LogfileReader {
    const reader: TextFileReader
    const msec: Clock
    var prev: Option<string>      // prev_record
    var first: Option<int>        // _first_msec_timestamp
    ghost var prevIndex: nat      // which record prev is

    /** The cursor is never past the successor of prev_record. */
    ghost predicate Valid()
      reads this, reader
    {
      && reader.Valid() && NoBlanks(reader.disk)
      && (first.Some? ==> Total(reader.disk) > 0 && first.value == Stamp(reader.disk, msec, 0))
      && (prev.Some? ==> PrevIs(prev.value))
    }

    /** Without a prev_record nothing has been read. All methods keep this but a read_time_range that
        raises: it leaves a fresh reader after its first record. */
    predicate Synced()
      reads this, reader
    {
      prev.None? ==> reader.pos == 0
    }

    ghost predicate PrevIs(r: string)
      reads this, reader
      requires DiskOk(reader.disk)
    {
      prevIndex < Total(reader.disk) && r == Record(reader.disk, prevIndex) && reader.pos <= prevIndex + 1
    }

    constructor (disk: Disk, msec: Clock)
      requires DiskOk(disk) && NoBlanks(disk)
      ensures Valid() && Synced() && reader.disk == disk && this.msec == msec && fresh(reader) && reader.pos == 0
    {
      reader := new TextFileReader(disk);
      this.msec := msec;
      prev, first := None, None;
    }

    ghost function Here(): nat
      reads reader
    {
      reader.pos
    }

    /** read without timed replay. */
    method Read() returns (record: Option<string>)
      requires Valid()
      modifies this`prev, this`prevIndex, reader
      ensures Valid() && (old(Synced()) ==> Synced())
      ensures old(Here()) < Total(reader.disk) ==>
                record == Some(Record(reader.disk, old(Here()))) && prev == record &&
                prevIndex == old(Here()) && Here() == old(Here()) + 1
      ensures old(Here()) >= Total(reader.disk) ==>
                record == None && prev == old(prev) && prevIndex == old(prevIndex) && Here() == old(Here())
    {
      record := reader.Read();
      if record.None? || record.value == "" {
        return record;
      }
      prev := record;
      prevIndex := old(Here());
    }

    /** _read_until: moves forward to the first record at or after the desired time. */
    method ReadUntil(desired: int)
      requires Valid()
      modifies this`prev, this`prevIndex, reader
      ensures Valid()
      ensures prev.None? ==> old(prev).None? && Here() == old(Here()) == Total(reader.disk)
      ensures old(Here()) <= Here() <= Total(reader.disk)
      ensures forall i: nat :: old(Here()) <= i < Here() ==> Stamp(reader.disk, msec, i) < desired
      ensures Here() < Total(reader.disk) ==> Stamp(reader.disk, msec, Here()) >= desired
    {
      hide CursorOk, Learned, DiskOk, Before, Record, NoBlanks;
      reader.Inside();
      while true
        invariant Valid()
        invariant prev.None? ==> old(prev).None? && Here() == old(Here())
        invariant old(Here()) <= Here() <= Total(reader.disk)
        invariant forall i: nat :: old(Here()) <= i < Here() ==> Stamp(reader.disk, msec, i) < desired
        decreases Total(reader.disk) - Here()
      {
        ghost var here := Here();
        var record := reader.Read();
        if record.None? { return; }
        prev := record;
        prevIndex := here;
        if msec(record.value) >= desired {
          var _ := reader.Seek(-1, Current);
          return;
        }
      }
    }

    /** _reset */
    method Reset()
      requires Valid()
      modifies reader
      ensures Valid() && Here() == 0
    {
      var _ := reader.Seek(0, Start);
    }

    /** _peek_msec */
    method PeekMsec() returns (t: Option<int>)
      requires Valid()
      modifies reader
      ensures Valid() && Here() == old(Here())
      ensures t == if Here() < Total(reader.disk) then Some(Stamp(reader.disk, msec, Here())) else None
    {
      var record := reader.Read();
      if record.None? { return None; }
      var _ := reader.Seek(-1, Current);
      return Some(msec(record.value));
    }

    /** _get_first_msec_timestamp; it may leave the cursor after the first record. */
    method GetFirstMsec() returns (t: Option<int>)
      requires Valid()
      modifies this`first, reader
      ensures Valid()
      ensures t == first == if Total(reader.disk) > 0 then Some(Stamp(reader.disk, msec, 0)) else None
      ensures Here() == if old(first).Some? then old(Here()) else Min(1, Total(reader.disk))
    {
      reader.Inside();
      if first.None? {
        Reset();
        var record := reader.Read();
        if record.None? { return None; }
        first := Some(msec(record.value));
      }
      return first;
    }

    /** In chronological order, nothing before the cursor is later than prev_record. */
    lemma PassedIsEarlier(t: int)
      requires Valid()
      requires Here() == 0 || (prev.Some? && msec(prev.value) < t)
      ensures Chronological(reader.disk, msec) ==>
                forall i: nat :: i < Here() && i < Total(reader.disk) ==> Stamp(reader.disk, msec, i) < t
    {
      if Here() > 0 && Chronological(reader.disk, msec) {
        forall i: nat | i < Here() && i < Total(reader.disk) ensures Stamp(reader.disk, msec, i) < t {
          assert i < prevIndex || i == prevIndex;
          assert Stamp(reader.disk, msec, prevIndex) < t;
        }
      }
    }

    /** seek_time from 'start', for a non-negative offset. */
    method SeekFromStart(offset: nat) returns (time: Option<int>)
      requires Valid()
      modifies this, reader
      ensures Valid() && Synced()
      ensures Total(reader.disk) == 0 ==> time == None
      ensures Total(reader.disk) > 0 ==> time == Some(Stamp(reader.disk, msec, 0) + offset)
      ensures Total(reader.disk) > 0 && Chronological(reader.disk, msec) ==> AtOrAfter(reader.disk, msec, time.value, Here())
    {
      hide CursorOk, Learned, DiskOk, Before, Record, NoBlanks;
      var t0 := GetFirstMsec();
      if t0.None? { return None; }
      var desired := t0.value + offset;
      if prev.None? {
        Reset();
      } else if msec(prev.value) >= desired {
        Reset();
      }
      PassedIsEarlier(desired);
      ReadUntil(desired);
      return Some(desired);
    }

    /** The time that seek_time from 'current' asks for: relative to the next record, or to the last one read.
        A next record with timestamp 0 counts as no next record. */
    function CurrentTime(here: nat, last: Option<string>, offset: int): Result<Option<int>>
      reads reader
      requires DiskOk(reader.disk)
    {
      if here < Total(reader.disk) && Stamp(reader.disk, msec, here) != 0 then
        Ok(Some(Stamp(reader.disk, msec, here) + offset))
      else if last.Some? then Ok(Some(msec(last.value) + offset))
      else Raised(AttributeError)
    }

    /** That is the time of the next record, of the last one of all at the end, or of prev_record before a record
        with timestamp 0, and the offset; without any it raises. */
    lemma CurrentTimeIs(offset: int)
      requires Valid()
      ensures var (n, time) := (Total(reader.disk), CurrentTime(Here(), prev, offset));
              && Here() <= n
              && (Here() < n && Stamp(reader.disk, msec, Here()) != 0 ==>
                   time == Ok(Some(Stamp(reader.disk, msec, Here()) + offset)))
              && (Here() == n && prev.Some? ==> n > 0 && time == Ok(Some(Stamp(reader.disk, msec, n - 1) + offset)))
              && (Here() < n && Stamp(reader.disk, msec, Here()) == 0 && prev.Some? ==>
                   prevIndex < n && time == Ok(Some(Stamp(reader.disk, msec, prevIndex) + offset)))
              && (prev.None? && (Here() == n || Stamp(reader.disk, msec, Here()) == 0) ==> time == Raised(AttributeError))
    {
      hide CursorOk, Learned, DiskOk, Before, Record, NoBlanks;
      reader.Inside();
    }

    /** seek_time from 'current'. */
    method SeekFromCurrent(offset: int) returns (r: Result<Option<int>>)
      requires Valid()
      modifies this, reader
      ensures Valid() && (old(Synced()) ==> Synced())
      ensures r == CurrentTime(old(Here()), old(prev), offset)
      ensures r.Raised? || offset == 0 ==> Here() == old(Here())
      ensures r.Ok? && offset != 0 && Chronological(reader.disk, msec) ==>
                AtOrAfter(reader.disk, msec, r.value.value, Here())
    {
      hide CursorOk, Learned, DiskOk, Before, Record, NoBlanks;
      var next := PeekMsec();
      var current: int;
      if next.Some? && next.value != 0 {
        current := next.value;
      } else if prev.Some? {
        current := msec(prev.value);
      } else {
        return Raised(AttributeError);
      }
      var desired := current + offset;
      if offset == 0 { return Ok(Some(desired)); }
      if offset < 0 { Reset(); }
      if offset > 0 && !(next.Some? && next.value != 0) { PassedIsEarlier(desired); }
      ReadUntil(desired);
      return Ok(Some(desired));
    }

    /** seek_time from 'end'. */
    method SeekFromEnd(offset: int) returns (time: Option<int>)
      requires Valid()
      modifies this, reader
      ensures Valid() && (old(Synced()) ==> Synced())
      ensures time.None? <==> Total(reader.disk) == 0 || (old(prev).None? && old(Here()) == Total(reader.disk))
      ensures time.Some? ==> time.value == Stamp(reader.disk, msec, Total(reader.disk) - 1) + offset
      ensures offset >= 0 ==> Here() == Total(reader.disk)
      ensures time.Some? && Chronological(reader.disk, msec) ==>
                (AtOrAfter(reader.disk, msec, time.value, Here()) <==> offset != 0)
    {
      hide CursorOk, Learned, DiskOk, Before, Record, NoBlanks;
      reader.Inside();
      while true
        invariant Valid() && (old(Synced()) ==> Synced()) && Here() <= Total(reader.disk)
        invariant prev.None? ==> old(prev).None? && Here() == old(Here())
        invariant prev.Some? ==> prev == old(prev) || old(Here()) < Total(reader.disk)
        decreases Total(reader.disk) - Here()
      {
        var record := Read();
        if record.None? { break; }
      }
      if prev.None? { return None; }
      var desired := msec(prev.value) + offset;
      if offset < 0 {
        Reset();
        ReadUntil(desired);
      }
      return Some(desired);
    }

    /** seek_time. */
    method SeekTime(offset: int, origin: Origin) returns (r: Result<Option<int>>)
      requires Valid()
      modifies this, reader
      ensures Valid() && (old(Synced()) ==> Synced())
      ensures r.Raised? ==> Here() == old(Here())
      ensures r.Ok? && origin.Start? ==> Synced()
      ensures origin.Unknown? || (origin.Start? && offset < 0) ==> r == Raised(ValueError)
      ensures origin.Start? && offset >= 0 ==>
                r == Ok(if Total(reader.disk) == 0 then None else Some(Stamp(reader.disk, msec, 0) + offset))
      ensures origin.Current? ==> r == CurrentTime(old(Here()), old(prev), offset)
      ensures origin.End? ==>
                var n := Total(reader.disk);
                r == Ok(if n == 0 || (old(prev).None? && old(Here()) == n) then None
                        else Some(Stamp(reader.disk, msec, n - 1) + offset))
      ensures r.Ok? && r.value.Some? && Chronological(reader.disk, msec) && (offset != 0 || origin.Start?) ==>
                AtOrAfter(reader.disk, msec, r.value.value, Here())
    {
      hide CursorOk, Learned, DiskOk, Before, Record, NoBlanks;
      match origin {
        case Start =>
          if offset < 0 { return Raised(ValueError); }
          var time := SeekFromStart(offset);
          return Ok(time);
        case Current =>
          r := SeekFromCurrent(offset);
        case End =>
          var time := SeekFromEnd(offset);
          return Ok(time);
        case Unknown =>
          return Raised(ValueError);
      }
    }

    /** The reading loop of read_time_range, from a cursor at the first record at or after start. */
    method ReadTo(ghost start: Option<int>, stop: Option<int>) returns (records: seq<string>)
      requires Valid() && (stop.Some? ==> stop.value != 0)
      modifies this, reader
      ensures Valid() && (old(Synced()) ==> Synced())
      ensures Chronological(reader.disk, msec) && old(FromStart(start)) ==>
                records == Between(reader.disk, msec, start, stop, Total(reader.disk))
    {
      hide CursorOk, Learned, DiskOk, Before, Record, NoBlanks, Chronological;
      reader.Inside();
      records := [];
      ghost var ordered := Chronological(reader.disk, msec) && FromStart(start);
      ghost var from := Here();
      assert ordered && from < Total(reader.disk) ==> start.None? || Stamp(reader.disk, msec, from) >= start.value;
      if ordered { NoneBefore(start, stop); }
      while true
        invariant Valid() && (old(Synced()) ==> Synced()) && from <= Here() <= Total(reader.disk)
        invariant ordered ==> records == Between(reader.disk, msec, start, stop, Here())
        decreases Total(reader.disk) - Here()
      {
        ghost var here := Here();
        var record := Read();
        if record.None? { break; }
        if stop.Some? && msec(record.value) >= stop.value {
          if ordered { AllPastStop(start, stop, here); }
          break;
        }
        if ordered { LaterThanStart(start, from, here); }
        records := records + [record.value];
      }
    }

    /** Every record before the cursor is before start, and the one at the cursor is not. */
    ghost predicate FromStart(start: Option<int>)
      reads reader
      requires DiskOk(reader.disk)
    {
      if start.None? then Here() == 0 else AtOrAfter(reader.disk, msec, start.value, Here())
    }

    lemma NoneBefore(start: Option<int>, stop: Option<int>)
      requires DiskOk(reader.disk) && Here() <= Total(reader.disk) && FromStart(start)
      ensures Between(reader.disk, msec, start, stop, Here()) == []
    {
      NoneBetween(reader.disk, msec, start, stop, 0, Here());
    }

    lemma AllPastStop(start: Option<int>, stop: Option<int>, here: nat)
      requires DiskOk(reader.disk) && here < Total(reader.disk) && Chronological(reader.disk, msec)
      requires stop.Some? && Stamp(reader.disk, msec, here) >= stop.value
      ensures Between(reader.disk, msec, start, stop, Total(reader.disk)) == Between(reader.disk, msec, start, stop, here)
    {
      NoneBetween(reader.disk, msec, start, stop, here, Total(reader.disk));
    }

    lemma LaterThanStart(start: Option<int>, from: nat, i: nat)
      requires DiskOk(reader.disk) && Chronological(reader.disk, msec) && from <= i < Total(reader.disk)
      requires start.None? || Stamp(reader.disk, msec, from) >= start.value
      ensures start.None? || Stamp(reader.disk, msec, i) >= start.value
    {
      if from < i { assert Stamp(reader.disk, msec, from) <= Stamp(reader.disk, msec, i); }
    }

    /** read_time_range: the records with start <= time < stop; a stop of 0 means no stop. When it
        raises on a reader that does not know its first timestamp yet, the cursor has moved. */
    method ReadTimeRange(start: Option<int>, stop: Option<int>) returns (r: Result<seq<string>>)
      requires Valid()
      modifies this, reader
      ensures Valid()
      ensures r.Raised? <==> start.Some? && (Total(reader.disk) == 0 || start.value < Stamp(reader.disk, msec, 0))
      ensures r.Raised? ==> r.error == if Total(reader.disk) == 0 then TypeError else ValueError
      ensures r.Raised? ==> Here() == if old(first).Some? then old(Here()) else Min(1, Total(reader.disk))
      ensures r.Ok? ==> Synced()
      ensures r.Ok? && Chronological(reader.disk, msec) ==>
                r.value == Between(reader.disk, msec, start, if stop == Some(0) then None else stop, Total(reader.disk))
    {
      hide CursorOk, Learned, DiskOk, Before, Record, NoBlanks;
      var offset := 0;
      if start.Some? {
        var t0 := GetFirstMsec();
        if t0.None? { return Raised(TypeError); }
        offset := start.value - t0.value;
      }
      var landed := SeekTime(offset, Start);
      if landed.Raised? { return Raised(landed.error); }
      reader.Inside();
      if start.None? { FirstIsTheStart(landed.value); }
      var records := ReadTo(start, if stop == Some(0) then None else stop);
      return Ok(records);
    }

    lemma FirstIsTheStart(time: Option<int>)
      requires DiskOk(reader.disk) && Here() <= Total(reader.disk)
      requires Total(reader.disk) > 0 ==> time.Some? && time.value == Stamp(reader.disk, msec, 0)
      ensures Total(reader.disk) == 0 || AtOrAfter(reader.disk, msec, time.value, Here()) ==> Here() == 0
    {
      if Total(reader.disk) > 0 && Here() > 0 { assert Stamp(reader.disk, msec, 0) >= time.value; }
    }
  }
}
