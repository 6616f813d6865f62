/**
 TextFileReader: a record cursor over a list of text files, with record positions that are learned
 as the files are read. File contents are fixed, `eol` is None, and tail and refresh are off.
 */
module TextFiles {
  import opened Common

  /** A file as iteration over it yields it: one non-empty string a line. */
  type Lines = seq<string>

  /** What sorted(glob.glob(file_spec)) finds: distinct names, and the lines of each file. */
  datatype Disk = Disk(files: seq<string>, text: map<string, Lines>)

  /** An open file: its name and how many of its lines have been read. */
  datatype Handle = Handle(name: string, line: nat)

  const MAXSIZE: nat := 0x7FFF_FFFF_FFFF_FFFF // sys.maxsize

  datatype Origin = Start | Current | End | Unknown

  predicate DiskOk(d: Disk) {
    && (forall i, j :: 0 <= i < j < |d.files| ==> d.files[i] != d.files[j])
    && (forall k :: 0 <= k < |d.files| ==> d.files[k] in d.text)
  }

  /** record.rstrip('\n') */
  function RStrip(s: string): string {
    if s != "" && s[|s| - 1] == '\n' then RStrip(s[..|s| - 1]) else s
  }

  /** It takes away the newlines at the end, all of them, and nothing else. */
  lemma {:induction false} RStripIs(s: string)
    ensures RStrip(s) <= s && (forall k :: |RStrip(s)| <= k < |s| ==> s[k] == '\n')
    ensures RStrip(s) != "" ==> RStrip(s)[|RStrip(s)| - 1] != '\n'
  {
    if s != "" && s[|s| - 1] == '\n' { RStripIs(s[..|s| - 1]); }
  }

  // ---- The simple form: one flat sequence of lines ----

  /** The lines of the first k files, in file order. */
  function FlatTo(d: Disk, k: nat): Lines
    requires DiskOk(d) && k <= |d.files|
  {
    if k == 0 then [] else FlatTo(d, k - 1) + d.text[d.files[k - 1]]
  }

  /** The number of lines in the first k files. */
  function Before(d: Disk, k: nat): nat
    requires DiskOk(d) && k <= |d.files|
  {
    if k == 0 then 0 else Before(d, k - 1) + |d.text[d.files[k - 1]]|
  }

  lemma BeforeStep(d: Disk, k: nat)
    requires DiskOk(d) && k < |d.files|
    ensures Before(d, k + 1) == Before(d, k) + |d.text[d.files[k]]|
  {
  }

  lemma {:induction false} FlatLength(d: Disk, k: nat)
    requires DiskOk(d) && k <= |d.files|
    ensures |FlatTo(d, k)| == Before(d, k)
  {
    if k > 0 { FlatLength(d, k - 1); }
  }

  /** The number of lines in all files. */
  function Total(d: Disk): nat
    requires DiskOk(d)
  {
    Before(d, |d.files|)
  }

  /** Record i of the flat sequence of all lines of all files. */
  function Record(d: Disk, i: nat): string
    requires DiskOk(d) && i < Total(d)
  {
    FlatLength(d, |d.files|);
    RStrip(FlatTo(d, |d.files|)[i])
  }

  lemma {:induction false} BeforeGrows(d: Disk, j: nat, k: nat)
    requires DiskOk(d) && j <= k <= |d.files|
    ensures Before(d, j) <= Before(d, k)
  {
    if j < k { BeforeGrows(d, j, k - 1); }
  }

  /** Line l of file k is flat line Before(k) + l. */
  lemma {:induction false} FlatAt(d: Disk, k: nat, l: nat, n: nat)
    requires DiskOk(d) && k < n <= |d.files| && l < |d.text[d.files[k]]|
    ensures Before(d, k) + l < Before(d, n) == |FlatTo(d, n)|
    ensures FlatTo(d, n)[Before(d, k) + l] == d.text[d.files[k]][l]
  {
    FlatLength(d, n);
    FlatLength(d, n - 1);
    if k < n - 1 { FlatAt(d, k, l, n - 1); }
  }

  // ---- The representation and what it stands for ----

  /** The cursor fields stand for position pos in the flat sequence. */
  predicate CursorOk(d: Disk, used: seq<string>, unused: seq<string>, current: Option<Handle>, pos: nat)
    requires DiskOk(d)
  {
    && |used| <= |d.files| && used == d.files[..|used|] && unused == d.files[|used|..]
    && (match current
        case None => (used == [] && pos == 0) || (unused == [] && pos == Total(d))
        case Some(h) =>
          used != [] && h.name == used[|used| - 1] && h.name in d.text && h.line <= |d.text[h.name]|
          && pos == Before(d, |used| - 1) + h.line)
  }

  /** The first n files' positions are known, no others, and each is the true one: shift is 0 for the
      number of lines before a file and 1 for the number of lines up to its end. */
  predicate Learned(d: Disk, n: nat, shift: nat, at: map<string, nat>)
    requires DiskOk(d) && shift <= 1
  {
    && n <= |d.files|
    && (forall k {:trigger d.files[k] in at} :: 0 <= k < |d.files| ==> (d.files[k] in at <==> k < n))
    && (forall k {:trigger at[d.files[k]]} :: 0 <= k < n ==> at[d.files[k]] == Before(d, k + shift))
  }

  /** No file from number j up to number k is empty. */
  predicate NoneEmpty(d: Disk, j: nat, k: nat)
    requires DiskOk(d) && k <= |d.files|
  {
    forall i :: j <= i < k ==> d.text[d.files[i]] != []
  }

  lemma CursorInside(d: Disk, used: seq<string>, unused: seq<string>, current: Option<Handle>, pos: nat)
    requires DiskOk(d) && CursorOk(d, used, unused, current, pos)
    ensures pos <= Total(d)
    ensures used != [] ==> pos <= Before(d, |used|)
    ensures used == [] ==> pos == 0
  {
    BeforeGrows(d, |used|, |d.files|);
  }

  /** Backing up to a file whose true start is at or before the target, and whose end is not. */
  lemma BackCursor(d: Disk, m: nat, used: seq<string>, unused: seq<string>, n: nat, startPos: map<string, nat>, target: nat)
    requires DiskOk(d) && 0 < |used| <= m <= |d.files| && used == d.files[..|used|] && unused == d.files[|used|..]
    requires m <= n && Learned(d, n, 0, startPos)
    requires startPos[d.files[|used| - 1]] <= target
    requires if |used| == m then target <= Before(d, m) else target < startPos[d.files[|used|]]
    ensures var name := used[|used| - 1];
            CursorOk(d, used, unused, Some(Handle(name, Min(target - startPos[name], |d.text[name]|))), target)
  {
  }

  /** Where the open file's next line is in the flat sequence. */
  lemma NextLine(d: Disk, used: seq<string>, unused: seq<string>, h: Handle, pos: nat)
    requires DiskOk(d) && CursorOk(d, used, unused, Some(h), pos) && h.line < |d.text[h.name]|
    ensures pos < Total(d) && Record(d, pos) == RStrip(d.text[h.name][h.line])
    ensures CursorOk(d, used, unused, Some(Handle(h.name, h.line + 1)), pos + 1)
  {
    FlatAt(d, |used| - 1, h.line, |d.files|);
  }

  /** Opening the next file where the last one ended keeps the cursor where it is. */
  lemma OpenNext(d: Disk, used: seq<string>, unused: seq<string>, current: Option<Handle>, pos: nat)
    requires DiskOk(d) && CursorOk(d, used, unused, current, pos) && unused != []
    requires current.Some? ==> current.value.line == |d.text[current.value.name]|
    ensures pos == Before(d, |used|) && |used| < |d.files| && unused[0] == d.files[|used|]
    ensures used != [] ==> used[|used| - 1] == d.files[|used| - 1]
    ensures CursorOk(d, used + [unused[0]], unused[1..], Some(Handle(unused[0], 0)), pos)
  {
  }

  lemma AllUsed(d: Disk, used: seq<string>, unused: seq<string>, current: Option<Handle>, pos: nat)
    requires DiskOk(d) && CursorOk(d, used, unused, current, pos) && unused == []
    requires current.Some? ==> current.value.line == |d.text[current.value.name]|
    ensures pos == Total(d)
  {
    if current.Some? { BeforeStep(d, |used| - 1); }
  }

  /** Learning the true position of the next file, or learning a known one again. */
  lemma Learn(d: Disk, n: nat, shift: nat, at: map<string, nat>, k: nat)
    requires DiskOk(d) && shift <= 1 && Learned(d, n, shift, at) && k <= n && k < |d.files|
    ensures Learned(d, if k < n then n else n + 1, shift, at[d.files[k] := Before(d, k + shift)])
  {
    hide Before;
    var at' := at[d.files[k] := Before(d, k + shift)];
    forall j | 0 <= j < |d.files| && j != k
      ensures (d.files[j] in at' <==> d.files[j] in at) && (d.files[j] in at ==> at'[d.files[j]] == at[d.files[j]])
    {
      assert d.files[j] != d.files[k];
    }
  }

  /** The counting loop of seek(_, 'end'): the lines counted so far, and the length of the file counted
      last, if one has been. */
  datatype Tally = Tally(pos: nat, n: Option<nat>)

  /** One turn of the loop, for file k. A known end is taken over; an unknown one is counted, and an empty file
      is taken to be as long as the one counted last. Without one, n is not bound yet and that raises. */
  function Turn(d: Disk, end: map<string, nat>, k: nat, t: Tally): Option<Tally>
    requires DiskOk(d) && k < |d.files|
  {
    var name := d.files[k];
    if name in end then Some(Tally(end[name], t.n))
    else
      var n := if d.text[name] != [] then Some(|d.text[name]|) else t.n;
      if n.None? then None else Some(Tally(t.pos + n.value, n))
  }

  function CountTo(d: Disk, end: map<string, nat>, k: nat): Option<Tally>
    requires DiskOk(d) && k <= |d.files|
  {
    if k == 0 then Some(Tally(0, None))
    else
      var t := CountTo(d, end, k - 1);
      if t.None? then None else Turn(d, end, k - 1, t.value)
  }

  /** What seek(_, 'end') takes for the number of all lines, given the ends it knows. */
  function EndCount(d: Disk, end: map<string, nat>): Option<nat>
    requires DiskOk(d)
  {
    var t := CountTo(d, end, |d.files|);
    if t.None? then None else Some(t.value.pos)
  }

  /** The count is right while no file of unknown end is empty; from then on it is too high, or fails. */
  lemma {:induction false} CountIs(d: Disk, e0: nat, end: map<string, nat>, k: nat)
    requires DiskOk(d) && Learned(d, e0, 1, end) && k <= |d.files|
    ensures match CountTo(d, end, k)
            case None => !NoneEmpty(d, e0, k)
            case Some(t) =>
              && (NoneEmpty(d, e0, k) ==> t.pos == Before(d, k))
              && (!NoneEmpty(d, e0, k) ==> t.pos > Before(d, k))
              && (t.n.Some? ==> t.n.value > 0)
  {
    if k > 0 {
      CountIs(d, e0, end, k - 1);
      BeforeStep(d, k - 1);
      hide Before;
      assert NoneEmpty(d, e0, k) <==> NoneEmpty(d, e0, k - 1) && (k - 1 < e0 || d.text[d.files[k - 1]] != []);
      if k - 1 < e0 { assert end[d.files[k - 1]] == Before(d, k); }
      assert d.files[k - 1] in end <==> k - 1 < e0;
    }
  }

  /** The smallest miscounts: a file of one line and an empty one count as two lines, and an empty file alone
      fails. */
  lemma EmptyFilesMiscount()
    ensures var d := Disk(["a", "b"], map["a" := ["one line\n"], "b" := []]);
            DiskOk(d) && Total(d) == 1 && EndCount(d, map[]) == Some(2)
    ensures var d := Disk(["b"], map["b" := []]);
            DiskOk(d) && Total(d) == 0 && EndCount(d, map[]) == None
  {
    var d := Disk(["a", "b"], map["a" := ["one line\n"], "b" := []]);
    assert Before(d, 0) == 0 && Before(d, 1) == 1 && Before(d, 2) == 1;
    assert CountTo(d, map[], 1) == Some(Tally(1, Some(1)));
    assert CountTo(d, map[], 2) == Some(Tally(2, Some(1)));
    var e := Disk(["b"], map["b" := []]);
    assert Before(e, 1) == 0 && CountTo(e, map[], 0) == Some(Tally(0, None)) && CountTo(e, map[], 1) == None;
  }

  /** Where the counting loop of seek(_, 'end') stands after k files, when it began with s0 and e0
      known positions: the positions are true until an empty file has been miscounted. */
  predicate Counted(d: Disk, k: nat, s0: nat, e0: nat, start: map<string, nat>, end: map<string, nat>, p: nat)
    requires DiskOk(d) && k <= |d.files|
  {
    && s0 <= |d.files| && e0 <= s0
    && (forall j {:trigger d.files[j] in start} :: 0 <= j < |d.files| ==> (d.files[j] in start <==> j < Max(s0, k)))
    && (forall j {:trigger d.files[j] in end} :: 0 <= j < |d.files| ==> (d.files[j] in end <==> j < Max(e0, k)))
    && (k > 0 ==> start[d.files[0]] == 0)
    && (if NoneEmpty(d, e0, k) then
          p == Before(d, k) && Learned(d, Max(s0, k), 0, start) && Learned(d, Max(e0, k), 1, end)
        else p > Before(d, k))
  }

  lemma CountStart(d: Disk, s0: nat, e0: nat, start: map<string, nat>, end: map<string, nat>)
    requires DiskOk(d) && Learned(d, s0, 0, start) && Learned(d, e0, 1, end) && e0 <= s0
    ensures Counted(d, 0, s0, e0, start, end, 0)
  {
  }

  lemma CountKnown(d: Disk, k: nat, s0: nat, e0: nat, start: map<string, nat>, end: map<string, nat>, p: nat)
    requires DiskOk(d) && k < |d.files| && Counted(d, k, s0, e0, start, end, p) && d.files[k] in end
    ensures Counted(d, k + 1, s0, e0, start, end, end[d.files[k]])
  {
    assert k < e0 && NoneEmpty(d, e0, k + 1);
    assert end[d.files[k]] == Before(d, k + 1);
  }

  lemma CountFileKeys(d: Disk, k: nat, n: nat, m: nat, at: map<string, nat>, v: nat)
    requires DiskOk(d) && k < |d.files| && n <= |d.files| && m == Max(n, k) && k <= m
    requires forall j {:trigger d.files[j] in at} :: 0 <= j < |d.files| ==> (d.files[j] in at <==> j < m)
    ensures forall j {:trigger d.files[j] in at[d.files[k] := v]} :: 0 <= j < |d.files| ==>
              (d.files[j] in at[d.files[k] := v] <==> j < Max(n, k + 1))
    ensures forall j {:trigger at[d.files[k] := v][d.files[j]]} :: 0 <= j < m && j != k ==>
              at[d.files[k] := v][d.files[j]] == at[d.files[j]]
  {
    forall j | 0 <= j < |d.files| && j != k ensures d.files[j] != d.files[k] {}
  }

  /** Counting file k as n lines: right if that is its length, one too many or more if it is empty. */
  lemma CountFile(d: Disk, k: nat, s0: nat, e0: nat, start: map<string, nat>, end: map<string, nat>, p: nat, n: nat)
    requires DiskOk(d) && k < |d.files| && Counted(d, k, s0, e0, start, end, p) && d.files[k] !in end
    requires n > 0 && (d.text[d.files[k]] != [] ==> n == |d.text[d.files[k]]|)
    ensures Counted(d, k + 1, s0, e0, start[d.files[k] := p], end[d.files[k] := p + n], p + n)
  {
    BeforeStep(d, k);
    hide Before;
    assert k >= e0;
    CountFileKeys(d, k, s0, Max(s0, k), start, p);
    CountFileKeys(d, k, e0, Max(e0, k), end, p + n);
    if NoneEmpty(d, e0, k + 1) {
      assert NoneEmpty(d, e0, k) && d.text[d.files[k]] != [];
      Learn(d, Max(s0, k), 0, start, k);
      Learn(d, Max(e0, k), 1, end, k);
    } else if NoneEmpty(d, e0, k) {
      assert d.text[d.files[k]] == [];
    }
  }

  /** What one turn that does not raise does to the learned positions. */
  lemma TurnCounted(d: Disk, k: nat, s0: nat, e0: nat, start: map<string, nat>, end: map<string, nat>, t: Tally)
    requires DiskOk(d) && k < |d.files| && Counted(d, k, s0, e0, start, end, t.pos)
    requires (t.n.Some? ==> t.n.value > 0) && Turn(d, end, k, t).Some?
    ensures var (name, u) := (d.files[k], Turn(d, end, k, t).value);
            && (u.n.Some? ==> u.n.value > 0)
            && if name in end then Counted(d, k + 1, s0, e0, start, end, u.pos)
               else Counted(d, k + 1, s0, e0, start[name := t.pos], end[name := u.pos], u.pos)
  {
    hide Counted;
    if d.files[k] in end {
      CountKnown(d, k, s0, e0, start, end, t.pos);
    } else {
      CountFile(d, k, s0, e0, start, end, t.pos, Turn(d, end, k, t).value.n.value);
    }
  }

  /** The ends of the files from number k on are the same. */
  predicate SameFrom(d: Disk, k: nat, a: map<string, nat>, b: map<string, nat>) {
    forall j {:trigger d.files[j] in b} :: k <= j < |d.files| ==>
      (d.files[j] in a <==> d.files[j] in b) && (d.files[j] in a ==> a[d.files[j]] == b[d.files[j]])
  }

  lemma TurnFrame(d: Disk, k: nat, a: map<string, nat>, b: map<string, nat>, t: Tally, v: nat)
    requires DiskOk(d) && k < |d.files| && SameFrom(d, k, a, b)
    ensures Turn(d, a, k, t) == Turn(d, b, k, t)
    ensures SameFrom(d, k + 1, a, b) && SameFrom(d, k + 1, a, b[d.files[k] := v])
  {
    assert d.files[k] in a <==> d.files[k] in b;
    forall j | k + 1 <= j < |d.files| ensures d.files[j] != d.files[k] {}
  }

  lemma {:induction false} CountStaysNone(d: Disk, end: map<string, nat>, k: nat, m: nat)
    requires DiskOk(d) && k <= m <= |d.files| && CountTo(d, end, k).None?
    ensures CountTo(d, end, m).None?
  {
    if k < m { CountStaysNone(d, end, k, m - 1); }
  }

  lemma SameAsItself(d: Disk, a: map<string, nat>)
    ensures SameFrom(d, 0, a, a)
  {
  }

  lemma TurnFacts(d: Disk, e0: nat, end: map<string, nat>, k: nat, t: Tally)
    requires DiskOk(d) && k < |d.files| && Learned(d, e0, 1, end)
    ensures d.files[k] in end <==> k < e0
    ensures Turn(d, end, k, t).None? ==> t.n.None? && k >= e0 && d.text[d.files[k]] == []
    ensures Turn(d, end, k, t).Some? && Turn(d, end, k, t).value.n.None? ==> t.n.None? && k < e0
  {
  }

  /** The loop fails at the first file of unknown end, and with all positions learned so far true. */
  lemma CountFails(d: Disk, s0: nat, e0: nat, start: map<string, nat>, end: map<string, nat>, k: nat, p: nat)
    requires DiskOk(d) && k < |d.files| && e0 == k <= s0 && Learned(d, s0, 0, start)
    requires Counted(d, k, s0, e0, start, end, p) && d.text[d.files[k]] == []
    ensures Learned(d, Max(s0, k + 1), 0, start[d.files[k] := p])
    ensures !NoneEmpty(d, e0, |d.files|)
  {
    assert NoneEmpty(d, e0, k);
    Learn(d, s0, 0, start, k);
  }

  lemma CountedAll(d: Disk, s0: nat, e0: nat, start: map<string, nat>, end: map<string, nat>, p: nat)
    requires DiskOk(d) && Counted(d, |d.files|, s0, e0, start, end, p) && NoneEmpty(d, e0, |d.files|)
    ensures Learned(d, |d.files|, 0, start) && Learned(d, |d.files|, 1, end)
    ensures p == Total(d)
  {
  }

  class TextFileReader {
    const disk: Disk
    var pos: nat
    var startPos: map<string, nat>
    var endPos: map<string, nat>
    var current: Option<Handle>
    var used: seq<string>
    var unused: seq<string>
    ghost var starts: nat  // how many files have an entry in startPos
    ghost var ends: nat    // how many files have an entry in endPos

    ghost predicate Valid()
      reads this
    {
      && DiskOk(disk)
      && CursorOk(disk, used, unused, current, pos)
      && IndexOk()
      && |used| <= starts && |used| <= ends + 1
    }

    /** Every learned position is the true one. */
    ghost predicate IndexOk()
      reads this
      requires DiskOk(disk)
    {
      Learned(disk, starts, 0, startPos) && Learned(disk, ends, 1, endPos) && ends <= starts
    }

    /** No file is open and none can be opened any more. */
    predicate Stuck()
      reads this
    {
      current.None? && unused == []
    }

    constructor (disk: Disk)
      requires DiskOk(disk)
      ensures this.disk == disk && Valid() && pos == 0
    {
      this.disk := disk;
      pos, startPos, endPos, current := 0, map[], map[], None;
      starts, ends := 0, 0;
      used, unused := [], disk.files;
    }

    /** The part of _get_next_file that notes where the file about to be closed ended. */
    method NoteEnd()
      requires Valid() && unused != []
      requires current.Some? ==> current.value.line == |disk.text[current.value.name]|
      modifies this`endPos, this`ends
      ensures Learned(disk, ends, 1, endPos) && ends <= starts && |used| <= ends
    {
      hide Learned, CursorOk, Before;
      OpenNext(disk, used, unused, current, pos);
      if used != [] {
        Learn(disk, ends, 1, endPos, |used| - 1);
        endPos := endPos[used[|used| - 1] := pos];
        ends := if |used| - 1 < ends then ends else ends + 1;
      }
    }

    /** _get_next_file: opens the next unused file, if there is one. */
    method GetNextFile() returns (found: bool)
      requires Valid()
      requires current.Some? ==> current.value.line == |disk.text[current.value.name]|
      modifies this
      ensures Valid() && pos == old(pos)
      ensures found <==> old(unused) != []
      ensures found ==> current == Some(Handle(old(unused)[0], 0)) && unused == old(unused)[1..]
      ensures !found ==> used == old(used) && unused == [] && current == old(current)
      ensures !found ==> pos == Total(disk)
    {
      hide Learned, CursorOk, Before;
      if unused == [] {
        AllUsed(disk, used, unused, current, pos);
        return false;
      }
      NoteEnd();
      OpenNext(disk, used, unused, current, pos);
      Learn(disk, starts, 0, startPos, |used|);
      starts := if |used| < starts then starts else starts + 1;
      var next := unused[0];
      unused := unused[1..];
      startPos := startPos[next := pos];
      current := Some(Handle(next, 0));
      used := used + [next];
      return true;
    }

    /** readline on the open file. */
    method ReadLine() returns (line: Option<string>)
      requires current.Some? && current.value.name in disk.text
      modifies this`current
      ensures var h := old(current).value; var lines := disk.text[h.name];
              if h.line < |lines| then line == Some(lines[h.line]) && current == Some(Handle(h.name, h.line + 1))
              else line == None && current == old(current)
    {
      var h := current.value;
      if h.line < |disk.text[h.name]| {
        line := Some(disk.text[h.name][h.line]);
        current := Some(Handle(h.name, h.line + 1));
      } else {
        line := None;
      }
    }

    /** One turn of the loop in read: the next line, another file to look into, or neither. */
    method ReadOnce() returns (record: Option<string>, again: bool)
      requires Valid()
      modifies this
      ensures Valid()
      ensures record.Some? ==> !again && old(pos) < Total(disk) && record.value == Record(disk, old(pos)) && pos == old(pos) + 1
      ensures record.None? ==> pos == old(pos)
      ensures again ==> |unused| < |old(unused)|
      ensures record.None? && !again ==> pos >= Total(disk)
      ensures !old(Stuck()) ==> !Stuck()
      ensures current.None? ==> old(Stuck())
    {
      hide Learned, Before, Record;
      record, again := None, false;
      var isOpen := current.Some?;
      if !isOpen {
        isOpen := GetNextFile();
      }
      if isOpen {
        ghost var here := current.value;
        if here.line < |disk.text[here.name]| { NextLine(disk, used, unused, here, pos); }
        var line := ReadLine();
        if line.Some? {
          pos := pos + 1;
          return Some(RStrip(line.value)), false;
        }
        again := GetNextFile();
      }
    }

    /** read returns the next flat line, or None exactly at the end. */
    method Read() returns (record: Option<string>)
      requires Valid()
      modifies this
      ensures Valid()
      ensures old(pos) < Total(disk) ==> record == Some(Record(disk, old(pos))) && pos == old(pos) + 1
      ensures old(pos) >= Total(disk) ==> record == None && pos == old(pos)
      ensures !old(Stuck()) ==> !Stuck()
    {
      hide Learned, Before, Record, CursorOk, IndexOk;
      var again := true;
      record := None;
      while again
        invariant Valid() && (!old(Stuck()) ==> !Stuck())
        invariant record.None? ==> pos == old(pos)
        invariant again ==> record.None?
        invariant record.Some? ==> old(pos) < Total(disk) && record.value == Record(disk, old(pos)) && pos == old(pos) + 1
        invariant !again && record.None? ==> pos >= Total(disk)
        decreases if again then |unused| + 1 else 0
      {
        record, again := ReadOnce();
      }
    }

    /** One turn of the loop in _seek_forward_from_current; done is its `break`. When no file is open
        or openable the turn changes nothing, so the source's loop never ends. */
    method ForwardOnce(i: nat) returns (i': nat, done: bool)
      requires Valid()
      modifies this
      ensures Valid() && pos - old(pos) == i' - i
      ensures old(Stuck()) ==> i' == i && !done && Stuck() && used == old(used)
      ensures !old(Stuck()) ==> !Stuck()
      ensures !old(Stuck()) && old(pos) < Total(disk) ==>
                !done && (i' == i + 1 || (i' == i && |unused| < |old(unused)|))
      ensures !old(Stuck()) && old(pos) >= Total(disk) ==> i' == i && (done || |unused| < |old(unused)|)
      ensures |unused| <= |old(unused)|
    {
      i', done := i, false;
      var isOpen := current.Some?;
      if !isOpen {
        isOpen := GetNextFile();
      }
      if isOpen {
        ghost var here := current.value;
        if here.line < |disk.text[here.name]| { NextLine(disk, used, unused, here, pos); }
        var line := ReadLine();
        if line.Some? {
          i' := i' + 1;
          pos := pos + 1;
        } else {
          var more := GetNextFile();
          done := !more;
        }
      }
    }

    /** The loop of _seek_forward_from_current, when it ends. */
    method ForwardLoop(offset: nat)
      requires Valid() && !Stuck()
      modifies this
      ensures Valid() && pos == Min(old(pos) + offset, Total(disk))
    {
      CursorInside(disk, used, unused, current, pos);
      var i, done := 0, false;
      while i < offset && !done
        invariant Valid() && !Stuck() && i <= offset && pos == old(pos) + i <= Total(disk)
        invariant done ==> pos == Total(disk)
        decreases Total(disk) - pos, |unused|, !done
      {
        i, done := ForwardOnce(i);
        CursorInside(disk, used, unused, current, pos);
      }
    }

    /** _seek_forward_from_current, for an offset with which it ends. */
    method SeekForward(offset: int) returns (raised: bool)
      requires Valid() && (offset > 0 ==> !Stuck())
      modifies this
      ensures Valid()
      ensures offset > 0 ==> !raised && pos == Min(old(pos) + offset, Total(disk))
      ensures offset <= 0 ==> raised == (old(pos) + offset < 0) && (!raised ==> pos == old(pos) + offset)
      ensures raised || offset == 0 ==> SameCursor(old(used), old(unused), old(current), old(pos))
      decreases if offset < 0 then 1 else 0
    {
      raised := false;
      if offset < 0 {
        ValidStarts();
        raised := SeekBack(offset);
      } else if offset > 0 {
        ForwardLoop(offset);
      }
    }

    predicate SameCursor(u: seq<string>, n: seq<string>, c: Option<Handle>, p: nat)
      reads this
    {
      used == u && unused == n && current == c && pos == p
    }

    /** Enough of the index for the backward search to end, even with wrong positions. */
    predicate StartsKnown()
      reads this
      requires DiskOk(disk)
    {
      && |used| <= |disk.files| && used == disk.files[..|used|] && unused == disk.files[|used|..]
      && (forall k :: 0 <= k < |used| ==> used[k] in startPos)
      && (used != [] ==> startPos[used[0]] == 0)
      && (used == [] ==> pos == 0)
    }

    lemma ValidStarts()
      requires Valid()
      ensures StartsKnown()
    {
    }

    lemma SplitBefore(files: seq<string>, k: nat)
      requires k < |files|
      ensures files[..k + 1][k] == files[k] && files[..k + 1][..k] == files[..k]
      ensures [files[k]] + files[k + 1..] == files[k..]
    {
    }

    /** The search of _seek_back_from_current for the file that holds line `target`. */
    method BackToFile(target: nat) returns (name: string)
      requires DiskOk(disk) && StartsKnown() && used != []
      modifies this`used, this`unused
      ensures StartsKnown() && used != [] && name == used[|used| - 1] && startPos[name] <= target
      ensures |used| <= |old(used)|
      ensures |used| == |old(used)| || target < startPos[disk.files[|used|]]
    {
      name := used[|used| - 1];
      while target < startPos[name]
        invariant StartsKnown() && used != [] && name == used[|used| - 1] && |used| <= |old(used)|
        invariant |used| == |old(used)| || (disk.files[|used|] in startPos && target < startPos[disk.files[|used|]])
        decreases |used|
      {
        assert |used| > 1;
        SplitBefore(disk.files, |used| - 1);
        unused := [name] + unused;
        used := used[..|used| - 1];
        name := used[|used| - 1];
      }
    }

    lemma Inside()
      requires Valid()
      ensures pos <= Total(disk)
    {
      CursorInside(disk, used, unused, current, pos);
    }

    /** What _seek_back_from_current does once the target is known to be a record. */
    method BackTo(target: nat)
      requires DiskOk(disk) && StartsKnown() && used != [] && target < pos
      modifies this`used, this`unused, this`current, this`pos
      ensures old(Valid()) ==> Valid()
      ensures pos == target
    {
      ghost var ok, m := Valid(), |used|;
      if ok { CursorInside(disk, used, unused, current, pos); }
      var name := BackToFile(target);
      if ok { BackCursor(disk, m, used, unused, starts, startPos, target); }
      current := Some(Handle(name, Min(target - startPos[name], |disk.text[name]|)));
      pos := target;
    }

    /** _seek_back_from_current. */
    method SeekBack(offset: int) returns (raised: bool)
      requires DiskOk(disk) && StartsKnown()
      requires offset > 0 ==> Valid() && !Stuck()
      modifies this
      ensures old(Valid()) ==> Valid()
      ensures offset > 0 ==> !raised && pos == Min(old(pos) + offset, Total(disk))
      ensures offset <= 0 ==> raised == (old(pos) + offset < 0) && (!raised ==> pos == old(pos) + offset)
      ensures offset <= 0 ==> startPos == old(startPos) && endPos == old(endPos) && starts == old(starts) && ends == old(ends)
      ensures raised || offset == 0 ==> SameCursor(old(used), old(unused), old(current), old(pos))
      decreases if offset > 0 then 1 else 0
    {
      raised := false;
      if offset > 0 {
        raised := SeekForward(offset);
      } else if offset < 0 {
        var target := pos + offset;
        if target < 0 { return true; }
        BackTo(target);
      }
    }

    /** For which arguments seek comes back at all. */
    predicate Halts(offset: int, origin: Origin)
      reads this
    {
      match origin
      case Start => offset <= 0 || disk.files != []
      case Current => offset <= 0 || !Stuck()
      case End => offset <= 0
      case Unknown => true
    }

    /** Every file whose end is not known yet has a line to count. */
    predicate CountsRight()
      reads this
      requires DiskOk(disk)
    {
      forall k :: 0 <= k < |disk.files| && disk.files[k] !in endPos ==> disk.text[disk.files[k]] != []
    }

    /** One turn of the counting loop of seek(_, 'end') for file k. */
    method CountTurn(k: nat, t: Tally) returns (t': Option<Tally>)
      requires DiskOk(disk) && k < |disk.files|
      modifies this`startPos, this`endPos
      ensures t' == Turn(disk, old(endPos), k, t)
      ensures disk.files[k] in old(endPos) ==> startPos == old(startPos)
      ensures disk.files[k] !in old(endPos) ==> startPos == old(startPos)[disk.files[k] := t.pos]
      ensures disk.files[k] in old(endPos) || t'.None? ==> endPos == old(endPos)
      ensures disk.files[k] !in old(endPos) && t'.Some? ==> endPos == old(endPos)[disk.files[k] := t'.value.pos]
    {
      var name := disk.files[k];
      if name in endPos {
        return Some(Tally(endPos[name], t.n));
      }
      startPos := startPos[name := t.pos];
      var n := t.n;
      if disk.text[name] != [] {
        n := Some(|disk.text[name]|);
      }
      if n.None? { return None; }
      endPos := endPos[name := t.pos + n.value];
      return Some(Tally(t.pos + n.value, n));
    }

    /** The counting loop; None stands for its UnboundLocalError. */
    method CountToEnd() returns (total: Option<nat>)
      requires Valid()
      modifies this`startPos, this`endPos, this`starts, this`ends
      ensures total == EndCount(disk, old(endPos)) && (disk.files == [] ==> total == Some(0))
      ensures total.Some? ==> Counted(disk, |disk.files|, old(starts), old(ends), startPos, endPos, total.value)
      ensures total.None? || NoneEmpty(disk, old(ends), |disk.files|) ==>
                IndexOk() && old(starts) <= starts && old(ends) <= ends
      ensures total.Some? && NoneEmpty(disk, old(ends), |disk.files|) ==> starts == ends == |disk.files|
    {
      hide Learned, Before, CursorOk, Turn, Counted, SameFrom, NoneEmpty;
      CountStart(disk, starts, ends, startPos, endPos);
      SameAsItself(disk, endPos);
      ghost var s, e := startPos, endPos;
      var t := Tally(0, None);
      for k := 0 to |disk.files|
        invariant CountTo(disk, e, k) == Some(t) && SameFrom(disk, k, e, endPos)
        invariant Counted(disk, k, old(starts), old(ends), startPos, endPos, t.pos)
        invariant if t.n.None? then k <= old(ends) && endPos == e && startPos == s else t.n.value > 0
        invariant starts == old(starts) && ends == old(ends)
      {
        TurnFacts(disk, ends, e, k, t);
        ghost var known := endPos;
        ghost var turn := Turn(disk, known, k, t);
        TurnFrame(disk, k, e, known, t, if turn.Some? then turn.value.pos else 0);
        if turn.Some? { TurnCounted(disk, k, starts, ends, startPos, endPos, t); }
        var next := CountTurn(k, t);
        if next.None? {
          CountStaysNone(disk, e, k + 1, |disk.files|);
          CountFails(disk, starts, ends, s, e, k, t.pos);
          starts := Max(starts, k + 1);
          return None;
        }
        t := next.value;
      }
      if NoneEmpty(disk, ends, |disk.files|) { CountedAll(disk, starts, ends, startPos, endPos, t.pos); }
      starts, ends := |disk.files|, |disk.files|;
      return Some(t.pos);
    }

    /** Where seek lands when no file is miscounted; None when it raises ValueError. */
    function Target(offset: int, origin: Origin): Option<nat>
      reads this
      requires DiskOk(disk)
    {
      var base := match origin case Start => 0 case Current => pos case End => Total(disk) case Unknown => 0;
      if origin.Unknown? || base + offset < 0 then None
      else if offset <= 0 then Some(base + offset)
      else Some(Min(base + offset, Total(disk)))
    }

    /** The branch of seek for 'start'; returns whether ValueError was raised. */
    method SeekStart(offset: int) returns (raised: bool)
      requires Valid() && Halts(offset, Start)
      modifies this
      ensures Valid()
      ensures raised == (offset < 0)
      ensures raised ==> SameCursor(old(used), old(unused), old(current), old(pos))
      ensures !raised ==> pos == Min(offset, Total(disk))
    {
      if offset < 0 { return true; }
      used, unused := [], disk.files;
      current := None;
      pos := 0;
      raised := SeekForward(offset);
    }

    /** The branch of seek for 'end'; returns the exception, if one was raised. */
    method SeekEnd(offset: int) returns (error: Option<Error>)
      requires Valid() && Halts(offset, End)
      modifies this
      ensures old(CountsRight()) || error == Some(UnboundLocalError) ==>
                IndexOk() && old(starts) <= starts && old(ends) <= ends
      ensures old(CountsRight()) && error.None? ==> Valid()
      ensures match EndCount(disk, old(endPos))
              case None => error == Some(UnboundLocalError)
              case Some(n) => if n + offset < 0 then error == Some(ValueError) else error.None? && pos == n + offset
    {
      hide Learned, Before, EndCount;
      UnknownEnds();
      var total := CountToEnd();
      if total.None? { return Some(UnboundLocalError); }
      used, unused := disk.files, [];
      current := None;
      pos := total.value;
      var raised := SeekBack(offset);
      return if raised then Some(ValueError) else None;
    }

    lemma UnknownEnds()
      requires Valid()
      ensures CountsRight() <==> NoneEmpty(disk, ends, |disk.files|)
    {
      if CountsRight() {
        forall i | ends <= i < |disk.files| ensures disk.text[disk.files[i]] != [] {
          assert disk.files[i] !in endPos;
        }
      }
    }

    /** What a seek returns, or raises, that lands at a target if there is one. */
    function Landing(target: Option<nat>): Result<nat> {
      if target.None? then Raised(ValueError) else Ok(target.value)
    }

    /** What a seek from the end comes to when it has counted so many lines. */
    function EndLanding(count: Option<nat>, offset: int): Result<nat> {
      if count.None? then Raised(UnboundLocalError)
      else if count.value + offset < 0 then Raised(ValueError)
      else Ok(count.value + offset)
    }

    /** A seek from the end is right exactly when every file of unknown end has a line, or when the count is
        too high but still too low for the offset. */
    lemma EndIsRightIff(offset: int)
      requires Valid() && offset <= 0
      ensures var count := EndCount(disk, endPos);
              && (CountsRight() ==> count == Some(Total(disk)))
              && (EndLanding(count, offset) == Landing(Target(offset, End)) <==>
                   CountsRight() || (count.Some? && count.value + offset < 0))
    {
      UnknownEnds();
      CountIs(disk, ends, endPos, |disk.files|);
      hide Before, NoneEmpty, CountTo;
    }

    /** seek: lands at the target, clamped to the last record, or raises and leaves the cursor alone.
        Only an 'end' seek that has to count an empty file does otherwise: it goes by its own count. */
    method Seek(offset: int, origin: Origin) returns (r: Result<nat>)
      requires Valid() && Halts(offset, origin)
      modifies this
      ensures r.Raised? ==> SameCursor(old(used), old(unused), old(current), old(pos))
      ensures r.Ok? ==> pos == r.value
      ensures origin.End? ==> old(CountsRight()) || r == Raised(UnboundLocalError) ==> Valid()
      ensures !origin.End? ==> Valid() && r == Landing(old(Target(offset, origin)))
      ensures origin.End? ==> r == EndLanding(EndCount(disk, old(endPos)), offset)
      ensures origin.End? ==>
                (r == Landing(old(Target(offset, origin))) <==>
                 old(CountsRight()) || (EndCount(disk, old(endPos)).Some? && r.Raised?))
    {
      hide Learned, CursorOk, DiskOk, Before, EndCount, CountsRight;
      var savedUsed, savedUnused, savedPos, savedCurrent := used, unused, pos, current;
      var error: Option<Error> := None;
      match origin {
        case Start =>
          var raised := SeekStart(offset);
          error := if raised then Some(ValueError) else None;
        case Current =>
          ValidStarts();
          var raised;
          if offset >= 0 { raised := SeekForward(offset); } else { raised := SeekBack(offset); }
          error := if raised then Some(ValueError) else None;
        case End =>
          EndIsRightIff(offset);
          error := SeekEnd(offset);
        case Unknown =>
          error := Some(ValueError);
      }
      if error.Some? {
        used, unused, pos, current := savedUsed, savedUnused, savedPos, savedCurrent;
        return Raised(error.value);
      }
      return Ok(pos);
    }

    /** read_range: the records from number start up to, not including, number stop. */
    method ReadRange(start: Option<int>, stop: Option<int>) returns (r: Result<seq<string>>)
      requires Valid() && Halts(if start.Some? then start.value else 0, Start)
      modifies this
      ensures Valid()
      ensures var a := if start.Some? then start.value else 0;
              var b := if stop.Some? then stop.value else MAXSIZE;
              if a < 0 then r == Raised(ValueError)
              else r.Ok? && |r.value| == Min(b, Total(disk)) - Min(Min(a, b), Total(disk)) &&
                   forall i :: 0 <= i < |r.value| ==> a + i < Total(disk) && r.value[i] == Record(disk, a + i)
    {
      hide Learned, CursorOk, DiskOk, Before, Record;
      var a := if start.Some? then start.value else 0;
      var b := if stop.Some? then stop.value else MAXSIZE;
      var landed := Seek(a, Start);
      if landed.Raised? { return Raised(landed.error); }
      var records := [];
      var n := 0;
      while n < b - a
        invariant Valid() && |records| == n && pos == Min(a, Total(disk)) + n <= Total(disk)
        invariant n <= b - a || n == 0
        invariant forall i :: 0 <= i < |records| ==> a + i < Total(disk) && records[i] == Record(disk, a + i)
      {
        var record := Read();
        if record.None? { break; }
        records := records + [record.value];
        n := n + 1;
      }
      return Ok(records);
    }
  }
}
