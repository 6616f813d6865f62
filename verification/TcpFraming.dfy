/**
 TCPReader with an end-of-record sequence: bytes arrive in pieces of any size, which are gathered in a
 buffer and cut into records. A socket is a source of chunks; an empty one says that the other side has
 disconnected. Decoding, and reading by size, are not part of this model.
 */
module TcpFraming {
  import opened Common

  type Bytes = seq<bv8>

  // ---- Cutting a stream into pieces ----

  predicate OccursAt(s: Bytes, e: Bytes, k: int) { 0 <= k <= |s| - |e| && s[k..k + |e|] == e }

  /** e occurs in s at k and nowhere before. */
  predicate FirstAt(s: Bytes, e: Bytes, k: nat) {
    OccursAt(s, e, k) && forall j :: 0 <= j < k ==> !OccursAt(s, e, j)
  }

  lemma Assoc<T>(a: seq<T>, b: seq<T>, c: seq<T>)
    ensures (a + b) + c == a + (b + c)
  {
  }

  /** bytes.find, from index k on. */
  function Find(s: Bytes, e: Bytes, k: nat): (r: Option<nat>)
    ensures r.Some? ==> r.value >= k && OccursAt(s, e, r.value) && forall j :: k <= j < r.value ==> !OccursAt(s, e, j)
    ensures r.None? ==> forall j :: k <= j ==> !OccursAt(s, e, j)
    decreases |s| - k
  {
    if k > |s| - |e| then None else if s[k..k + |e|] == e then Some(k) else Find(s, e, k + 1)
  }

  /** The complete pieces of a stream: cut at the first e, again and again. */
  function Pieces(s: Bytes, e: Bytes): seq<Bytes>
    requires e != []
    decreases |s|
  {
    var i := Find(s, e, 0);
    if i.None? then [] else [s[..i.value]] + Pieces(s[i.value + |e|..], e)
  }

  /** What follows the last complete piece. */
  function Rest(s: Bytes, e: Bytes): Bytes
    requires e != []
    decreases |s|
  {
    var i := Find(s, e, 0);
    if i.None? then s else Rest(s[i.value + |e|..], e)
  }

  /** The pieces, each with its e behind it, put together. */
  function Joined(pieces: seq<Bytes>, e: Bytes): Bytes {
    if pieces == [] then [] else pieces[0] + e + Joined(pieces[1..], e)
  }

  /** A piece that is followed by its e, and holds no part of an earlier one. */
  predicate Whole(piece: Bytes, e: Bytes) { FirstAt(piece + e, e, |piece|) }

  lemma FirstIsFound(s: Bytes, e: Bytes, k: nat)
    requires FirstAt(s, e, k)
    ensures Find(s, e, 0) == Some(k)
  {
  }

  lemma OccursInPrefix(a: Bytes, b: Bytes, e: Bytes, k: nat)
    requires k + |e| <= |a|
    ensures OccursAt(a + b, e, k) <==> OccursAt(a, e, k)
  {
    assert (a + b)[k..k + |e|] == a[k..k + |e|];
  }

  /** The first occurrence does not move when more bytes arrive, or later ones are cut off. */
  lemma FirstInPrefix(a: Bytes, b: Bytes, e: Bytes, k: nat)
    requires k + |e| <= |a|
    ensures FirstAt(a + b, e, k) <==> FirstAt(a, e, k)
  {
    forall j | 0 <= j <= k ensures OccursAt(a + b, e, j) <==> OccursAt(a, e, j) {
      OccursInPrefix(a, b, e, j);
    }
  }

  lemma CutAt(s: Bytes, e: Bytes, k: nat, piece: Bytes, tail: Bytes)
    requires e != [] && FirstAt(s, e, k) && piece == s[..k] && tail == s[k + |e|..]
    ensures Pieces(s, e) == [piece] + Pieces(tail, e)
    ensures Rest(s, e) == Rest(tail, e)
  {
    hide FirstAt, OccursAt;
    FirstIsFound(s, e, k);
    assert Pieces(s, e) == [piece] + Pieces(tail, e);
  }

  lemma NotCut(s: Bytes, e: Bytes)
    requires e != [] && Find(s, e, 0).None?
    ensures Pieces(s, e) == [] && Rest(s, e) == s
  {
  }

  lemma Slices(a: Bytes, b: Bytes, k: nat, n: nat)
    requires k <= |a| && n <= |a|
    ensures (a + b)[..k] == a[..k] && (a + b)[n..] == a[n..] + b
  {
  }

  /** One cut. */
  lemma CutFirst(a: Bytes, b: Bytes, e: Bytes, k: nat)
    requires e != [] && FirstAt(a, e, k)
    ensures Pieces(a + b, e) == [a[..k]] + Pieces(a[k + |e|..] + b, e)
    ensures Rest(a + b, e) == Rest(a[k + |e|..] + b, e)
  {
    FirstInPrefix(a, b, e, k);
    Slices(a, b, k, k + |e|);
    hide FirstAt;
    CutAt(a + b, e, k, a[..k], a[k + |e|..] + b);
  }

  /** More bytes leave the pieces there are, and add those of what was left over and the new bytes: how the
      stream is divided into chunks does not matter. */
  lemma {:induction false} PiecesExtend(a: Bytes, b: Bytes, e: Bytes)
    requires e != []
    ensures Pieces(a + b, e) == Pieces(a, e) + Pieces(Rest(a, e) + b, e)
    ensures Rest(a + b, e) == Rest(Rest(a, e) + b, e)
    decreases |a|
  {
    var i := Find(a, e, 0);
    if i.Some? {
      var piece, tail := a[..i.value], a[i.value + |e|..];
      hide *;
      CutFirst(a, b, e, i.value);
      CutAt(a, e, i.value, piece, tail);
      PiecesExtend(tail, b, e);
      Assoc([piece], Pieces(tail, e), Pieces(Rest(tail, e) + b, e));
    } else {
      NotCut(a, e);
      assert [] + Pieces(a + b, e) == Pieces(a + b, e);
    }
  }

  /** Splitting and joining are inverse: the pieces and the rest make up the stream again, each piece is
      whole, and the rest holds no e. */
  lemma {:induction false} PiecesJoin(s: Bytes, e: Bytes)
    requires e != []
    ensures Joined(Pieces(s, e), e) + Rest(s, e) == s
    ensures forall k :: 0 <= k < |Pieces(s, e)| ==> Whole(Pieces(s, e)[k], e)
    ensures Find(Rest(s, e), e, 0) == None
    decreases |s|
  {
    var i := Find(s, e, 0);
    if i.Some? {
      var piece, tail := s[..i.value], s[i.value + |e|..];
      hide *;
      FirstPiece(s, e, i.value);
      PiecesJoin(tail, e);
      JoinedFirst(piece, Pieces(tail, e), e);
      Assoc(piece + e, Joined(Pieces(tail, e), e), Rest(tail, e));
      assert forall k :: 0 <= k < |Pieces(tail, e)| ==> Pieces(s, e)[k + 1] == Pieces(tail, e)[k];
    }
  }

  lemma FirstPiece(s: Bytes, e: Bytes, i: nat)
    requires e != [] && FirstAt(s, e, i)
    ensures var (piece, tail) := (s[..i], s[i + |e|..]);
            s == piece + e + tail && Whole(piece, e) && Pieces(s, e) == [piece] + Pieces(tail, e) && Rest(s, e) == Rest(tail, e)
  {
    var piece, tail := s[..i], s[i + |e|..];
    assert s == (piece + e) + tail;
    FirstInPrefix(piece + e, tail, e, i);
    CutFirst(s, [], e, i);
    assert s + [] == s && tail + [] == tail;
  }

  lemma JoinedFirst(piece: Bytes, pieces: seq<Bytes>, e: Bytes)
    ensures Joined([piece] + pieces, e) == (piece + e) + Joined(pieces, e)
  {
    assert ([piece] + pieces)[1..] == pieces;
  }

  lemma JoinedOne(piece: Bytes, e: Bytes)
    ensures Joined([piece], e) == piece + e
  {
  }

  lemma {:induction false} JoinedMore(a: seq<Bytes>, b: seq<Bytes>, e: Bytes)
    ensures Joined(a + b, e) == Joined(a, e) + Joined(b, e)
  {
    if a == [] {
      assert a + b == b;
    } else {
      assert (a + b)[1..] == a[1..] + b;
      JoinedMore(a[1..], b, e);
    }
  }

  /** And there is no other way to write a stream as whole pieces and a rest without e. */
  lemma {:induction false} PiecesUnique(pieces: seq<Bytes>, rest: Bytes, e: Bytes)
    requires e != [] && Find(rest, e, 0) == None
    requires forall k :: 0 <= k < |pieces| ==> Whole(pieces[k], e)
    ensures Pieces(Joined(pieces, e) + rest, e) == pieces && Rest(Joined(pieces, e) + rest, e) == rest
  {
    if pieces == [] {
      assert Joined(pieces, e) + rest == rest;
    } else {
      var a, b := pieces[0] + e, Joined(pieces[1..], e) + rest;
      assert Joined(pieces, e) + rest == a + b;
      CutFirst(a, b, e, |pieces[0]|);
      assert a[|pieces[0]| + |e|..] + b == b && a[..|pieces[0]|] == pieces[0];
      PiecesUnique(pieces[1..], rest, e);
    }
  }

  lemma WholeHoldsNoEol(piece: Bytes, e: Bytes)
    requires e != [] && Whole(piece, e)
    ensures Find(piece, e, 0) == None
  {
    forall k | 0 <= k <= |piece| - |e| ensures !OccursAt(piece, e, k) {
      OccursInPrefix(piece, e, e, k);
    }
  }

  // ---- The reader ----

  /** The records returned are the leading pieces of the bytes received, and the buffer is what is left. */
  ghost predicate Framed(e: Bytes, arrived: Bytes, returned: seq<Bytes>, buffer: Bytes)
    requires e != []
  {
    && Joined(returned, e) + buffer == arrived
    && Pieces(arrived, e) == returned + Pieces(buffer, e)
    && Rest(arrived, e) == Rest(buffer, e)
  }

  lemma ChunkKeepsFrames(e: Bytes, arrived: Bytes, returned: seq<Bytes>, buffer: Bytes, chunk: Bytes)
    requires e != [] && Framed(e, arrived, returned, buffer)
    ensures Framed(e, arrived + chunk, returned, buffer + chunk)
  {
    hide Pieces, Rest, Joined;
    PiecesExtend(arrived, chunk, e);
    PiecesExtend(buffer, chunk, e);
    Assoc(Joined(returned, e), buffer, chunk);
    Assoc(returned, Pieces(buffer, e), Pieces(Rest(buffer, e) + chunk, e));
  }

  lemma CutKeepsFrames(e: Bytes, arrived: Bytes, returned: seq<Bytes>, buffer: Bytes, i: nat)
    requires e != [] && Framed(e, arrived, returned, buffer) && FirstAt(buffer, e, i)
    ensures Framed(e, arrived, returned + [buffer[..i]], buffer[i + |e|..])
    ensures Whole(buffer[..i], e)
  {
    var piece, tail := buffer[..i], buffer[i + |e|..];
    hide Pieces, Rest, Joined, FirstAt, Whole;
    FirstPiece(buffer, e, i);
    JoinedMore(returned, [piece], e);
    JoinedOne(piece, e);
    Assoc(Joined(returned, e), piece + e, tail);
    Assoc(returned, [piece], Pieces(tail, e));
  }

  /** Blocked: nothing is left to receive, and the call waits with what it has gathered. */
  datatype Outcome = Received(record: Bytes) | Disconnected | Blocked

  function Concat(chunks: seq<Bytes>, n: nat): Bytes
    requires n <= |chunks|
  {
    if n == 0 then [] else Concat(chunks, n - 1) + chunks[n - 1]
  }

  class TCPReader {
    const eol: Bytes
    var recordBuffer: Bytes
    ghost var arrived: Bytes        // every byte received so far
    ghost var returned: seq<Bytes>  // every record returned so far

    ghost predicate Valid()
      reads this
    {
      eol != [] && Framed(eol, arrived, returned, recordBuffer)
    }

    constructor (eol: Bytes)
      requires eol != []
      ensures Valid() && this.eol == eol && arrived == [] && returned == []
    {
      this.eol := eol;
      recordBuffer, arrived, returned := [], [], [];
    }

    /** _read_to_eol, where incoming is what recv would give, call after call, and used tells how many of
        the chunks it took. Between them the calls return the pieces of all the bytes received, in order
        and however these were divided; one waits or finds itself disconnected only when none is left. */
    method ReadToEol(incoming: seq<Bytes>) returns (outcome: Outcome, used: nat)
      requires Valid()
      modifies this
      ensures Valid()
      ensures used <= |incoming| && arrived == old(arrived) + Concat(incoming, used)
      ensures match outcome
              case Received(record) =>
                && returned == old(returned) + [record] && |Pieces(arrived, eol)| >= |returned|
                && Pieces(arrived, eol)[..|returned|] == returned && Whole(record, eol)
                && (used > 0 ==> Pieces(old(arrived) + Concat(incoming, used - 1), eol) == old(returned))
              case Disconnected =>
                returned == old(returned) == Pieces(arrived, eol) && used > 0 && incoming[used - 1] == []
              case Blocked =>
                returned == old(returned) == Pieces(arrived, eol) && used == |incoming|
    {
      hide Framed, Pieces, Rest, Joined, Whole;
      used := 0;
      while Find(recordBuffer, eol, 0).None?
        invariant Valid() && used <= |incoming|
        invariant arrived == old(arrived) + Concat(incoming, used) && returned == old(returned)
        invariant used > 0 ==> Pieces(old(arrived) + Concat(incoming, used - 1), eol) == returned
        decreases |incoming| - used
      {
        NoneLeft(eol, arrived, returned, recordBuffer);
        if used == |incoming| { return Blocked, used; }
        var chunk := incoming[used];
        used := used + 1;
        ChunkKeepsFrames(eol, arrived, returned, recordBuffer, chunk);
        if chunk == [] {
          assert arrived + chunk == arrived;
          return Disconnected, used;
        }
        recordBuffer := recordBuffer + chunk;
        arrived := arrived + chunk;
      }
      var i := Find(recordBuffer, eol, 0).value;
      CutKeepsFrames(eol, arrived, returned, recordBuffer, i);
      outcome := Received(recordBuffer[..i]);
      returned := returned + [recordBuffer[..i]];
      recordBuffer := recordBuffer[i + |eol|..];
      ReturnedLead(eol, arrived, returned, recordBuffer);
    }
  }

  lemma NoneLeft(e: Bytes, arrived: Bytes, returned: seq<Bytes>, buffer: Bytes)
    requires e != [] && Framed(e, arrived, returned, buffer) && Find(buffer, e, 0).None?
    ensures Pieces(arrived, e) == returned && Rest(arrived, e) == buffer
  {
  }

  lemma ReturnedLead(e: Bytes, arrived: Bytes, returned: seq<Bytes>, buffer: Bytes)
    requires e != [] && Framed(e, arrived, returned, buffer)
    ensures |Pieces(arrived, e)| >= |returned| && Pieces(arrived, e)[..|returned|] == returned
  {
  }
}
