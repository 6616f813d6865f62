/**
 NMEA 0183 checksums: sentences are built as $body*checksum, with the exclusive or of the body's
 characters as two or more hexadecimal digits, and a transform accepts a record whose checksum is the
 one computed from its body. Characters are Unicode code points.
 */
module Nmea {
  import opened Common
  import opened Bits

  /** A character, by its code point. */
  type Code = nat

  type Text = seq<Code>

  const DOLLAR: Code := 36
  const STAR: Code := 42
  const COMMA: Code := 44

  // ---- Exclusive or ----

  /** reduce(xor, s) */
  function Xor(s: Text): nat {
    if s == [] then 0 else BitXor(s[0], Xor(s[1..]))
  }

  /** How many characters have bit k set. */
  function Ones(s: Text, k: nat): nat {
    if s == [] then 0 else (if Bit(s[0], k) then 1 else 0) + Ones(s[1..], k)
  }

  /** Bit k is set exactly when that is odd. */
  lemma {:induction false} XorIsParity(s: Text, k: nat)
    ensures Bit(Xor(s), k) <==> Ones(s, k) % 2 == 1
  {
    if s == [] {
      NoBits(0, k);
    } else {
      XorIsParity(s[1..], k);
      BitXorBits(s[0], Xor(s[1..]), k);
    }
  }

  /** Replacing one character by another changes the exclusive or. */
  lemma {:induction false} XorUpdate(s: Text, i: nat, c: Code)
    requires i < |s| && s[i] != c
    ensures Xor(s[i := c]) != Xor(s)
  {
    if i == 0 {
      assert s[0 := c][1..] == s[1..];
      if Xor(s[0 := c]) == Xor(s) {
        BitXorCommutes(c, Xor(s[1..]));
        BitXorCommutes(s[0], Xor(s[1..]));
        BitXorCancels(Xor(s[1..]), c, s[0]);
      }
    } else {
      assert s[i := c][1..] == s[1..][i - 1 := c];
      XorUpdate(s[1..], i - 1, c);
      if Xor(s[i := c]) == Xor(s) { BitXorCancels(s[0], Xor(s[1..][i - 1 := c]), Xor(s[1..])); }
    }
  }

  lemma {:induction false} XorRemove(s: Text, i: nat)
    requires i < |s|
    ensures Xor(s) == BitXor(s[i], Xor(s[..i] + s[i + 1..]))
  {
    hide BitXor;
    if i == 0 {
      assert s[..0] + s[1..] == s[1..];
    } else {
      XorRemove(s[1..], i - 1);
      var rest := s[1..][..i - 1] + s[1..][i..];
      assert s[..i] + s[i + 1..] == [s[0]] + rest;
      assert ([s[0]] + rest)[1..] == rest;
      BitXorAssociates(s[0], s[i], Xor(rest));
      BitXorCommutes(s[0], s[i]);
      BitXorAssociates(s[i], s[0], Xor(rest));
    }
  }

  lemma WithoutOne(s: Text, i: nat)
    requires i < |s|
    ensures multiset(s[..i] + s[i + 1..]) == multiset(s) - multiset{s[i]}
  {
    assert s == s[..i] + [s[i]] + s[i + 1..];
  }

  /** The order of the characters does not matter. */
  lemma {:induction false} XorIgnoresOrder(a: Text, b: Text)
    requires multiset(a) == multiset(b)
    ensures Xor(a) == Xor(b)
  {
    hide BitXor;
    if a == [] {
      assert |multiset(b)| == 0;
    } else {
      assert a[0] in multiset(b);
      var i :| 0 <= i < |b| && b[i] == a[0];
      hide Xor;
      var rest := b[..i] + b[i + 1..];
      RestAlike(a, b, i);
      XorIgnoresOrder(a[1..], rest);
      XorRemove(a, 0);
      XorRemove(b, i);
      assert a[..0] + a[1..] == a[1..];
    }
  }

  lemma RestAlike(a: Text, b: Text, i: nat)
    requires a != [] && i < |b| && b[i] == a[0] && multiset(a) == multiset(b)
    ensures multiset(a[1..]) == multiset(b[..i] + b[i + 1..])
  {
    WithoutOne(a, 0);
    WithoutOne(b, i);
    assert a[..0] + a[1..] == a[1..];
  }

  // ---- '%02X' ----

  function Digit(d: nat): Code
    requires d < 16
  {
    if d < 10 then 48 + d else 55 + d
  }

  function DigitValue(c: Code): int { if c < 58 then c - 48 else c - 55 }

  function Hex(v: nat): (h: Text)
    ensures |h| >= 2
  {
    if v < 256 then [Digit(v / 16), Digit(v % 16)] else Hex(v / 16) + [Digit(v % 16)]
  }

  /** int(h, 16) */
  function ParseHex(h: Text): int {
    if h == [] then 0 else 16 * ParseHex(h[..|h| - 1]) + DigitValue(h[|h| - 1])
  }

  lemma ParseMore(h: Text, c: Code)
    ensures ParseHex(h + [c]) == 16 * ParseHex(h) + DigitValue(c)
  {
    assert (h + [c])[..|h|] == h;
  }

  /** Reading back what was printed. */
  lemma {:induction false} HexParses(v: nat)
    ensures ParseHex(Hex(v)) == v
    ensures STAR !in Hex(v)
  {
    var high, low := v / 16, v % 16;
    if v < 256 {
      ParseMore([], Digit(high));
      ParseMore([Digit(high)], Digit(low));
      assert [] + [Digit(high)] == [Digit(high)];
      assert Hex(v) == [Digit(high)] + [Digit(low)];
    } else {
      HexParses(high);
      ParseMore(Hex(high), Digit(low));
    }
  }

  /** The digits are those of upper-case hexadecimal, at least two, and without a leading zero if there are more.
      That leaves one way to print a value. */
  lemma {:induction false} HexDigits(v: nat)
    ensures forall k :: 0 <= k < |Hex(v)| ==> 48 <= Hex(v)[k] <= 57 || 65 <= Hex(v)[k] <= 70
    ensures |Hex(v)| > 2 ==> Hex(v)[0] != 48
    ensures v >= 16 ==> Hex(v)[0] != 48
  {
    if v >= 256 { HexDigits(v / 16); }
  }

  /** Different values print differently. */
  lemma HexInjective(v: nat, w: nat)
    requires Hex(v) == Hex(w)
    ensures v == w
  {
    HexParses(v);
    HexParses(w);
  }

  // ---- Building and verifying sentences ----

  /** checksum and compute_checksum: reduce raises when there is nothing to reduce. */
  function Checksum(s: Text): Result<Text> {
    if s == [] then Raised(TypeError) else Ok(Hex(Xor(s)))
  }

  /** '$%s*%s' with a body and its checksum */
  function Sentence(body: Text): Result<Text> {
    var c := Checksum(body);
    if c.Raised? then c else Ok(Framed(body, c.value))
  }

  function Framed(body: Text, checksum: Text): Text { [DOLLAR] + body + [STAR] + checksum }

  /** str.find; the length of the text stands for -1. */
  function Find(s: Text, c: Code): (k: nat)
    ensures k <= |s|
    ensures k < |s| ==> s[k] == c
    ensures forall j :: 0 <= j < k ==> s[j] != c
  {
    if s == [] || s[0] == c then 0 else Find(s[1..], c) + 1
  }

  /** source[start:end] */
  function Slice(s: Text, start: nat, end: nat): Text
    requires start <= |s| && end <= |s|
  {
    if start <= end then s[start..end] else []
  }

  /** get_message_str */
  function MessageStr(record: Text): Option<Text> {
    var dollar, star := Find(record, DOLLAR), Find(record, STAR);
    if dollar == |record| || star == |record| then None else Some(Slice(record, dollar + 1, star))
  }

  /** get_checksum_value */
  function ChecksumValue(record: Text): Option<Text> {
    var star := Find(record, STAR);
    if star == |record| then None else Some(record[star + 1..])
  }

  datatype Verdict = Accept | Reject | Raise(error: Error)

  /** NMEAChecksumTransform.transform on a string: the record is passed on, or reported and dropped, or
      there is no message to compute a checksum of and the computation raises. */
  function Verify(record: Text, checksumOptional: bool): Verdict {
    match ChecksumValue(record)
    case None => if checksumOptional then Accept else Reject
    case Some(value) =>
      match MessageStr(record)
      case None => Raise(TypeError)
      case Some(message) =>
        var computed := Checksum(message);
        if computed.Raised? then Raise(computed.error) else if computed.value == value then Accept else Reject
  }

  lemma FindIs(s: Text, c: Code, k: nat)
    requires k < |s| && s[k] == c && forall j :: 0 <= j < k ==> s[j] != c
    ensures Find(s, c) == k
  {
  }

  /** What the verifier makes of any frame, good or bad. */
  lemma FrameVerdict(body: Text, checksum: Text, optional: bool)
    ensures var k := Find(body, STAR);
            Verify(Framed(body, checksum), optional) ==
            if k == 0 then Raise(TypeError)
            else if k == |body| && checksum == Hex(Xor(body)) then Accept
            else if k < |body| && body[k + 1..] + [STAR] + checksum == Hex(Xor(body[..k])) then Accept
            else Reject
  {
    hide Framed, Hex, Xor, Find, MessageStr, ChecksumValue;
    FrameParts(body, checksum);
    var k := Find(body, STAR);
    assert k == |body| ==> body[..k] == body;
  }

  lemma FrameParts(body: Text, checksum: Text)
    ensures var k := Find(body, STAR);
            && MessageStr(Framed(body, checksum)) == Some(body[..k])
            && ChecksumValue(Framed(body, checksum)) ==
               Some(if k < |body| then body[k + 1..] + [STAR] + checksum else checksum)
  {
    hide *;
    var record, k := Framed(body, checksum), Find(body, STAR);
    FindInFrame(body, checksum);
    FrameSlices(body, checksum, k);
    var message, value := record[0 + 1..1 + k], record[1 + k + 1..];
    PartsAt(record, 0, 1 + k, message, value);
  }

  lemma PartsAt(record: Text, dollar: nat, star: nat, message: Text, value: Text)
    requires Find(record, DOLLAR) == dollar && Find(record, STAR) == star && dollar < star < |record|
    requires message == record[dollar + 1..star] && value == record[star + 1..]
    ensures MessageStr(record) == Some(message) && ChecksumValue(record) == Some(value)
  {
    hide Find;
  }

  lemma FrameSlices(body: Text, checksum: Text, k: nat)
    requires k <= |body|
    ensures var record := Framed(body, checksum);
            && |record| == |body| + |checksum| + 2
            && record[0 + 1..1 + k] == body[..k]
            && record[1 + k + 1..] == if k < |body| then body[k + 1..] + [STAR] + checksum else checksum
  {
    var record := Framed(body, checksum);
    if k < |body| {
      assert record[2 + k..] == body[k + 1..] + [STAR] + checksum;
    } else {
      assert record[2 + k..] == checksum;
    }
  }

  lemma FindInFrame(body: Text, checksum: Text)
    ensures Find(Framed(body, checksum), DOLLAR) == 0
    ensures Find(Framed(body, checksum), STAR) == 1 + Find(body, STAR) < |Framed(body, checksum)|
  {
    var record, k := Framed(body, checksum), Find(body, STAR);
    FindIs(record, DOLLAR, 0);
    FindIs(record, STAR, 1 + k);
  }

  lemma PrefixedSlice(prefix: Text, frame: Text, i: nat, j: nat)
    requires i <= j <= |frame|
    ensures (prefix + frame)[|prefix| + i..|prefix| + j] == frame[i..j]
    ensures (prefix + frame)[|prefix| + i..] == frame[i..]
  {
  }

  lemma PrefixedFind(prefix: Text, frame: Text, c: Code)
    requires c !in prefix && Find(frame, c) < |frame|
    ensures Find(prefix + frame, c) == |prefix| + Find(frame, c)
  {
    FindIs(prefix + frame, c, |prefix| + Find(frame, c));
  }

  lemma SameParts(record: Text, frame: Text, n: nat, star: nat)
    requires Find(frame, DOLLAR) == 0 && Find(frame, STAR) == star && 0 < star < |frame|
    requires Find(record, DOLLAR) == n && Find(record, STAR) == n + star && n + star < |record|
    requires record[n + 1..n + star] == frame[1..star] && record[n + star + 1..] == frame[star + 1..]
    ensures MessageStr(record) == MessageStr(frame) && ChecksumValue(record) == ChecksumValue(frame)
  {
    hide Find;
  }

  lemma SameVerdict(record: Text, frame: Text, optional: bool)
    requires MessageStr(record) == MessageStr(frame) && ChecksumValue(record) == ChecksumValue(frame)
    ensures Verify(record, optional) == Verify(frame, optional)
  {
    hide MessageStr, ChecksumValue, Checksum;
  }

  /** Text before a frame does not matter. */
  lemma PrefixedVerdict(prefix: Text, body: Text, checksum: Text, optional: bool)
    requires DOLLAR !in prefix && STAR !in prefix
    ensures Verify(prefix + Framed(body, checksum), optional) == Verify(Framed(body, checksum), optional)
  {
    hide *;
    var (frame, star) := (Framed(body, checksum), 1 + Find(body, STAR));
    var record := prefix + frame;
    FindInFrame(body, checksum);
    PrefixedFind(prefix, frame, DOLLAR);
    PrefixedFind(prefix, frame, STAR);
    PrefixedSlice(prefix, frame, 1, star);
    PrefixedSlice(prefix, frame, star + 1, |frame|);
    SameParts(record, frame, |prefix|, star);
    SameVerdict(record, frame, optional);
  }

  /** And without a star, or without a dollar sign before it, there is no frame. */
  lemma NoFrameVerdict(record: Text, optional: bool)
    requires STAR !in record || forall j :: 0 <= j < Find(record, STAR) ==> record[j] != DOLLAR
    ensures Verify(record, optional) ==
            if STAR in record then Raise(TypeError) else if optional then Accept else Reject
  {
    assert STAR in record <==> Find(record, STAR) < |record|;
  }

  /** A frame is accepted exactly when it is the sentence built from its body, and the body is not empty
      and has no star. */
  lemma AcceptedIffBuilt(body: Text, checksum: Text, optional: bool)
    ensures Verify(Framed(body, checksum), optional) == Accept <==>
            body != [] && STAR !in body && Ok(Framed(body, checksum)) == Sentence(body)
  {
    FrameVerdict(body, checksum, optional);
    var k := Find(body, STAR);
    if k < |body| {
      assert body[k] == STAR;
      HexParses(Xor(body[..k]));
      assert (body[k + 1..] + [STAR] + checksum)[|body| - k - 1] == STAR;
    } else if body != [] && checksum != Hex(Xor(body)) {
      assert Framed(body, checksum)[|body| + 2..] == checksum;
      assert Framed(body, Hex(Xor(body)))[|body| + 2..] == Hex(Xor(body));
    }
  }

  /** A sentence whose body was changed on the way, into any other without a star, is accepted exactly when
      the exclusive or did not change. */
  lemma ChangedBody(body: Text, changed: Text, optional: bool)
    requires body != [] && STAR !in body
    ensures Verify(Framed(changed, Hex(Xor(body))), optional) == Accept <==>
            changed != [] && STAR !in changed && Xor(changed) == Xor(body)
  {
    AcceptedIffBuilt(changed, Hex(Xor(body)), optional);
    if changed != [] && Ok(Framed(changed, Hex(Xor(body)))) == Sentence(changed) {
      assert Framed(changed, Hex(Xor(body)))[|changed| + 2..] == Hex(Xor(body));
      assert Framed(changed, Hex(Xor(changed)))[|changed| + 2..] == Hex(Xor(changed));
      HexInjective(Xor(changed), Xor(body));
    }
  }

  /** So one character replaced by any other is always noticed, even if the other is a star. */
  lemma OneWrongCharacter(body: Text, i: nat, c: Code, optional: bool)
    requires STAR !in body && i < |body| && c != body[i]
    ensures Verify(Framed(body[i := c], Hex(Xor(body))), optional) != Accept
  {
    XorUpdate(body, i, c);
    ChangedBody(body, body[i := c], optional);
  }

  /** And characters in a wrong order never are. */
  lemma WrongOrder(body: Text, reordered: Text, optional: bool)
    requires body != [] && STAR !in body && multiset(reordered) == multiset(body)
    ensures Verify(Framed(reordered, Hex(Xor(body))), optional) == Accept
  {
    XorIgnoresOrder(reordered, body);
    assert |multiset(reordered)| == |multiset(body)|;
    assert STAR !in multiset(body);
    assert STAR !in multiset(reordered);
    ChangedBody(body, reordered, optional);
  }
}
