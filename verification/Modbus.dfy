/**
 The binary records of the two Modbus readers: coils are packed eight to a byte, the first in the lowest
 bit, and registers are two bytes each, the high one first (sections 4.2, 6.1 and 6.3 of the MODBUS
 Application Protocol Specification V1.1b3). Reading from devices, and text records, are not modelled.
 */
module Modbus {
  import opened Common
  import opened Bits

  /** What a device returned for one coil or register. */
  datatype Value = Missing | Flag(b: bool) | Number(n: int)

  type Bytes = seq<nat>

  /** bool(v) */
  predicate Truthy(v: Value) { (v.Flag? && v.b) || (v.Number? && v.n != 0) }

  /** int(v or 0) */
  function AsInt(v: Value): int {
    match v
    case Missing => 0
    case Flag(b) => if b then 1 else 0
    case Number(n) => n
  }

  /** The values of all blocks; a block that is missing or empty is skipped. */
  function Flatten(readings: seq<Option<seq<Value>>>): seq<Value> {
    if readings == [] then []
    else (if readings[0].Some? then readings[0].value else []) + Flatten(readings[1..])
  }

  /** The blocks keep their order, and within each its values do. */
  lemma {:induction false} FlattenJoins(a: seq<Option<seq<Value>>>, b: seq<Option<seq<Value>>>)
    ensures Flatten(a + b) == Flatten(a) + Flatten(b)
  {
    if a == [] {
      assert a + b == b;
    } else {
      assert (a + b)[1..] == a[1..] + b;
      FlattenJoins(a[1..], b);
    }
  }

  /** What block k holds follows what those before it hold. */
  lemma FlattenBlock(readings: seq<Option<seq<Value>>>, k: nat)
    requires k < |readings|
    ensures var (start, block) := (|Flatten(readings[..k])|, if readings[k].Some? then readings[k].value else []);
            && start + |block| + |Flatten(readings[k + 1..])| == |Flatten(readings)|
            && forall i :: 0 <= i < |block| ==> Flatten(readings)[start + i] == block[i]
  {
    var block := if readings[k].Some? then readings[k].value else [];
    FlattenJoins(readings[..k], readings[k..]);
    assert readings[..k] + readings[k..] == readings && readings[k..][1..] == readings[k + 1..];
    assert Flatten(readings) == Flatten(readings[..k]) + (block + Flatten(readings[k + 1..]));
  }

  // ---- Coils ----

  /** Bit i % 8 of byte i / 8 is coil i, and what is left of the last byte is zero. */
  predicate IsPacked(bytes: Bytes, values: seq<Value>) {
    |bytes| == (|values| + 7) / 8 && forall j :: 0 <= j < |bytes| ==> Holds(bytes[j], values, 8 * j)
  }

  /** A byte with the coils from start on, as far as there are any. */
  predicate Holds(byte: nat, values: seq<Value>, start: nat) {
    byte < 256 && forall k :: 0 <= k < 8 ==> (Bit(byte, k) <==> start + k < |values| && Truthy(values[start + k]))
  }

  /** Reading coils back, as the protocol does. */
  function Unpack(bytes: Bytes, n: nat): seq<bool>
    requires n <= 8 * |bytes|
  {
    seq(n, i requires 0 <= i < n => Bit(bytes[i / 8], i % 8))
  }

  /** Unpacking undoes packing. */
  lemma UnpackPacked(bytes: Bytes, values: seq<Value>)
    requires IsPacked(bytes, values)
    ensures |Unpack(bytes, |values|)| == |values|
    ensures forall i :: 0 <= i < |values| ==> (Unpack(bytes, |values|)[i] <==> Truthy(values[i]))
  {
    forall i | 0 <= i < |values| ensures Unpack(bytes, |values|)[i] <==> Truthy(values[i]) {
      assert Holds(bytes[i / 8], values, 8 * (i / 8));
      assert Bit(bytes[i / 8], i % 8) <==> Truthy(values[8 * (i / 8) + i % 8]);
    }
  }

  /** What a coil that was read as a number or a flag, or not at all, is packed as. */
  lemma CoilsMean(bytes: Bytes, values: seq<Value>, i: nat)
    requires IsPacked(bytes, values) && i < |values|
    ensures i / 8 < |bytes|
    ensures Bit(bytes[i / 8], i % 8) <==> values[i] == Flag(true) || (values[i].Number? && values[i].n != 0)
  {
    UnpackPacked(bytes, values);
    assert Unpack(bytes, |values|)[i] <==> Truthy(values[i]);
  }

  /** There is one way to pack. */
  lemma PackedUnique(a: Bytes, b: Bytes, values: seq<Value>)
    requires IsPacked(a, values) && IsPacked(b, values)
    ensures a == b
  {
    forall j | 0 <= j < |a| ensures a[j] == b[j] {
      assert Holds(a[j], values, 8 * j) && Holds(b[j], values, 8 * j);
      assert Shift(1, 8) == 256;
      SameBits(a[j], b[j], 8);
    }
  }

  /** The byte under construction: its first n bits are the coils from start on. */
  predicate PartByte(current: nat, values: seq<Value>, start: nat, n: nat)
    requires start + n <= |values|
  {
    current < 256 && forall k :: 0 <= k < 8 ==> (Bit(current, k) <==> k < n && Truthy(values[start + k]))
  }

  /** current |= bit << n */
  lemma AddBit(current: nat, values: seq<Value>, start: nat, n: nat)
    requires n < 8 && start + n < |values| && PartByte(current, values, start, n)
    ensures PartByte(BitOr(current, Shift(if Truthy(values[start + n]) then 1 else 0, n)), values, start, n + 1)
  {
    var v := if Truthy(values[start + n]) then 1 else 0;
    ShiftBound(v, n, 8);
    assert Shift(1, 8) == 256;
    BitOrBound(current, Shift(v, n), 8);
    forall k | 0 <= k < 8
      ensures Bit(BitOr(current, Shift(v, n)), k) <==> k < n + 1 && Truthy(values[start + k])
    {
      BitOrBits(current, Shift(v, n), k);
      ShiftBits(v, n, k);
    }
  }

  /** The bytes finished so far. */
  predicate Whole(bytes: Bytes, values: seq<Value>) {
    && 8 * |bytes| <= |values|
    && forall j :: 0 <= j < |bytes| ==> PartByte(bytes[j], values, 8 * j, 8)
  }

  lemma NoBitsYet(values: seq<Value>, start: nat)
    requires start <= |values|
    ensures PartByte(0, values, start, 0)
  {
    forall k | 0 <= k < 8 ensures !Bit(0, k) { NoBits(0, k); }
  }

  /** The end of both loops: the byte under construction is kept if it has any coils. */
  lemma Finished(bytes: Bytes, values: seq<Value>, current: nat, n: nat)
    requires Whole(bytes, values) && 8 * |bytes| + n == |values| && n < 8
    requires PartByte(current, values, 8 * |bytes|, n)
    ensures IsPacked(if n > 0 then bytes + [current] else bytes, values)
  {
    forall j | 0 <= j < |bytes| ensures Holds(bytes[j], values, 8 * j) {
      assert PartByte(bytes[j], values, 8 * j, 8);
    }
  }

  /** The loop of ModBusSerialReader, which counts bits. */
  method PackCounting(values: seq<Value>) returns (bytes: Bytes)
    ensures IsPacked(bytes, values)
  {
    hide PartByte;
    bytes := [];
    var current, bitIndex := 0, 0;
    NoBitsYet(values, 0);
    for i := 0 to |values|
      invariant Whole(bytes, values) && 8 * |bytes| + bitIndex == i && bitIndex < 8
      invariant PartByte(current, values, 8 * |bytes|, bitIndex)
    {
      var bitVal := if Truthy(values[i]) then 1 else 0;
      AddBit(current, values, 8 * |bytes|, bitIndex);
      current := BitOr(current, Shift(bitVal, bitIndex));
      bitIndex := bitIndex + 1;
      if bitIndex == 8 {
        bytes := bytes + [current];
        current, bitIndex := 0, 0;
        NoBitsYet(values, 8 * |bytes|);
      }
    }
    Finished(bytes, values, current, bitIndex);
    if bitIndex != 0 {
      bytes := bytes + [current];
    }
  }

  /** The loop of ModBusTCPReader, which goes by the index. */
  method PackByIndex(values: seq<Value>) returns (bytes: Bytes)
    ensures IsPacked(bytes, values)
  {
    hide PartByte;
    bytes := [];
    var current := 0;
    NoBitsYet(values, 0);
    for i := 0 to |values|
      invariant Whole(bytes, values) && 8 * |bytes| + i % 8 == i
      invariant PartByte(current, values, 8 * |bytes|, i % 8)
    {
      AddBit(current, values, 8 * |bytes|, i % 8);
      current := BitOr(current, Shift(if Truthy(values[i]) then 1 else 0, i % 8));
      if i % 8 == 7 {
        bytes := bytes + [current];
        current := 0;
        NoBitsYet(values, 8 * |bytes|);
      }
    }
    Finished(bytes, values, current, |values| % 8);
    if |values| % 8 != 0 {
      bytes := bytes + [current];
    }
  }

  // ---- Registers ----

  predicate Fits(v: Value) { 0 <= AsInt(v) <= 65535 }

  /** Two bytes for each value, the high one first. */
  predicate IsBigEndian(bytes: Bytes, values: seq<Value>) {
    |bytes| == 2 * |values| && forall i :: 0 <= i < |values| ==> Encodes(bytes[2 * i], bytes[2 * i + 1], values[i])
  }

  predicate Encodes(high: nat, low: nat, v: Value) { high < 256 && low < 256 && 256 * high + low == AsInt(v) }

  /** Reading a register back gives the number read, 1 or 0 for a flag, and 0 for a value that is missing. */
  lemma RegistersMean(bytes: Bytes, values: seq<Value>, i: nat)
    requires IsBigEndian(bytes, values) && i < |values|
    ensures |bytes| == 2 * |values|
    ensures 256 * bytes[2 * i] + bytes[2 * i + 1] ==
            (match values[i] case Number(n) => n case Flag(true) => 1 case Flag(false) => 0 case Missing => 0)
  {
    assert Encodes(bytes[2 * i], bytes[2 * i + 1], values[i]);
  }

  /** There is at most one, and none if a value does not fit. */
  lemma BigEndianUnique(a: Bytes, b: Bytes, values: seq<Value>)
    requires IsBigEndian(a, values)
    ensures forall i :: 0 <= i < |values| ==> Fits(values[i])
    ensures IsBigEndian(b, values) ==> a == b
  {
    forall i | 0 <= i < |values|
      ensures Fits(values[i])
      ensures IsBigEndian(b, values) ==> a[2 * i] == b[2 * i] && a[2 * i + 1] == b[2 * i + 1]
    {
      assert Encodes(a[2 * i], a[2 * i + 1], values[i]);
    }
    if IsBigEndian(b, values) {
      forall j | 0 <= j < |a| ensures a[j] == b[j] {
        var i := j / 2;
        assert Encodes(b[2 * i], b[2 * i + 1], values[i]) && Encodes(a[2 * i], a[2 * i + 1], values[i]);
      }
    }
  }

  /** The generator both readers join: int(val or 0).to_bytes(2, 'big') for each value. */
  method PackRegisters(values: seq<Value>) returns (r: Result<Bytes>)
    ensures r.Ok? ==> IsBigEndian(r.value, values)
    ensures r.Raised? ==> r.error == OverflowError && exists i :: 0 <= i < |values| && !Fits(values[i])
  {
    var bytes: Bytes := [];
    for i := 0 to |values|
      invariant |bytes| == 2 * i
      invariant forall k :: 0 <= k < i ==> Encodes(bytes[2 * k], bytes[2 * k + 1], values[k])
    {
      var n := AsInt(values[i]);
      if n < 0 || n > 65535 {
        assert !Fits(values[i]);
        return Raised(OverflowError);
      }
      bytes := bytes + [n / 256, n % 256];
    }
    r := Ok(bytes);
  }

  // ---- The two readers ----

  datatype Function = HoldingRegisters | InputRegisters | Coils | DiscreteInputs

  predicate IsBit(v: Value) { v.Missing? || v.Flag? || v.n == 0 || v.n == 1 }

  predicate AllBits(values: seq<Value>) { forall i :: 0 <= i < |values| ==> IsBit(values[i]) }

  /** A record of coils, or of registers; one that cannot be made raises. */
  ghost predicate IsRecord(r: Result<Bytes>, values: seq<Value>, coils: bool) {
    if coils then r.Ok? && IsPacked(r.value, values)
    else if forall i :: 0 <= i < |values| ==> Fits(values[i]) then r.Ok? && IsBigEndian(r.value, values)
    else r == Raised(OverflowError)
  }

  lemma EmptyRecord(values: seq<Value>)
    ensures values == [] ==> IsRecord(Ok([]), values, true) && IsRecord(Ok([]), values, false)
  {
  }

  lemma RegistersRecord(r: Result<Bytes>, values: seq<Value>)
    requires r.Ok? ==> IsBigEndian(r.value, values)
    requires r.Raised? ==> r.error == OverflowError && exists i :: 0 <= i < |values| && !Fits(values[i])
    ensures IsRecord(r, values, false)
  {
    if r.Ok? { BigEndianUnique(r.value, r.value, values); }
  }

  /** ModBusSerialReader._format_record without an encoding: the function read decides. */
  method FormatSerial(readings: seq<Option<seq<Value>>>, kind: Function) returns (r: Result<Bytes>)
    ensures IsRecord(r, Flatten(readings), kind.Coils? || kind.DiscreteInputs?)
  {
    hide IsPacked, IsBigEndian, Fits, AllBits;
    var values := Flatten(readings);
    EmptyRecord(values);
    if values == [] { return Ok([]); }
    if kind.Coils? || kind.DiscreteInputs? {
      var bytes := PackCounting(values);
      return Ok(bytes);
    }
    r := PackRegisters(values);
    RegistersRecord(r, values);
  }

  /** ModBusTCPReader._format_record without an encoding: the values decide. */
  method FormatTcp(readings: seq<Option<seq<Value>>>) returns (r: Result<Bytes>)
    ensures IsRecord(r, Flatten(readings), AllBits(Flatten(readings)))
  {
    hide IsPacked, IsBigEndian, Fits, AllBits;
    var values := Flatten(readings);
    EmptyRecord(values);
    if values == [] { return Ok([]); }
    if AllBits(values) {
      var bytes := PackByIndex(values);
      return Ok(bytes);
    }
    r := PackRegisters(values);
    RegistersRecord(r, values);
  }

  /** The two readers make the same record of the same readings exactly when there is nothing to record, or
      bits were read as coils and other values as registers: the second one records registers that all
      happen to hold 0 or 1 as if they were coils. */
  lemma ReadersAgree(a: Result<Bytes>, b: Result<Bytes>, values: seq<Value>, coils: bool)
    requires IsRecord(a, values, coils) && IsRecord(b, values, AllBits(values))
    ensures a == b <==> values == [] || coils == AllBits(values)
  {
    if values == [] || coils == AllBits(values) {
      if a.Ok? && b.Ok? {
        if coils && AllBits(values) { PackedUnique(a.value, b.value, values); }
        if !coils && !AllBits(values) { BigEndianUnique(a.value, b.value, values); }
      }
    }
  }
}
