/**
 Building NMEA sentences from records: the sentences of MWDTransform, XDRTransform, DPTTransform and
 STNTransform are bodies of parts with commas between them, and MWDTransform remembers the wind it was
 told about. Printing a number as text is a parameter.
 */
module NmeaTransforms {
  import opened Common
  import opened Nmea

  /** The parts of a body with commas between them. */
  function Commas(parts: seq<Text>): Text {
    if parts == [] then [] else if |parts| == 1 then parts[0] else parts[0] + [COMMA] + Commas(parts[1..])
  }

  lemma {:induction false} StarsInParts(parts: seq<Text>)
    ensures STAR in Commas(parts) <==> exists k :: 0 <= k < |parts| && STAR in parts[k]
  {
    if |parts| > 1 {
      StarsInParts(parts[1..]);
      forall k | 0 <= k < |parts| && STAR in parts[k] ensures STAR in Commas(parts) {
        if k > 0 { assert parts[1..][k - 1] == parts[k]; }
      }
      if STAR in Commas(parts) && STAR !in parts[0] {
        assert STAR in Commas(parts[1..]);
        var k :| 0 <= k < |parts[1..]| && STAR in parts[1..][k];
        assert STAR in parts[k + 1];
      }
    } else if |parts| == 1 {
      assert STAR in parts[0] ==> exists k :: 0 <= k < |parts| && STAR in parts[k];
    }
  }

  /** Every sentence built from two or more parts is accepted by the verifier, exactly when no part has a
      star in it. */
  lemma BuiltIsAccepted(parts: seq<Text>, optional: bool)
    requires |parts| >= 2
    ensures Sentence(Commas(parts)).Ok?
    ensures Verify(Sentence(Commas(parts)).value, optional) == Accept <==>
            forall k :: 0 <= k < |parts| ==> STAR !in parts[k]
  {
    StarsInParts(parts);
    assert |Commas(parts)| >= |parts[0]| + 1;
    AcceptedIffBuilt(Commas(parts), Hex(Xor(Commas(parts))), optional);
    hide Verify, Hex, Xor, Commas;
  }

  /** body.split(',') */
  function Split(body: Text): (parts: seq<Text>)
    ensures parts != []
  {
    if body == [] then [[]]
    else
      var rest := Split(body[1..]);
      if body[0] == COMMA then [[]] + rest else [[body[0]] + rest[0]] + rest[1..]
  }

  lemma {:induction false} SplitFirst(part: Text, rest: Text)
    requires COMMA !in part
    ensures Split(part) == [part] && Split(part + [COMMA] + rest) == [part] + Split(rest)
  {
    var all := part + [COMMA] + rest;
    if part == [] {
      assert all[1..] == rest;
    } else {
      SplitFirst(part[1..], rest);
      assert all[1..] == part[1..] + [COMMA] + rest && part[0] != COMMA;
      assert [part[0]] + part[1..] == part;
    }
  }

  /** A sentence's parts can be read off its body. */
  lemma {:induction false} SplitJoined(parts: seq<Text>)
    requires parts != [] && forall k :: 0 <= k < |parts| ==> COMMA !in parts[k]
    ensures Split(Commas(parts)) == parts
  {
    if |parts| == 1 {
      SplitFirst(parts[0], []);
    } else {
      SplitJoined(parts[1..]);
      SplitFirst(parts[0], Commas(parts[1..]));
      assert [parts[0]] + parts[1..] == parts;
    }
  }

  const T: Text := [84]
  const M: Text := [77]
  const N: Text := [78]
  const EMPTY: Text := []

  // ---- MWDTransform ----

  datatype MwdConfig = MwdConfig(
    dirField: Option<string>, ktField: Option<string>, msField: Option<string>, variationField: Option<string>,
    talker: Text)

  /** What is remembered: true wind direction, speed in knots and in meters per second, and variation. */
  datatype Wind = Wind(dir: Option<real>, kt: Option<real>, ms: Option<real>, variation: Option<real>)

  predicate Truthy(field: Option<string>) { field.Some? && field.value != "" }

  /** fields.get(name, default) */
  function GetField(fields: map<string, Option<real>>, name: Option<string>, default: Option<real>): Option<real> {
    if name.Some? && name.value in fields then fields[name.value] else default
  }

  /** The wind once a record's fields have been looked at. */
  function Noted(cfg: MwdConfig, w: Wind, fields: map<string, Option<real>>): Wind {
    Wind(GetField(fields, cfg.dirField, w.dir),
         if Truthy(cfg.ktField) then GetField(fields, cfg.ktField, w.kt) else w.kt,
         if Truthy(cfg.msField) then GetField(fields, cfg.msField, w.ms) else w.ms,
         if Truthy(cfg.variationField) then GetField(fields, cfg.variationField, w.variation) else w.variation)
  }

  predicate Enough(w: Wind) { w.dir.Some? && (w.kt.Some? || w.ms.Some?) }

  /** Meters per second computed from knots, if only these are configured. */
  function Filled(cfg: MwdConfig, w: Wind): Wind {
    if cfg.msField.None? && Truthy(cfg.ktField) && w.kt.Some? then w.(ms := Some(w.kt.value * 0.514444)) else w
  }

  /** The wind after a record. */
  function Told(cfg: MwdConfig, w: Wind, fields: map<string, Option<real>>): Wind {
    if fields == map[] then w
    else if Enough(Noted(cfg, w, fields)) then Filled(cfg, Noted(cfg, w, fields))
    else Noted(cfg, w, fields)
  }

  function Heard(cfg: MwdConfig, history: seq<map<string, Option<real>>>): Wind {
    if history == [] then Wind(None, None, None, None)
    else Told(cfg, Heard(cfg, history[..|history| - 1]), history[|history| - 1])
  }

  /** The value of the field in the last record that has it, or none if no record does. */
  function LastSaid(history: seq<map<string, Option<real>>>, field: string): Option<real> {
    if history == [] then None
    else if field in history[|history| - 1] then history[|history| - 1][field]
    else LastSaid(history[..|history| - 1], field)
  }

  predicate Remembers(field: Option<string>, history: seq<map<string, Option<real>>>, value: Option<real>) {
    value == if Truthy(field) then LastSaid(history, field.value) else None
  }

  /** After any records what is known is what the last record that had the field said, and nothing of a field that
      is not configured but meters per second. */
  lemma {:induction false} HeardIsLastSaid(cfg: MwdConfig, history: seq<map<string, Option<real>>>)
    ensures var w := Heard(cfg, history);
            && (w.dir == if cfg.dirField.Some? then LastSaid(history, cfg.dirField.value) else None)
            && Remembers(cfg.ktField, history, w.kt)
            && Remembers(cfg.variationField, history, w.variation)
            && (cfg.msField.Some? ==> Remembers(cfg.msField, history, w.ms))
  {
    if history != [] { HeardIsLastSaid(cfg, history[..|history| - 1]); }
  }

  function MwdParts(cfg: MwdConfig, w: Wind, format: real -> Text): seq<Text>
    requires w.dir.Some? && w.kt.Some? && w.ms.Some?
  {
    var mag := if w.variation.Some? then format(w.dir.value - w.variation.value) else EMPTY;
    [cfg.talker, format(w.dir.value), T, mag, M, format(w.kt.value), N, format(w.ms.value), M]
  }

  /** A speed that is not configured is never known, unless it is computed. */
  predicate Consistent(cfg: MwdConfig, w: Wind) {
    && (!Truthy(cfg.ktField) ==> w.kt.None?)
    && (cfg.msField.Some? && !Truthy(cfg.msField) ==> w.ms.None?)
    && (cfg.msField.None? && !Truthy(cfg.ktField) ==> w.ms.None?)
  }

  class MWDTransform {
    const cfg: MwdConfig
    const format: real -> Text
    var wind: Wind

    ghost predicate Valid()
      reads this
    {
      Consistent(cfg, wind)
    }

    constructor (cfg: MwdConfig, format: real -> Text)
      ensures Valid() && this.cfg == cfg && this.format == format && wind == Wind(None, None, None, None)
    {
      this.cfg, this.format := cfg, format;
      wind := Wind(None, None, None, None);
    }

    /** transform: nothing while too little is known; a sentence when direction and both speeds are; an
        error when a speed is missing that it needs as a number. */
    method Transform(fields: map<string, Option<real>>) returns (r: Result<Option<Text>>)
      requires Valid()
      modifies this
      ensures Valid()
      ensures wind == Told(cfg, old(wind), fields)
      ensures var w := Noted(cfg, old(wind), fields);
              if fields == map[] then r == Ok(None) && wind == old(wind)
              else if !Enough(w) then r == Ok(None) && wind == w
              else
                var f := Filled(cfg, w);
                && wind == f
                && if f.kt.None? || f.ms.None? then r == Raised(TypeError)
                   else r.Ok? && r.value.Some? && Sentence(Commas(MwdParts(cfg, f, format))) == Ok(r.value.value)
    {
      hide Commas, Sentence;
      if fields == map[] { return Ok(None); }
      wind := Noted(cfg, wind, fields);
      if wind.dir.None? || (wind.kt.None? && wind.ms.None?) { return Ok(None); }
      if cfg.msField.None? && Truthy(cfg.ktField) && wind.kt.Some? {
        wind := wind.(ms := Some(wind.kt.value * 0.514444));
      }
      if cfg.ktField.None? && Truthy(cfg.msField) && wind.ms.Some? {
        // knots times a number, and knots are None
        return Raised(TypeError);
      }
      if wind.kt.None? || wind.ms.None? { return Raised(TypeError); }
      var body := Commas(MwdParts(cfg, wind, format));
      BuiltIsAccepted(MwdParts(cfg, wind, format), false);
      r := Ok(Some(Sentence(body).value));
    }
  }

  predicate StarFree(s: Text) { STAR !in s }

  /** Read off the sentence: true direction, magnetic direction if the variation is known, knots and meters per
      second, which is 0.514444 of the knots if it is not configured. */
  lemma MwdReads(cfg: MwdConfig, w: Wind, format: real -> Text)
    requires Consistent(cfg, w) && w.dir.Some? && w.kt.Some? && (cfg.msField.None? || w.ms.Some?)
    requires COMMA !in cfg.talker && forall x :: COMMA !in format(x)
    ensures Filled(cfg, w).kt.Some? && Filled(cfg, w).ms.Some? && Filled(cfg, w).dir.Some?
    ensures var magnetic := if w.variation.None? then EMPTY else format(w.dir.value - w.variation.value);
            var ms := if cfg.msField.None? then w.kt.value * 0.514444 else w.ms.value;
            Split(Commas(MwdParts(cfg, Filled(cfg, w), format))) ==
            [cfg.talker, format(w.dir.value), T, magnetic, M, format(w.kt.value), N, format(ms), M]
  {
    var parts := MwdParts(cfg, Filled(cfg, w), format);
    assert COMMA !in T && COMMA !in M && COMMA !in N && COMMA !in EMPTY;
    forall k | 0 <= k < |parts| ensures COMMA !in parts[k] {
      assert k == 0 || k == 1 || k == 2 || k == 3 || k == 4 || k == 5 || k == 6 || k == 7 || k == 8;
    }
    hide Split, Commas;
    SplitJoined(parts);
  }

  /** A sentence is emitted exactly when direction and knots are known, and meters per second too unless they
      are computed; so a transform that is given only meters per second never emits one. */
  lemma EmitsIff(cfg: MwdConfig, w: Wind)
    requires Consistent(cfg, w)
    ensures Enough(w) && Filled(cfg, w).kt.Some? && Filled(cfg, w).ms.Some? <==>
            w.dir.Some? && w.kt.Some? && (cfg.msField.None? || w.ms.Some?)
    ensures !Truthy(cfg.ktField) ==> Filled(cfg, w).kt.None?
  {
  }

  /** What a MWDTransform emits is accepted by the verifier, if numbers are printed without stars and there
      is none in the talker, and only then. */
  lemma MwdIsAccepted(cfg: MwdConfig, w: Wind, format: real -> Text, optional: bool)
    requires w.dir.Some? && w.kt.Some? && w.ms.Some?
    requires forall x :: StarFree(format(x))
    ensures Verify(Sentence(Commas(MwdParts(cfg, w, format))).value, optional) == Accept <==> STAR !in cfg.talker
  {
    var parts := MwdParts(cfg, w, format);
    MwdPartsStars(cfg, w, format);
    BuiltIsAccepted(parts, optional);
    hide MwdParts, Commas, Verify, Sentence;
    assert parts[0] == cfg.talker;
    if STAR !in cfg.talker {
      assert forall k :: 0 <= k < |parts| ==> STAR !in parts[k];
    }
  }

  lemma FormatsStarFree(format: real -> Text, x: real)
    requires forall y :: StarFree(format(y))
    ensures StarFree(format(x))
  {
  }

  lemma MwdPartsStars(cfg: MwdConfig, w: Wind, format: real -> Text)
    requires w.dir.Some? && w.kt.Some? && w.ms.Some?
    requires forall x :: StarFree(format(x))
    ensures var parts := MwdParts(cfg, w, format);
            |parts| == 9 && parts[0] == cfg.talker && forall k :: 1 <= k < 9 ==> STAR !in parts[k]
  {
    var parts := MwdParts(cfg, w, format);
    assert STAR !in T && STAR !in M && STAR !in N && STAR !in EMPTY;
    FormatsStarFree(format, w.dir.value);
    FormatsStarFree(format, w.kt.value);
    FormatsStarFree(format, w.ms.value);
    assert StarFree(parts[3]) by {
      if w.variation.Some? { assert StarFree(format(w.dir.value - w.variation.value)); }
    }
    forall k | 1 <= k < 9 ensures STAR !in parts[k] {
      assert k == 1 || k == 2 || k == 3 || k == 4 || k == 5 || k == 6 || k == 7 || k == 8;
    }
  }
}
