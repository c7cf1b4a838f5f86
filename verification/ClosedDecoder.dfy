/** What the closed decoder accepts: exactly the canonical encodings that nest to fewer than
    128 levels, each giving back the value it encodes. */
module ClosedDecoder {
  import opened Decimal
  import opened Order
  import opened Json
  import opened JsonReader
  import opened JsonRoundTrip
  import opened Canonical
  import opened Options

  function CanonicalJson(v: Json): Outcome<string> {
    if FloatFree(v) then Ok(Encode(v)) else FloatForbidden
  }

  method CanonicalJsonV1(v: Json) returns (r: Outcome<string>)
    ensures r == CanonicalJson(v)
  {
    var output := new Output();
    var ok := WriteCanonical(v, output);
    assert ok ==> output.bytes == Encode(v);
    r := if ok then Ok(output.bytes) else FloatForbidden;
  }

  /** A closed schema: which documents are contracts of type T, and how one is serialized. */
  datatype Schema<!T> = Schema(from: Json -> Option<T>, to: T -> Json)

  function DecodeClosed<T>(bytes: string, schema: Schema<T>): Outcome<T> {
    var doc := ParseDocument(bytes);
    if doc.Malformed? then InvalidJson
    else if !FloatFree(doc.value) then FloatForbidden
    else
      match schema.from(doc.value)
      case None => InvalidJson
      case Some(decoded) =>
        if !FloatFree(schema.to(decoded)) then FloatForbidden
        else if Encode(schema.to(decoded)) != bytes then NonCanonicalInput
        else Ok(decoded)
  }

  // ----- what the reader can produce -----

  lemma {:induction false} ReadValue(s: string, levels: nat)
    requires ParseValue(s, levels).Parsed? && FloatFree(ParseValue(s, levels).value)
    ensures Readable(ParseValue(s, levels).value) && Nests(ParseValue(s, levels).value, levels)
    decreases |s|, 0
  {
    var t := SkipSpace(s);
    if t[0] == '[' && !At(SkipSpace(t[1..]), ']') {
      var r := ParseItems(t[1..], levels - 1);
      assert ParseValue(s, levels).value == Arr(r.value);
      ReadItems(t[1..], levels - 1);
    } else if t[0] == '{' && !At(SkipSpace(t[1..]), '}') {
      var r := ParseMembers(t[1..], levels - 1);
      assert ParseValue(s, levels).value == Obj(r.value);
      ReadMembers(t[1..], levels - 1);
    }
  }

  lemma {:induction false} ReadItems(s: string, levels: nat)
    requires ParseItems(s, levels).Parsed?
    requires forall i | 0 <= i < |ParseItems(s, levels).value| :: FloatFree(ParseItems(s, levels).value[i])
    ensures forall i | 0 <= i < |ParseItems(s, levels).value| ::
      Readable(ParseItems(s, levels).value[i]) && Nests(ParseItems(s, levels).value[i], levels)
    decreases |s|, 1
  {
    var v := ParseValue(s, levels);
    var items := ParseItems(s, levels).value;
    assert items[0] == v.value;
    ReadValue(s, levels);
    var t := SkipSpace(v.rest);
    if !At(t, ']') {
      var more := ParseItems(t[1..], levels).value;
      assert items == [v.value] + more;
      assert forall i | 0 <= i < |more| :: more[i] == items[i + 1];
      ReadItems(t[1..], levels);
    }
  }

  lemma {:induction false} ReadMembers(s: string, levels: nat)
    requires ParseMembers(s, levels).Parsed?
    requires forall k | k in ParseMembers(s, levels).value :: FloatFree(ParseMembers(s, levels).value[k])
    ensures forall k | k in ParseMembers(s, levels).value ::
      ValidUtf8(k) && Readable(ParseMembers(s, levels).value[k]) && Nests(ParseMembers(s, levels).value[k], levels)
    decreases |s|, 1
  {
    var fields := ParseMembers(s, levels).value;
    var key := ParseString(SkipSpace(s)[1..]);
    var v := ParseValue(SkipSpace(key.rest)[1..], levels);
    var t := SkipSpace(v.rest);
    if At(t, '}') {
      assert fields == map[key.value := v.value];
      assert FloatFree(fields[key.value]);
      ReadValue(SkipSpace(key.rest)[1..], levels);
    } else {
      var more := ParseMembers(t[1..], levels).value;
      assert fields == map[key.value := v.value] + more;
      assert forall k | k in more :: fields[k] == more[k];
      ReadMembers(t[1..], levels);
      if key.value !in more {
        assert FloatFree(fields[key.value]);
        ReadValue(SkipSpace(key.rest)[1..], levels);
      }
    }
  }

  // ----- main results -----

  /** Some number of levels is enough to read any value. */
  lemma {:induction false} NestsSomewhere(v: Json) returns (n: nat)
    ensures forall m: nat | m >= n :: Nests(v, m)
    decreases v
  {
    n := 2;
    match v
    case Arr(items) =>
      for i := 0 to |items|
        invariant n >= 2
        invariant forall j, m: nat | 0 <= j < i && m >= n - 1 :: Nests(items[j], m)
      {
        var k := NestsSomewhere(items[i]);
        n := if k + 1 > n then k + 1 else n;
      }
    case Obj(fields) =>
      var keys := SortedKeys(fields);
      for i := 0 to |keys|
        invariant n >= 2
        invariant forall j, m: nat | 0 <= j < i && m >= n - 1 :: keys[j] in fields && Nests(fields[keys[j]], m)
      {
        assert keys[i] in Elements(keys);
        var k := NestsSomewhere(fields[keys[i]]);
        n := if k + 1 > n then k + 1 else n;
      }
      assert forall k | k in fields :: k in Elements(keys);
    case _ =>
  }

  /** Two values with one encoding are equal: objects are maps, so equality is up to key order. */
  lemma EncodeInjective(v: Json, w: Json)
    requires Readable(v) && Readable(w) && FloatFree(v) && FloatFree(w)
    requires Encode(v) == Encode(w)
    ensures v == w
  {
    var m := NestsSomewhere(v);
    var n := NestsSomewhere(w);
    var levels := m + n;
    ValueRoundTrip(v, levels, "");
    ValueRoundTrip(w, levels, "");
    assert Encode(v) + "" == Encode(v) && Encode(w) + "" == Encode(w);
  }

  /** The decoder of plain values accepts exactly the canonical encodings of values that nest
      to fewer than 128 levels; in particular no space, no unsorted or repeated key, no float. */
  lemma DecodesExactly(bytes: string, v: Json)
    ensures DecodeClosed(bytes, Schema((d: Json) => Some(d), (d: Json) => d)) == Ok(v) <==>
            Readable(v) && Nests(v, LEVELS) && FloatFree(v) && bytes == Encode(v)
  {
    if Readable(v) && Nests(v, LEVELS) && FloatFree(v) && bytes == Encode(v) {
      ValueRoundTrip(v, LEVELS, "");
      assert Encode(v) + "" == Encode(v);
    }
    var doc := ParseDocument(bytes);
    if doc.Parsed? && FloatFree(doc.value) {
      ReadValue(bytes, LEVELS);
    }
  }

  /** A contract that serializes to a readable document within the nesting bound decodes from
      its canonical bytes, and nothing but those bytes decodes to it. */
  lemma ContractRoundTrip<T>(x: T, schema: Schema<T>, bytes: string)
    requires schema.from(schema.to(x)) == Some(x)
    requires Readable(schema.to(x)) && FloatFree(schema.to(x)) && Nests(schema.to(x), LEVELS)
    ensures DecodeClosed(bytes, schema) == Ok(x) <==> bytes == Encode(schema.to(x))
  {
    var v := schema.to(x);
    ValueRoundTrip(v, LEVELS, "");
    assert Encode(v) + "" == Encode(v);
  }

  /** The bound is real: one value of 128 nested arrays is written but not read back. */
  function Tower(n: nat): Json {
    if n == 0 then Null else Arr([Tower(n - 1)])
  }

  lemma {:induction false} TowerNests(n: nat, levels: nat)
    ensures Nests(Tower(n), levels) <==> n == 0 || n < levels
    ensures Readable(Tower(n)) && FloatFree(Tower(n))
  {
    if n > 0 {
      TowerNests(n - 1, if levels > 0 then levels - 1 else 0);
      assert Tower(n).items[0] == Tower(n - 1);
    }
  }

  lemma TooDeepIsRefused()
    ensures Readable(Tower(128)) && CanonicalJson(Tower(128)).Ok?
    ensures forall v :: DecodeClosed(CanonicalJson(Tower(128)).value,
                                     Schema((d: Json) => Some(d), (d: Json) => d)) != Ok(v)
  {
    TowerNests(128, LEVELS);
    forall v
      ensures DecodeClosed(Encode(Tower(128)), Schema((d: Json) => Some(d), (d: Json) => d)) != Ok(v)
    {
      DecodesExactly(Encode(Tower(128)), v);
      if DecodeClosed(Encode(Tower(128)), Schema((d: Json) => Some(d), (d: Json) => d)) == Ok(v) {
        EncodeInjective(v, Tower(128));
      }
    }
  }

  /** The decoder of any document. */
  function Decoded(bytes: string): Outcome<Json> {
    DecodeClosed(bytes, Schema((d: Json) => Some(d), (d: Json) => d))
  }

  lemma DecodedIff(v: Json)
    requires FloatFree(v) && Readable(v)
    ensures Decoded(Encode(v)).Ok? <==> Nests(v, LEVELS)
  {
    hide Encode;
    DecodesExactly(Encode(v), v);
    if Decoded(Encode(v)).Ok? {
      var u := Decoded(Encode(v)).value;
      DecodesExactly(Encode(v), u);
      EncodeInjective(u, v);
    }
  }

  /** Exactly the towers of fewer than 128 arrays are read back. */
  lemma TowerDecodes(n: nat)
    ensures FloatFree(Tower(n)) && (Decoded(Encode(Tower(n))).Ok? <==> n < 128)
  {
    TowerNests(n, LEVELS);
    DecodedIff(Tower(n));
  }

  /** Exactly the integers of 64 bits, signed or unsigned, are read back. */
  lemma NumbersDecode(n: int)
    ensures Decoded(Encode(Num(n))).Ok? <==> -0x8000_0000_0000_0000 <= n <= 0xFFFF_FFFF_FFFF_FFFF
  {
    var text := Encode(Num(n));
    DecodesExactly(text, Num(n));
    if Decoded(text).Ok? {
      var u := Decoded(text).value;
      DecodesExactly(text, u);
      assert Encode(u) == text;
      assert u.Num?;
      NumeralsDiffer(u.n, n);
    }
  }

  lemma NumeralsDiffer(m: int, n: int)
    requires Encode(Num(m)) == Encode(Num(n))
    ensures m == n
  {
    if m < 0 && n < 0 {
      assert Encode(Num(m))[1..] == Encode(Num(n))[1..];
      ShowInjective(-m, -n);
    } else if m >= 0 && n >= 0 {
      ShowInjective(m, n);
    }
  }
}
