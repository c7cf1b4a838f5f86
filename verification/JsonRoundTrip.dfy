/** Reading a canonical encoding gives the value back. */
module JsonRoundTrip {
  import opened Order
  import opened Decimal
  import opened Json
  import opened JsonReader

  /** The values a Rust `Value` without floats can hold: 64-bit integers, UTF-8 strings. */
  predicate Readable(v: Json)
    decreases v
  {
    match v
    case Float => false
    case Num(n) => INT_MIN <= n <= UINT_MAX
    case Str(s) => ValidUtf8(s)
    case Arr(items) => forall i | 0 <= i < |items| :: Readable(items[i])
    case Obj(fields) => forall k | k in fields :: ValidUtf8(k) && Readable(fields[k])
    case _ => true
  }

  /** Arrays and objects nest to fewer than `levels` levels. */
  predicate Nests(v: Json, levels: nat)
    decreases v
  {
    match v
    case Arr(items) => levels > 1 && forall i | 0 <= i < |items| :: Nests(items[i], levels - 1)
    case Obj(fields) => levels > 1 && forall k | k in fields :: Nests(fields[k], levels - 1)
    case _ => true
  }

  lemma {:induction false} ReadableFloatFree(v: Json)
    requires Readable(v)
    ensures FloatFree(v)
    decreases v
  {
    match v
    case Arr(items) =>
      forall i | 0 <= i < |items| ensures FloatFree(items[i]) { ReadableFloatFree(items[i]); }
    case Obj(fields) =>
      forall k | k in fields ensures FloatFree(fields[k]) { ReadableFloatFree(fields[k]); }
    case _ =>
  }

  /** What may follow a number without becoming part of it. */
  predicate Boundary(rest: string) {
    rest == "" || (!IsDigit(rest[0]) && !FloatMark(rest))
  }

  lemma Assoc(a: string, b: string, c: string)
    ensures (a + b) + c == a + (b + c)
  {
  }

  lemma Listed(first: string, more: string, close: string)
    ensures (first + "," + more) + close == first + ("," + (more + close))
  {
  }

  lemma Enclosed(left: string, body: string, right: string, rest: string)
    requires |left| == 1
    ensures var s := left + body + right + rest;
      s != "" && s[0] == left[0] && s[1..] == body + right + rest
  {
  }

  // ----- strings -----

  lemma EscapedByte(c: char, tail: string)
    ensures ParseChars(EscapeByte(c) + tail) ==
            if ParseChars(tail).Malformed? then Malformed
            else Parsed([c] + ParseChars(tail).value, ParseChars(tail).rest)
  {
    var s := EscapeByte(c) + tail;
    if |EscapeByte(c)| == 1 {
      assert s == [c] + tail && s[1..] == tail;
    } else {
      assert s[0] == '\\' && s[1..] == EscapeByte(c)[1..] + tail;
      if |EscapeByte(c)| == 2 {
        ShortEscape(c, tail);
      } else {
        UnicodeEscape(c, tail);
      }
      CharsAfterEscape(s, c, tail);
    }
  }

  lemma CharsAfterEscape(s: string, c: char, tail: string)
    requires At(s, '\\') && ParseEscape(s[1..]) == Parsed([c], tail)
    ensures ParseChars(s) ==
            if ParseChars(tail).Malformed? then Malformed
            else Parsed([c] + ParseChars(tail).value, ParseChars(tail).rest)
  {
  }

  lemma ShortEscape(c: char, tail: string)
    requires |EscapeByte(c)| == 2
    ensures ParseEscape(EscapeByte(c)[1..] + tail) == Parsed([c], tail)
  {
    var s := EscapeByte(c)[1..] + tail;
    assert s[1..] == tail;
  }

  lemma UnicodeEscape(c: char, tail: string)
    requires |EscapeByte(c)| > 2
    ensures EscapeByte(c)[0] == '\\' && |EscapeByte(c)| == 6
    ensures ParseEscape(EscapeByte(c)[1..] + tail) == Parsed([c], tail)
  {
    var n := c as int;
    var e := EscapeByte(c);
    assert e == "\\u00" + [Hex(n / 16), Hex(n % 16)];
    assert HexValue(Hex(n / 16)) == n / 16 && HexValue(Hex(n % 16)) == n % 16;
    var s := e[1..] + tail;
    assert s[1..] == ['0', '0', Hex(n / 16), Hex(n % 16)] + tail;
    assert s[1..][4..] == tail;
    assert ParseUnit(s[1..]) == Parsed(n, tail);
  }

  lemma {:induction false} EscapedChars(s: string, tail: string)
    ensures ParseChars(Escape(s) + "\"" + tail) == Parsed(s, tail)
  {
    if s == "" {
      assert ("" + "\"" + tail)[1..] == tail;
    } else {
      EscapedChars(s[1..], tail);
      EscapedByte(s[0], Escape(s[1..]) + "\"" + tail);
      assert Escape(s) + "\"" + tail == EscapeByte(s[0]) + (Escape(s[1..]) + "\"" + tail);
      assert s == [s[0]] + s[1..];
    }
  }

  lemma QuotedTail(s: string, tail: string)
    ensures At(Quote(s) + tail, '\"') && (Quote(s) + tail)[1..] == Escape(s) + "\"" + tail
  {
  }

  lemma QuotedString(s: string, tail: string)
    requires ValidUtf8(s)
    ensures At(Quote(s) + tail, '\"') && ParseString((Quote(s) + tail)[1..]) == Parsed(s, tail)
  {
    QuotedTail(s, tail);
    EscapedChars(s, tail);
  }

  // ----- numbers -----

  lemma ShownNumber(n: nat, rest: string)
    requires Boundary(rest)
    ensures var t := Show(n) + rest;
      && Leading(t) == |Show(n)| && t[..|Show(n)|] == Show(n) && t[|Show(n)|..] == rest
      && Read(Show(n)) == n && IsDigit(t[0]) && !(t[0] == '0' && |Show(n)| > 1)
  {
    LeadingOf(Show(n), rest);
    ReadShow(n);
  }

  lemma Unsigned(n: nat, rest: string)
    requires n <= UINT_MAX && Boundary(rest)
    ensures ParseNumber(Show(n) + rest) == Parsed(Num(n), rest)
  {
    ShownNumber(n, rest);
  }

  lemma Signed(n: int, rest: string)
    requires 0 < n <= -INT_MIN && Boundary(rest)
    ensures ParseNumber("-" + Show(n) + rest) == Parsed(Num(-n), rest)
  {
    ShownNumber(n, rest);
    var s := "-" + Show(n) + rest;
    assert s[1..] == Show(n) + rest;
  }

  lemma NumberRoundTrip(n: int, rest: string)
    requires INT_MIN <= n <= UINT_MAX && Boundary(rest)
    ensures ParseNumber(Integer(n) + rest) == Parsed(Num(n), rest)
  {
    if n < 0 {
      Signed(-n, rest);
    } else {
      Unsigned(n, rest);
    }
  }

  // ----- values -----

  lemma Heads(v: Json)
    requires Readable(v) && FloatFree(v)
    ensures Encode(v) != "" && !IsSpace(Encode(v)[0]) && Encode(v)[0] !in "]}"
    ensures v.Num? ==> Encode(v)[0] !in "ntf\"[{"
  {
  }

  // One unfolding of the reader for each leading byte.

  lemma ReadsNumber(s: string, levels: nat)
    requires s != "" && (IsDigit(s[0]) || s[0] == '-')
    ensures ParseValue(s, levels) == ParseNumber(s)
  {
    hide ParseNumber, ParseString, ParseItems, ParseMembers;
    assert SkipSpace(s) == s;
  }

  lemma ReadsString(s: string, levels: nat, x: string, rest: string)
    requires At(s, '\"') && ParseString(s[1..]) == Parsed(x, rest)
    ensures ParseValue(s, levels) == Parsed(Str(x), rest)
  {
  }

  lemma ReadsArray(s: string, levels: nat, items: seq<Json>, rest: string)
    requires At(s, '[') && levels > 1
    requires s[1..] != "" && !IsSpace(s[1]) && s[1] != ']'
    requires ParseItems(s[1..], levels - 1) == Parsed(items, rest)
    ensures ParseValue(s, levels) == Parsed(Arr(items), rest)
  {
    assert SkipSpace(s[1..]) == s[1..];
  }

  lemma ReadsObject(s: string, levels: nat, fields: map<string, Json>, rest: string)
    requires At(s, '{') && levels > 1
    requires At(s[1..], '\"')
    requires ParseMembers(s[1..], levels - 1) == Parsed(fields, rest)
    ensures ParseValue(s, levels) == Parsed(Obj(fields), rest)
  {
    assert SkipSpace(s[1..]) == s[1..];
  }

  lemma ReadsWord(v: Json, levels: nat, rest: string)
    requires v.Null? || v.Bool? || v == Arr([]) || v == Obj(map[])
    requires levels > 1
    ensures FloatFree(v) && ParseValue(Encode(v) + rest, levels) == Parsed(v, rest)
  {
    var s := Encode(v) + rest;
    assert s[|Encode(v)|..] == rest;
    if v.Arr? {
      assert s[1..] == "]" + rest;
    } else if v.Obj? {
      assert SortedKeys(v.fields) == [];
      assert s[1..] == "}" + rest;
    }
  }

  lemma ReadsWordFlat(v: Json, levels: nat, rest: string)
    requires v.Null? || v.Bool?
    ensures ParseValue(Encode(v) + rest, levels) == Parsed(v, rest)
  {
    var s := Encode(v) + rest;
    assert s[|Encode(v)|..] == rest;
  }

  lemma ReadsLastItem(s: string, levels: nat, x: Json, rest: string)
    requires ParseValue(s, levels) == Parsed(x, "]" + rest)
    ensures ParseItems(s, levels) == Parsed([x], rest)
  {
    assert ("]" + rest)[1..] == rest;
  }

  lemma ReadsItem(s: string, levels: nat, x: Json, tail: string, more: seq<Json>, rest: string)
    requires ParseValue(s, levels) == Parsed(x, "," + tail)
    requires ParseItems(tail, levels) == Parsed(more, rest)
    ensures ParseItems(s, levels) == Parsed([x] + more, rest)
  {
    assert ("," + tail)[1..] == tail;
  }

  lemma ReadsLastMember(s: string, levels: nat, key: string, mid: string, x: Json, rest: string)
    requires At(s, '\"') && ParseString(s[1..]) == Parsed(key, ":" + mid)
    requires ParseValue(mid, levels) == Parsed(x, "}" + rest)
    ensures ParseMembers(s, levels) == Parsed(map[key := x], rest)
  {
    assert (":" + mid)[1..] == mid && ("}" + rest)[1..] == rest;
  }

  lemma ReadsMember(s: string, levels: nat, key: string, mid: string, x: Json, tail: string,
                    more: map<string, Json>, rest: string)
    requires At(s, '\"') && ParseString(s[1..]) == Parsed(key, ":" + mid)
    requires ParseValue(mid, levels) == Parsed(x, "," + tail)
    requires ParseMembers(tail, levels) == Parsed(more, rest)
    ensures ParseMembers(s, levels) == Parsed(map[key := x] + more, rest)
  {
    assert (":" + mid)[1..] == mid && ("," + tail)[1..] == tail;
  }

  /** The reader inverts the writer whatever bytes follow the encoding. */
  lemma {:induction false} ValueRoundTrip(v: Json, levels: nat, rest: string)
    requires Readable(v) && FloatFree(v) && Nests(v, levels) && Boundary(rest)
    ensures ParseValue(Encode(v) + rest, levels) == Parsed(v, rest)
    decreases v, 1, 0
  {
    match v
    case Num(n) =>
      NumberRoundTrip(n, rest);
      ReadsNumber(Integer(n) + rest, levels);
    case Str(x) =>
      QuotedString(x, rest);
      ReadsString(Quote(x) + rest, levels, x, rest);
    case Arr(items) =>
      if items == [] {
        ReadsWord(v, levels, rest);
      } else {
        forall i | 0 <= i < |items| ensures FloatFree(items[i]) { ReadableFloatFree(items[i]); }
        assert Fit(items, levels - 1);
        ItemsRoundTrip(items, levels - 1, rest);
        ItemsHead(items);
        Enclosed("[", EncodeItems(items), "]", rest);
        ReadsArray("[" + EncodeItems(items) + "]" + rest, levels, items, rest);
      }
    case Obj(fields) => ObjectRoundTrip(v, levels, rest);
    case _ => ReadsWordFlat(v, levels, rest);
  }

  lemma {:induction false} ObjectRoundTrip(v: Json, levels: nat, rest: string)
    requires v.Obj? && Readable(v) && FloatFree(v) && Nests(v, levels)
    ensures ParseValue(Encode(v) + rest, levels) == Parsed(v, rest)
    decreases v, 0, |v.fields| + 1
  {
    var keys := SortedKeys(v.fields);
    if keys == [] {
      assert v.fields == map[] by { assert v.fields.Keys == {}; }
      ReadsWord(v, levels, rest);
    } else {
      SortedKeysSorted(v.fields);
      MembersRoundTrip(keys, v, levels - 1, rest);
      MembersHead(keys, v);
      Enclosed("{", EncodeMembers(keys, v), "}", rest);
      ReadsObject("{" + EncodeMembers(keys, v) + "}" + rest, levels, Pick(keys, v.fields), rest);
      PickAll(v.fields);
    }
  }

  lemma ItemsHead(items: seq<Json>)
    requires items != [] && forall i | 0 <= i < |items| :: Readable(items[i]) && FloatFree(items[i])
    ensures EncodeItems(items) != "" && !IsSpace(EncodeItems(items)[0]) && EncodeItems(items)[0] != ']'
  {
    Heads(items[0]);
  }

  lemma ItemsCons(items: seq<Json>, rest: string)
    requires |items| > 1 && forall i | 0 <= i < |items| :: FloatFree(items[i])
    ensures EncodeItems(items) + "]" + rest == Encode(items[0]) + ("," + (EncodeItems(items[1..]) + "]" + rest))
  {
    Listed(Encode(items[0]), EncodeItems(items[1..]), "]" + rest);
    Assoc(EncodeItems(items), "]", rest);
    Assoc(EncodeItems(items[1..]), "]", rest);
  }

  predicate Fit(items: seq<Json>, levels: nat) {
    forall i | 0 <= i < |items| :: Readable(items[i]) && FloatFree(items[i]) && Nests(items[i], levels)
  }

  lemma {:induction false} ItemsRoundTrip(items: seq<Json>, levels: nat, rest: string)
    requires items != [] && Fit(items, levels)
    ensures ParseItems(EncodeItems(items) + "]" + rest, levels) == Parsed(items, rest)
    decreases items, 0, 1
  {
    var x := items[0];
    if |items| == 1 {
      ValueRoundTrip(x, levels, "]" + rest);
      Assoc(Encode(x), "]", rest);
      ReadsLastItem(Encode(x) + ("]" + rest), levels, x, rest);
      assert items == [x];
    } else {
      NextItems(items, levels, rest);
    }
  }

  lemma {:induction false} NextItems(items: seq<Json>, levels: nat, rest: string)
    requires |items| > 1 && Fit(items, levels)
    ensures ParseItems(EncodeItems(items) + "]" + rest, levels) == Parsed(items, rest)
    decreases items, 0, 0
  {
    var x, more := items[0], items[1..];
    var tail := EncodeItems(more) + "]" + rest;
    assert Fit(more, levels);
    ItemsRoundTrip(more, levels, rest);
    ValueRoundTrip(x, levels, "," + tail);
    ReadsItem(Encode(x) + ("," + tail), levels, x, tail, more, rest);
    assert [x] + more == items;
    ItemsCons(items, rest);
  }

  lemma MemberSplit(key: string, code: string, close: string)
    ensures Quote(key) + ":" + code + close == Quote(key) + (":" + (code + close))
  {
  }

  lemma LastMember(key: string, code: string, x: Json, levels: nat, rest: string)
    requires ValidUtf8(key) && ParseValue(code + ("}" + rest), levels) == Parsed(x, "}" + rest)
    ensures ParseMembers(Quote(key) + ":" + code + ("}" + rest), levels) == Parsed(map[key := x], rest)
  {
    var mid := code + ("}" + rest);
    MemberSplit(key, code, "}" + rest);
    QuotedString(key, ":" + mid);
    ReadsLastMember(Quote(key) + (":" + mid), levels, key, mid, x, rest);
  }

  lemma NextMember(key: string, code: string, x: Json, tail: string, more: map<string, Json>,
                   levels: nat, rest: string)
    requires ValidUtf8(key) && ParseValue(code + ("," + tail), levels) == Parsed(x, "," + tail)
    requires ParseMembers(tail, levels) == Parsed(more, rest)
    ensures ParseMembers(Quote(key) + ":" + code + ("," + tail), levels) == Parsed(map[key := x] + more, rest)
  {
    var mid := code + ("," + tail);
    MemberSplit(key, code, "," + tail);
    QuotedString(key, ":" + mid);
    ReadsMember(Quote(key) + (":" + mid), levels, key, mid, x, tail, more, rest);
  }

  function Pick(keys: seq<string>, fields: map<string, Json>): map<string, Json>
    requires Elements(keys) <= fields.Keys
  {
    map k | k in Elements(keys) :: fields[k]
  }

  lemma MembersHead(keys: seq<string>, v: Json)
    requires v.Obj? && FloatFree(v) && keys != [] && Elements(keys) <= v.fields.Keys
    ensures At(EncodeMembers(keys, v), '\"')
  {
  }

  lemma {:induction false} MembersRoundTrip(keys: seq<string>, v: Json, levels: nat, rest: string)
    requires v.Obj? && Readable(v) && FloatFree(v) && forall k | k in v.fields :: Nests(v.fields[k], levels)
    requires keys != [] && Elements(keys) <= v.fields.Keys && Sorted(keys, TextLess)
    requires |keys| <= |v.fields|
    ensures ParseMembers(EncodeMembers(keys, v) + "}" + rest, levels) == Parsed(Pick(keys, v.fields), rest)
    decreases v, 0, |keys|
  {
    var key := keys[0];
    assert key in Elements(keys);
    var x := v.fields[key];
    if |keys| == 1 {
      ValueRoundTrip(x, levels, "}" + rest);
      LastMember(key, Encode(x), x, levels, rest);
      Assoc(EncodeMembers(keys, v), "}", rest);
      PickOne(keys, v.fields);
    } else {
      var tail := EncodeMembers(keys[1..], v) + "}" + rest;
      FirstKeyApart(keys);
      ValueRoundTrip(x, levels, "," + tail);
      MembersRoundTrip(keys[1..], v, levels, rest);
      NextMember(key, Encode(x), x, tail, Pick(keys[1..], v.fields), levels, rest);
      MembersCons(keys, v, rest);
      PickCons(keys, v.fields);
    }
  }

  lemma MembersCons(keys: seq<string>, v: Json, rest: string)
    requires v.Obj? && FloatFree(v) && |keys| > 1 && Elements(keys) <= v.fields.Keys
    ensures keys[0] in Elements(keys) && Elements(keys[1..]) <= v.fields.Keys
    ensures EncodeMembers(keys, v) + "}" + rest ==
            Quote(keys[0]) + ":" + Encode(v.fields[keys[0]]) + ("," + (EncodeMembers(keys[1..], v) + "}" + rest))
  {
    assert keys[0] in Elements(keys);
    assert Elements(keys[1..]) <= Elements(keys);
    var more := EncodeMembers(keys[1..], v);
    Listed(Quote(keys[0]) + ":" + Encode(v.fields[keys[0]]), more, "}" + rest);
    Assoc(EncodeMembers(keys, v), "}", rest);
    Assoc(more, "}", rest);
  }

  lemma PickAll(fields: map<string, Json>)
    ensures Pick(SortedKeys(fields), fields) == fields
  {
  }

  lemma PickOne(keys: seq<string>, fields: map<string, Json>)
    requires |keys| == 1 && Elements(keys) <= fields.Keys
    ensures keys[0] in fields && Pick(keys, fields) == map[keys[0] := fields[keys[0]]]
  {
    assert keys == [keys[0]];
    assert Elements(keys) == {keys[0]};
  }

  lemma PickCons(keys: seq<string>, fields: map<string, Json>)
    requires keys != [] && Elements(keys) <= fields.Keys && Sorted(keys, TextLess)
    ensures keys[0] in fields && Elements(keys[1..]) <= fields.Keys
    ensures Pick(keys, fields) == map[keys[0] := fields[keys[0]]] + Pick(keys[1..], fields)
  {
    FirstKeyApart(keys);
    assert keys[0] in Elements(keys);
  }

  lemma FirstKeyApart(keys: seq<string>)
    requires keys != [] && Sorted(keys, TextLess)
    ensures Sorted(keys[1..], TextLess) && Elements(keys[1..]) == Elements(keys) - {keys[0]}
  {
    TextStrictTotal();
    TailElements(keys, TextLess);
  }
}
