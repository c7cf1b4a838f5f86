/** What canonical JSON looks like, byte by byte and without the writer's own definitions. */
module CanonicalText {
  import opened Order
  import opened Decimal
  import opened Json
  import opened JsonSize

  // ----- the order of keys -----

  /** `a` is a proper prefix of `b`, or has the smaller byte where they first differ. */
  ghost predicate ByteLess(a: string, b: string) {
    exists n :: DiffersAt(a, b, n)
  }

  predicate DiffersAt(a: string, b: string, n: nat) {
    && n <= |a| && n < |b| && (forall i | 0 <= i < n :: a[i] == b[i])
    && (n == |a| || a[n] < b[n])
  }

  /** The order of the writer, and of every sorted scope and listing, is that byte order. */
  lemma {:induction false} TextLessIsByteLess(a: string, b: string)
    ensures TextLess(a, b) <==> ByteLess(a, b)
  {
    if a == "" || b == "" {
      assert b != "" ==> DiffersAt("", b, 0);
    } else if a[0] != b[0] {
      assert a[0] < b[0] ==> DiffersAt(a, b, 0);
    } else {
      TextLessIsByteLess(a[1..], b[1..]);
      if TextLess(a[1..], b[1..]) {
        var n: nat :| DiffersAt(a[1..], b[1..], n);
        assert forall i | 0 < i < n + 1 :: a[i] == a[1..][i - 1] && b[i] == b[1..][i - 1];
        assert DiffersAt(a, b, n + 1);
      }
      if ByteLess(a, b) {
        var n: nat :| DiffersAt(a, b, n);
        assert n > 0;
        assert DiffersAt(a[1..], b[1..], n - 1);
      }
    }
  }

  /** Any two keys that are written one after the other ascend. */
  lemma NeighbouringKeysAscend(fields: map<string, Json>, i: nat)
    requires i + 1 < |SortedKeys(fields)|
    ensures ByteLess(SortedKeys(fields)[i], SortedKeys(fields)[i + 1])
  {
    SortedKeysSorted(fields);
    TextLessIsByteLess(SortedKeys(fields)[i], SortedKeys(fields)[i + 1]);
  }

  /** A list of all the keys whose neighbours ascend: there is only one. */
  ghost predicate Ascends(keys: seq<string>, fields: map<string, Json>) {
    && Elements(keys) == fields.Keys
    && forall i | 0 <= i && i + 1 < |keys| :: ByteLess(keys[i], keys[i + 1])
  }

  lemma {:induction false} AscendsSorted(keys: seq<string>)
    requires forall i | 0 <= i && i + 1 < |keys| :: TextLess(keys[i], keys[i + 1])
    ensures Sorted(keys, TextLess)
  {
    hide TextLess;
    TextStrictTotal();
    if |keys| > 1 {
      var n := |keys| - 1;
      AscendsSorted(keys[..n]);
      forall i, j | 0 <= i < j < |keys|
        ensures TextLess(keys[i], keys[j])
      {
        if j < n {
          assert TextLess(keys[..n][i], keys[..n][j]);
        } else if i < n - 1 {
          assert TextLess(keys[..n][i], keys[..n][n - 1]);
        }
      }
    }
  }

  lemma AscendingKeys(keys: seq<string>, fields: map<string, Json>)
    requires Ascends(keys, fields)
    ensures SortedKeys(fields) == keys
  {
    hide TextLess, ByteLess;
    TextStrictTotal();
    forall i | 0 <= i && i + 1 < |keys|
      ensures TextLess(keys[i], keys[i + 1])
    {
      TextLessIsByteLess(keys[i], keys[i + 1]);
    }
    AscendsSorted(keys);
    SortedKeysSorted(fields);
    SortedUnique(SortedKeys(fields), keys, TextLess);
  }

  // ----- the text of a value -----

  function Joined(parts: seq<string>): string {
    if parts == [] then "" else if |parts| == 1 then parts[0] else parts[0] + "," + Joined(parts[1..])
  }

  function ItemTexts(items: seq<Json>): seq<string>
    requires forall i | 0 <= i < |items| :: FloatFree(items[i])
  {
    seq(|items|, i requires 0 <= i < |items| => Encode(items[i]))
  }

  function MemberTexts(keys: seq<string>, fields: map<string, Json>): seq<string>
    requires forall k | k in keys :: k in fields && FloatFree(fields[k])
  {
    seq(|keys|, i requires 0 <= i < |keys| => Quote(keys[i]) + ":" + Encode(fields[keys[i]]))
  }

  lemma {:induction false} ItemsText(items: seq<Json>)
    requires forall i | 0 <= i < |items| :: FloatFree(items[i])
    ensures EncodeItems(items) == Joined(ItemTexts(items))
  {
    if |items| > 1 {
      ItemsText(items[1..]);
      assert ItemTexts(items)[1..] == ItemTexts(items[1..]);
    }
  }

  lemma {:induction false} MembersText(keys: seq<string>, v: Json)
    requires v.Obj? && Elements(keys) <= v.fields.Keys && FloatFree(v)
    requires forall k | k in keys :: k in v.fields && FloatFree(v.fields[k])
    ensures EncodeMembers(keys, v) == Joined(MemberTexts(keys, v.fields))
    decreases |keys|
  {
    if |keys| > 1 {
      assert Elements(keys[1..]) <= Elements(keys);
      MembersText(keys[1..], v);
      assert MemberTexts(keys, v.fields)[1..] == MemberTexts(keys[1..], v.fields);
    }
  }

  lemma ArrayText(items: seq<Json>)
    requires forall i | 0 <= i < |items| :: FloatFree(items[i])
    ensures Encode(Arr(items)) == "[" + Joined(ItemTexts(items)) + "]"
  {
    ItemsText(items);
  }

  /** An object is written as its members in ascending byte order of their keys. */
  lemma ObjectText(fields: map<string, Json>, keys: seq<string>)
    requires Ascends(keys, fields) && FloatFree(Obj(fields))
    requires forall k | k in keys :: k in fields && FloatFree(fields[k])
    ensures Encode(Obj(fields)) == "{" + Joined(MemberTexts(keys, fields)) + "}"
  {
    hide Ascends;
    AscendingKeys(keys, fields);
    MembersText(keys, Obj(fields));
  }

  lemma ScalarTexts(s: string)
    ensures Encode(Null) == "null" && Encode(Bool(true)) == "true" && Encode(Bool(false)) == "false"
    ensures Encode(Num(0)) == "0" && Encode(Num(-12)) == "-12" && Encode(Num(907)) == "907"
    ensures Encode(Str(s)) == "\"" + Escape(s) + "\""
  {
    DecimalTexts();
  }

  lemma DecimalTexts()
    ensures Show(0) == "0" && Show(7) == "7" && Show(12) == "12" && Show(907) == "907" && Show(16) == "16"
  {
    assert Show(90) == Show(9) + ['0'];
    assert Show(907) == Show(90) + ['7'];
  }

  /** The escapes of section 7 of RFC 8259 that are written, and no others. */
  lemma EscapeTexts(c: char)
    ensures Escape("") == ""
    ensures c as int >= 0x20 && c != '\"' && c != '\\' ==> Escape([c]) == [c]
    ensures Escape("\"") == "\\\"" && Escape("\\") == "\\\\" && Escape("\n") == "\\n"
    ensures Escape("\r") == "\\r" && Escape("\t") == "\\t"
    ensures Escape([8 as char]) == "\\b" && Escape([12 as char]) == "\\f"
    ensures Escape([0 as char]) == "\\u0000" && Escape([11 as char]) == "\\u000b"
    ensures Escape([16 as char]) == "\\u0010" && Escape([31 as char]) == "\\u001f"
  {
    OneEscape(c);
    OneEscape('\"');
    OneEscape('\\');
    OneEscape('\n');
    OneEscape('\r');
    OneEscape('\t');
    OneEscape(8 as char);
    OneEscape(12 as char);
    OneEscape(0 as char);
    OneEscape(11 as char);
    OneEscape(16 as char);
    OneEscape(31 as char);
  }

  lemma OneEscape(c: char)
    ensures Escape([c]) == EscapeByte(c)
  {
    assert [c][1..] == "";
    assert EscapeByte(c) + "" == EscapeByte(c);
  }

  lemma {:induction false} EscapeConcat(a: string, b: string)
    ensures Escape(a + b) == Escape(a) + Escape(b)
  {
    if a == "" {
      assert a + b == b;
    } else {
      assert (a + b)[1..] == a[1..] + b;
      EscapeConcat(a[1..], b);
    }
  }

  lemma ListSample()
    ensures Encode(Arr([Null, Bool(true)])) == "[null,true]"
  {
    ScalarTexts("");
    ArrayText([Null, Bool(true)]);
    assert ItemTexts([Null, Bool(true)]) == ["null", "true"];
    assert ["null", "true"][1..] == ["true"];
    assert Joined(["true"]) == "true" && Joined(["null", "true"]) == "null" + "," + "true";
  }

  lemma MemberSample()
    ensures Quote("a") + ":" + "[null,true]" == "\"a\":[null,true]"
    ensures Quote("b") + ":" + "12" == "\"b\":12"
  {
    PlainEscape("a");
    PlainEscape("b");
  }

  lemma JoinTwo(a: string, b: string)
    ensures Joined([a, b]) == a + "," + b
  {
    assert [a, b][1..] == [b];
  }

  lemma SampleKeys(fields: map<string, Json>)
    requires fields.Keys == {"a", "b"}
    ensures Ascends(["a", "b"], fields)
  {
    assert DiffersAt("a", "b", 0);
    assert Elements(["a", "b"]) == fields.Keys;
  }

  lemma SampleMembers(fields: map<string, Json>)
    requires fields == map["b" := Num(12), "a" := Arr([Null, Bool(true)])]
    ensures FloatFree(fields["a"]) && FloatFree(fields["b"])
    ensures MemberTexts(["a", "b"], fields) == ["\"a\":[null,true]", "\"b\":12"]
  {
    hide Encode, Quote;
    ListSample();
    DecimalTexts();
    NumberText(12);
    MemberSample();
  }

  /** Two members given in the wrong order are written in the right one. */
  lemma SampleText()
    ensures Encode(Obj(map["b" := Num(12), "a" := Arr([Null, Bool(true)])])) == "{\"a\":[null,true],\"b\":12}"
  {
    hide Encode, Ascends, Joined, MemberTexts;
    var fields := map["b" := Num(12), "a" := Arr([Null, Bool(true)])];
    SampleMembers(fields);
    SampleKeys(fields);
    ObjectText(fields, ["a", "b"]);
    JoinTwo("\"a\":[null,true]", "\"b\":12");
    assert "{" + ("\"a\":[null,true]" + "," + "\"b\":12") + "}" == "{\"a\":[null,true],\"b\":12}";
  }

  lemma NumberText(n: nat)
    ensures Encode(Num(n)) == Show(n)
  {
  }
}
