/** Encoded length: objects grow with their members. */
module JsonSize {
  import opened Order
  import opened Json

  function Len(v: Json): nat
    requires FloatFree(v)
  {
    |Encode(v)|
  }

  function Cost(key: string, x: Json): nat
    requires FloatFree(x)
  {
    |Quote(key)| + 1 + Len(x)
  }

  function SumCost(keys: seq<string>, fields: map<string, Json>): nat
    requires Elements(keys) <= fields.Keys
    requires forall k | k in fields :: FloatFree(fields[k])
  {
    if keys == [] then 0
    else
      assert keys[0] in Elements(keys);
      assert Elements(keys[1..]) <= Elements(keys);
      Cost(keys[0], fields[keys[0]]) + SumCost(keys[1..], fields)
  }

  lemma {:induction false} MembersLength(keys: seq<string>, v: Json)
    requires v.Obj? && FloatFree(v) && Elements(keys) <= v.fields.Keys
    ensures |EncodeMembers(keys, v)| == SumCost(keys, v.fields) + (if keys == [] then 0 else |keys| - 1)
    decreases |keys|
  {
    if keys != [] {
      assert keys[0] in Elements(keys);
      assert Elements(keys[1..]) <= Elements(keys);
      MembersLength(keys[1..], v);
    }
  }

  lemma ObjectLength(v: Json)
    requires v.Obj? && FloatFree(v)
    ensures Len(v) == 2 + SumCost(SortedKeys(v.fields), v.fields) + (if |v.fields| == 0 then 0 else |v.fields| - 1)
  {
    MembersLength(SortedKeys(v.fields), v);
    assert |v.fields| == |v.fields.Keys|;
  }

  lemma {:induction false} SumSplit(a: seq<string>, k: string, b: seq<string>, fields: map<string, Json>)
    requires Elements(a + [k] + b) <= fields.Keys
    requires forall x | x in fields :: FloatFree(fields[x])
    ensures k in fields && Elements(a + b) <= fields.Keys
    ensures SumCost(a + [k] + b, fields) == SumCost(a + b, fields) + Cost(k, fields[k])
  {
    assert k in Elements(a + [k] + b);
    assert Elements(a + b) <= Elements(a + [k] + b);
    if a == [] {
      assert a + [k] + b == [k] + b && a + b == b;
      assert ([k] + b)[1..] == b;
    } else {
      assert (a + [k] + b)[1..] == a[1..] + [k] + b;
      assert (a + b)[1..] == a[1..] + b;
      assert Elements(a[1..] + [k] + b) <= Elements(a + [k] + b);
      SumSplit(a[1..], k, b, fields);
      assert (a + b)[0] in Elements(a + b);
    }
  }

  lemma {:induction false} SumAgrees(keys: seq<string>, f: map<string, Json>, g: map<string, Json>)
    requires Elements(keys) <= f.Keys && Elements(keys) <= g.Keys
    requires (forall k | k in f :: FloatFree(f[k])) && (forall k | k in g :: FloatFree(g[k]))
    requires forall k | k in Elements(keys) :: Len(f[k]) <= Len(g[k])
    ensures SumCost(keys, f) <= SumCost(keys, g)
  {
    if keys != [] {
      assert keys[0] in Elements(keys);
      assert Elements(keys[1..]) <= Elements(keys);
      SumAgrees(keys[1..], f, g);
    }
  }

  lemma WithoutElements(keys: seq<string>, i: nat)
    requires Sorted(keys, TextLess) && i < |keys|
    ensures Elements(keys[..i] + keys[i + 1..]) == Elements(keys) - {keys[i]}
  {
    hide TextLess;
    TextStrictTotal();
    var rest := keys[..i] + keys[i + 1..];
    forall x | x in Elements(rest)
      ensures x in Elements(keys) - {keys[i]}
    {
      var j :| 0 <= j < |rest| && rest[j] == x;
      var m := if j < i then j else j + 1;
      assert keys[m] == x;
      assert TextLess(keys[if m < i then m else i], keys[if m < i then i else m]);
    }
    forall x | x in Elements(keys) - {keys[i]}
      ensures x in Elements(rest)
    {
      var m :| 0 <= m < |keys| && keys[m] == x;
      assert rest[if m < i then m else m - 1] == x;
    }
  }

  /** Dropping the key `k` from the sorted keys leaves the sorted keys of the rest. */
  lemma SortedWithout(fields: map<string, Json>, k: string, i: nat)
    requires i < |SortedKeys(fields)| && SortedKeys(fields)[i] == k
    ensures var keys := SortedKeys(fields); keys[..i] + keys[i + 1..] == SortedKeys(fields - {k})
  {
    var keys := SortedKeys(fields);
    SortedKeysSorted(fields);
    SortedKeysSorted(fields - {k});
    TextStrictTotal();
    WithoutIsSorted(keys, i);
    WithoutElements(keys, i);
    assert (fields - {k}).Keys == fields.Keys - {k};
    SortedUnique(keys[..i] + keys[i + 1..], SortedKeys(fields - {k}), TextLess);
  }

  lemma WithoutIsSorted(keys: seq<string>, i: nat)
    requires Sorted(keys, TextLess) && i < |keys|
    ensures Sorted(keys[..i] + keys[i + 1..], TextLess)
  {
    var rest := keys[..i] + keys[i + 1..];
    forall a, b | 0 <= a < b < |rest|
      ensures TextLess(rest[a], rest[b])
    {
      assert rest[a] == keys[if a < i then a else a + 1] && rest[b] == keys[if b < i then b else b + 1];
    }
  }

  lemma KeyCount(fields: map<string, Json>, k: string)
    requires k in fields
    ensures |fields - {k}| == |fields| - 1 && (fields - {k}).Keys == fields.Keys - {k}
  {
    assert (fields - {k}).Keys == fields.Keys - {k};
    assert |fields| == |fields.Keys| && |fields - {k}| == |(fields - {k}).Keys|;
  }

  lemma RestCost(fields: map<string, Json>, k: string, i: nat)
    requires i < |SortedKeys(fields)| && SortedKeys(fields)[i] == k
    requires k in fields && forall x | x in fields :: FloatFree(fields[x])
    ensures var rest := SortedKeys(fields - {k});
      Elements(rest) <= fields.Keys && SumCost(rest, fields) <= SumCost(SortedKeys(fields), fields)
  {
    hide Len, TextLess;
    var keys := SortedKeys(fields);
    SortedWithout(fields, k, i);
    assert keys[..i] + [k] + keys[i + 1..] == keys;
    SumSplit(keys[..i], k, keys[i + 1..], fields);
  }

  lemma RemovedCost(fields: map<string, Json>, k: string)
    requires k in fields && forall x | x in fields :: FloatFree(fields[x])
    ensures SumCost(SortedKeys(fields - {k}), fields - {k}) <= SumCost(SortedKeys(fields), fields)
  {
    var keys := SortedKeys(fields);
    assert k in Elements(keys);
    var i :| 0 <= i < |keys| && keys[i] == k;
    RestCost(fields, k, i);
    SumAgrees(SortedKeys(fields - {k}), fields - {k}, fields);
  }

  lemma RemoveMember(v: Json, k: string)
    requires v.Obj? && FloatFree(v) && k in v.fields
    ensures FloatFree(Obj(v.fields - {k})) && Len(Obj(v.fields - {k})) <= Len(v)
  {
    RemovedCost(v.fields, k);
    ObjectLength(v);
    ObjectLength(Obj(v.fields - {k}));
    KeyCount(v.fields, k);
  }

  lemma SameKeysLength(v: Json, w: Json)
    requires v.Obj? && w.Obj? && FloatFree(v) && FloatFree(w) && v.fields.Keys == w.fields.Keys
    requires forall k | k in v.fields :: Len(v.fields[k]) <= Len(w.fields[k])
    ensures Len(v) <= Len(w)
  {
    assert SortedKeys(v.fields) == SortedKeys(w.fields);
    ObjectLength(v);
    ObjectLength(w);
    SumAgrees(SortedKeys(v.fields), v.fields, w.fields);
    assert |v.fields| == |v.fields.Keys| && |w.fields| == |w.fields.Keys|;
  }

  /** An object with no more keys and no longer members never encodes longer. */
  lemma {:induction false} ObjectGrows(v: Json, w: Json)
    requires v.Obj? && w.Obj? && FloatFree(v) && FloatFree(w) && v.fields.Keys <= w.fields.Keys
    requires forall k | k in v.fields :: Len(v.fields[k]) <= Len(w.fields[k])
    ensures Len(v) <= Len(w)
    decreases |w.fields|
  {
    if v.fields.Keys == w.fields.Keys {
      SameKeysLength(v, w);
    } else {
      var k :| k in w.fields.Keys && k !in v.fields.Keys;
      RemoveMember(w, k);
      KeyCount(w.fields, k);
      ObjectGrows(v, Obj(w.fields - {k}));
    }
  }

  // ----- plain strings -----

  predicate Plain(s: string) {
    forall i | 0 <= i < |s| :: s[i] as int >= 0x20 && s[i] != '\"' && s[i] != '\\'
  }

  lemma {:induction false} PlainLength(s: string)
    requires Plain(s)
    ensures |Quote(s)| == |s| + 2
  {
    PlainEscape(s);
  }

  lemma {:induction false} PlainEscape(s: string)
    requires Plain(s)
    ensures Escape(s) == s
  {
    if s != "" {
      PlainEscape(s[1..]);
      assert s == [s[0]] + s[1..];
    }
  }
}
