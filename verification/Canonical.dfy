/** `canonical_json_v1`, its buffer writer, and the closed decoder built on it. */
module Canonical {
  import opened Order
  import opened Json

  datatype Outcome<+T> = Ok(value: T) | FloatForbidden | NonCanonicalInput | InvalidJson

  /** The growable byte buffer the writer appends to. */
  class Output {
    var bytes: string

    constructor ()
      ensures bytes == ""
    {
      bytes := "";
    }

    method Extend(more: string)
      modifies this
      ensures bytes == old(bytes) + more
    {
      bytes := bytes + more;
    }
  }

  /** Appends the canonical form of `v`; refuses exactly the values holding a float. */
  method WriteCanonical(v: Json, output: Output) returns (ok: bool)
    modifies output
    ensures ok == FloatFree(v)
    ensures ok ==> output.bytes == old(output.bytes) + Encode(v)
    decreases v, 1, 0
  {
    match v
    case Null => output.Extend("null"); ok := true;
    case Bool(b) => output.Extend(if b then "true" else "false"); ok := true;
    case Num(n) => output.Extend(Integer(n)); ok := true;
    case Float => ok := false;
    case Str(s) => output.Extend(Quote(s)); ok := true;
    case Arr(items) =>
      output.Extend("[");
      ok := WriteItems(v, output);
      output.Extend("]");
      if ok {
        Around(old(output.bytes), "[", EncodeItems(items), "]");
      }
    case Obj(fields) =>
      output.Extend("{");
      ok := WriteMembers(v, output);
      output.Extend("}");
      if ok {
        Around(old(output.bytes), "{", EncodeMembers(SortedKeys(fields), v), "}");
      }
  }

  lemma Around(before: string, left: string, body: string, right: string)
    ensures before + left + body + right == before + (left + body + right)
  {
  }

  method WriteItems(v: Json, output: Output) returns (ok: bool)
    requires v.Arr?
    modifies output
    ensures ok == FloatFree(v)
    ensures ok ==> output.bytes == old(output.bytes) + EncodeItems(v.items)
    decreases v, 0, 1
  {
    var items := v.items;
    ok := true;
    assert items[..0] == [];
    for i := 0 to |items|
      invariant ok && forall j | 0 <= j < i :: FloatFree(items[j])
      invariant output.bytes == old(output.bytes) + EncodeItems(items[..i])
    {
      if i > 0 {
        output.Extend(",");
      }
      ok := WriteCanonical(items[i], output);
      if !ok {
        return;
      }
      ItemsAppend(items, i);
    }
    assert items[..|items|] == items;
  }

  method WriteMembers(v: Json, output: Output) returns (ok: bool)
    requires v.Obj?
    modifies output
    ensures ok == FloatFree(v)
    ensures ok ==> output.bytes == old(output.bytes) + EncodeMembers(SortedKeys(v.fields), v)
    decreases v, 0, 1
  {
    var keys := SortedKeys(v.fields);
    ghost var pieces: seq<string> := [];
    ok := true;
    for i := 0 to |keys|
      invariant ok && |pieces| == i
      invariant AreMembers(pieces, keys, v.fields)
      invariant output.bytes == old(output.bytes) + Join(pieces)
    {
      assert keys[i] in Elements(keys);
      ghost var before := output.bytes;
      if i > 0 {
        output.Extend(",");
      }
      ghost var piece;
      ok, piece := WriteMember(keys[i], v, output);
      if !ok {
        return;
      }
      assert output.bytes == before + (if i > 0 then "," else "") + piece;
      JoinAppend(old(output.bytes), pieces, piece);
      AreMembersGrow(pieces, piece, keys, v.fields);
      pieces := pieces + [piece];
    }
    AllWritten(keys, v, pieces);
  }

  method WriteMember(key: string, v: Json, output: Output) returns (ok: bool, ghost piece: string)
    requires v.Obj? && key in v.fields
    modifies output
    ensures ok == FloatFree(v.fields[key])
    ensures ok ==> IsMember(piece, key, v.fields) && output.bytes == old(output.bytes) + piece
    decreases v, 0, 0
  {
    output.Extend(Quote(key));
    output.Extend(":");
    ok := WriteCanonical(v.fields[key], output);
    piece := "";
    if ok {
      piece := Quote(key) + ":" + Encode(v.fields[key]);
      Regroup(old(output.bytes), Quote(key), ":", Encode(v.fields[key]));
    }
  }

  ghost predicate IsMember(piece: string, key: string, fields: map<string, Json>) {
    key in fields && FloatFree(fields[key]) && piece == Quote(key) + ":" + Encode(fields[key])
  }

  ghost predicate AreMembers(pieces: seq<string>, keys: seq<string>, fields: map<string, Json>) {
    |pieces| <= |keys| && forall j | 0 <= j < |pieces| :: IsMember(pieces[j], keys[j], fields)
  }

  lemma AreMembersGrow(pieces: seq<string>, piece: string, keys: seq<string>, fields: map<string, Json>)
    requires AreMembers(pieces, keys, fields) && |pieces| < |keys|
    requires IsMember(piece, keys[|pieces|], fields)
    ensures AreMembers(pieces + [piece], keys, fields)
  {
  }

  function Join(pieces: seq<string>): string {
    if pieces == [] then ""
    else if |pieces| == 1 then pieces[0]
    else pieces[0] + "," + Join(pieces[1..])
  }

  lemma Regroup(a: string, b: string, c: string, d: string)
    ensures a + b + c + d == a + (b + c + d)
  {
  }

  lemma {:induction false} JoinLast(pieces: seq<string>, piece: string)
    ensures Join(pieces + [piece]) == Join(pieces) + ((if pieces == [] then "" else ",") + piece)
    decreases |pieces|
  {
    if |pieces| > 1 {
      JoinLast(pieces[1..], piece);
      assert (pieces + [piece])[1..] == pieces[1..] + [piece];
    } else if |pieces| == 1 {
      assert (pieces + [piece])[1..] == [piece];
    }
  }

  lemma JoinAppend(before: string, pieces: seq<string>, piece: string)
    ensures before + Join(pieces + [piece]) ==
            before + Join(pieces) + (if pieces == [] then "" else ",") + piece
  {
    JoinLast(pieces, piece);
    Regroup(before, Join(pieces), if pieces == [] then "" else ",", piece);
  }

  lemma {:induction false} MembersAreJoined(keys: seq<string>, v: Json, pieces: seq<string>)
    requires v.Obj? && FloatFree(v) && Elements(keys) <= v.fields.Keys && |pieces| == |keys|
    requires forall j | 0 <= j < |keys| :: IsMember(pieces[j], keys[j], v.fields)
    ensures Join(pieces) == EncodeMembers(keys, v)
    decreases |keys|
  {
    if keys != [] {
      assert keys[0] in Elements(keys);
      assert Elements(keys[1..]) <= Elements(keys);
      assert IsMember(pieces[0], keys[0], v.fields);
      MembersAreJoined(keys[1..], v, pieces[1..]);
    }
  }

  lemma AllWritten(keys: seq<string>, v: Json, pieces: seq<string>)
    requires v.Obj? && keys == SortedKeys(v.fields) && |pieces| == |keys|
    requires AreMembers(pieces, keys, v.fields)
    ensures FloatFree(v) && Join(pieces) == EncodeMembers(keys, v)
  {
    forall k | k in v.fields ensures FloatFree(v.fields[k]) {
      assert k in Elements(keys);
    }
    MembersAreJoined(keys, v, pieces);
  }

  lemma {:induction false} ItemsAppend(items: seq<Json>, i: nat)
    requires i < |items| && forall j | 0 <= j <= i :: FloatFree(items[j])
    ensures EncodeItems(items[..i + 1]) ==
            EncodeItems(items[..i]) + (if i > 0 then "," else "") + Encode(items[i])
  {
    if i > 0 {
      ItemsAppend(items[1..], i - 1);
      assert items[..i + 1][1..] == items[1..][..i];
      assert items[..i][1..] == items[1..][..i - 1];
    }
  }

}
