/** The deterministic JSON format `canonical_json_v1` and its closed decoder.

    A string is a sequence of bytes, one character a byte; bytes from 0x80 up are copied by
    the writer unchanged, so only the reader asks whether they form UTF-8. */
module Json {
  import opened Order
  import opened Decimal

  /** `Float` keeps only that a number was not a 64-bit integer: the format refuses it. */
  datatype Json =
    | Null
    | Bool(b: bool)
    | Num(n: int)
    | Float
    | Str(s: string)
    | Arr(items: seq<Json>)
    | Obj(fields: map<string, Json>)

  const INT_MIN := -0x8000_0000_0000_0000
  const UINT_MAX := 0xFFFF_FFFF_FFFF_FFFF

  predicate FloatFree(v: Json)
    decreases v
  {
    match v
    case Float => false
    case Arr(items) => forall i | 0 <= i < |items| :: FloatFree(items[i])
    case Obj(fields) => forall k | k in fields :: FloatFree(fields[k])
    case _ => true
  }

  // ----- writing -----

  function Hex(n: nat): char
    requires n < 16
  {
    if n < 10 then '0' + n as char else 'a' + (n - 10) as char
  }

  function EscapeByte(c: char): string {
    if c == '\"' then "\\\""
    else if c == '\\' then "\\\\"
    else if c as int == 8 then "\\b"
    else if c as int == 9 then "\\t"
    else if c as int == 10 then "\\n"
    else if c as int == 12 then "\\f"
    else if c as int == 13 then "\\r"
    else if c as int < 0x20 then "\\u00" + [Hex(c as int / 16), Hex(c as int % 16)]
    else [c]
  }

  function Escape(s: string): string {
    if s == "" then "" else EscapeByte(s[0]) + Escape(s[1..])
  }

  function Quote(s: string): string {
    "\"" + Escape(s) + "\""
  }

  function Integer(n: int): string {
    if n < 0 then "-" + Show(-n) else Show(n)
  }

  function SortedKeys(fields: map<string, Json>): (keys: seq<string>)
    ensures Elements(keys) == fields.Keys && |keys| == |fields.Keys|
  {
    TextStrictTotal();
    SortSet(fields.Keys, TextLess)
  }

  lemma SortedKeysSorted(fields: map<string, Json>)
    ensures Sorted(SortedKeys(fields), TextLess)
  {
    TextStrictTotal();
    SortSetSorted(fields.Keys, TextLess);
  }

  function Encode(v: Json): string
    requires FloatFree(v)
    decreases v, 1, 0
  {
    match v
    case Null => "null"
    case Bool(b) => if b then "true" else "false"
    case Num(n) => Integer(n)
    case Str(s) => Quote(s)
    case Arr(items) => "[" + EncodeItems(items) + "]"
    case Obj(fields) => "{" + EncodeMembers(SortedKeys(fields), v) + "}"
  }

  function EncodeItems(items: seq<Json>): string
    requires forall i | 0 <= i < |items| :: FloatFree(items[i])
    decreases items, 0, 0
  {
    if items == [] then ""
    else if |items| == 1 then Encode(items[0])
    else Encode(items[0]) + "," + EncodeItems(items[1..])
  }

  /** The members of the object `v` under `keys`, comma separated. */
  function EncodeMembers(keys: seq<string>, v: Json): string
    requires v.Obj? && Elements(keys) <= v.fields.Keys && FloatFree(v)
    decreases v, 0, |keys|
  {
    if keys == [] then ""
    else
      assert keys[0] in Elements(keys);
      assert Elements(keys[1..]) <= Elements(keys);
      var first := Quote(keys[0]) + ":" + Encode(v.fields[keys[0]]);
      if |keys| == 1 then first else first + "," + EncodeMembers(keys[1..], v)
  }
}
