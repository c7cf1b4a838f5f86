/** The JSON reader the closed decoder relies on: the grammar of RFC 8259 (sections 2-7) over
    UTF-8 bytes, with duplicate names resolved to the last one and a bound on nesting. */
module JsonReader {
  import opened Decimal
  import opened Json

  /** An array or object is entered only while more than one level is left. */
  const LEVELS: nat := 128

  datatype Parsed<+T> = Parsed(value: T, rest: string) | Malformed

  predicate IsSpace(c: char) {
    c == ' ' || c == '\n' || c == '\t' || c == '\r'
  }

  function SkipSpace(s: string): (r: string)
    ensures |r| <= |s|
  {
    if s != "" && IsSpace(s[0]) then SkipSpace(s[1..]) else s
  }

  predicate At(s: string, c: char) {
    s != "" && s[0] == c
  }

  // ----- strings -----

  predicate Between(c: char, lo: int, hi: int) {
    lo <= c as int <= hi
  }

  predicate Continuation(s: string, n: nat) {
    n <= |s| && forall i | 0 <= i < n :: Between(s[i], 0x80, 0xBF)
  }

  /** Well-formed UTF-8 (section 4 of RFC 3629). */
  predicate ValidUtf8(s: string)
    decreases |s|
  {
    if s == "" then true
    else if s[0] as int < 0x80 then ValidUtf8(s[1..])
    else if Between(s[0], 0xC2, 0xDF) then Continuation(s[1..], 1) && ValidUtf8(s[2..])
    else if Between(s[0], 0xE0, 0xEF) then
      && Continuation(s[1..], 2)
      && (s[0] as int == 0xE0 ==> Between(s[1], 0xA0, 0xBF))
      && (s[0] as int == 0xED ==> Between(s[1], 0x80, 0x9F))
      && ValidUtf8(s[3..])
    else
      && Between(s[0], 0xF0, 0xF4)
      && Continuation(s[1..], 3)
      && (s[0] as int == 0xF0 ==> Between(s[1], 0x90, 0xBF))
      && (s[0] as int == 0xF4 ==> Between(s[1], 0x80, 0x8F))
      && ValidUtf8(s[4..])
  }

  /** The UTF-8 bytes of one Unicode scalar value. */
  function Utf8(n: nat): string
    requires n < 0x110000
  {
    if n < 0x80 then [n as char]
    else if n < 0x800 then [(0xC0 + n / 0x40) as char, (0x80 + n % 0x40) as char]
    else if n < 0x10000 then
      [(0xE0 + n / 0x1000) as char, (0x80 + n / 0x40 % 0x40) as char, (0x80 + n % 0x40) as char]
    else
      [(0xF0 + n / 0x40000) as char, (0x80 + n / 0x1000 % 0x40) as char,
       (0x80 + n / 0x40 % 0x40) as char, (0x80 + n % 0x40) as char]
  }

  function HexValue(c: char): int {
    if '0' <= c <= '9' then c as int - '0' as int
    else if 'a' <= c <= 'f' then c as int - 'a' as int + 10
    else if 'A' <= c <= 'F' then c as int - 'A' as int + 10
    else -1
  }

  function ParseUnit(s: string): (r: Parsed<nat>)
    ensures r.Parsed? ==> |r.rest| == |s| - 4 && r.value < 0x10000
  {
    if |s| < 4 || exists i | 0 <= i < 4 :: HexValue(s[i]) < 0 then Malformed
    else
      Parsed(HexValue(s[0]) * 0x1000 + HexValue(s[1]) * 0x100 + HexValue(s[2]) * 0x10 + HexValue(s[3]),
             s[4..])
  }

  /** The escape that follows a backslash. */
  function ParseEscape(s: string): (r: Parsed<string>)
    ensures r.Parsed? ==> |r.rest| < |s|
  {
    if s == "" then Malformed
    else if s[0] == '\"' || s[0] == '\\' || s[0] == '/' then Parsed([s[0]], s[1..])
    else if s[0] == 'b' then Parsed([8 as char], s[1..])
    else if s[0] == 't' then Parsed([9 as char], s[1..])
    else if s[0] == 'n' then Parsed([10 as char], s[1..])
    else if s[0] == 'f' then Parsed([12 as char], s[1..])
    else if s[0] == 'r' then Parsed([13 as char], s[1..])
    else if s[0] != 'u' then Malformed
    else
      var hi := ParseUnit(s[1..]);
      if hi.Malformed? then Malformed
      else if !(0xD800 <= hi.value < 0xE000) then Parsed(Utf8(hi.value), hi.rest)
      else if hi.value >= 0xDC00 || |hi.rest| < 2 || hi.rest[0] != '\\' || hi.rest[1] != 'u' then Malformed
      else
        var lo := ParseUnit(hi.rest[2..]);
        if lo.Malformed? || !(0xDC00 <= lo.value < 0xE000) then Malformed
        else Parsed(Utf8(0x10000 + (hi.value - 0xD800) * 0x400 + (lo.value - 0xDC00)), lo.rest)
  }

  function ParseChars(s: string): (r: Parsed<string>)
    ensures r.Parsed? ==> |r.rest| < |s|
    decreases |s|
  {
    if s == "" then Malformed
    else if s[0] == '\"' then Parsed("", s[1..])
    else if s[0] == '\\' then
      var e := ParseEscape(s[1..]);
      if e.Malformed? then Malformed
      else
        var t := ParseChars(e.rest);
        if t.Malformed? then Malformed else Parsed(e.value + t.value, t.rest)
    else if s[0] as int < 0x20 then Malformed
    else
      var t := ParseChars(s[1..]);
      if t.Malformed? then Malformed else Parsed([s[0]] + t.value, t.rest)
  }

  /** A string, from just after its opening quotation mark. */
  function ParseString(s: string): (r: Parsed<string>)
    ensures r.Parsed? ==> |r.rest| < |s|
  {
    var r := ParseChars(s);
    if r.Parsed? && !ValidUtf8(r.value) then Malformed else r
  }

  // ----- numbers -----

  function SkipExponent(s: string): (r: Parsed<()>)
    ensures r.Parsed? ==> |r.rest| <= |s|
  {
    if At(s, 'e') || At(s, 'E') then
      var t := if At(s[1..], '+') || At(s[1..], '-') then s[2..] else s[1..];
      if Leading(t) == 0 then Malformed else Parsed((), t[Leading(t)..])
    else Parsed((), s)
  }

  function SkipFraction(s: string): (r: Parsed<()>)
    ensures r.Parsed? ==> |r.rest| <= |s|
  {
    if At(s, '.') then
      if Leading(s[1..]) == 0 then Malformed else SkipExponent(s[1..][Leading(s[1..])..])
    else SkipExponent(s)
  }

  predicate FloatMark(s: string) {
    At(s, '.') || At(s, 'e') || At(s, 'E')
  }

  function ParseNumber(s: string): (r: Parsed<Json>)
    ensures r.Parsed? ==> |r.rest| < |s|
  {
    var negative := At(s, '-');
    var t := if negative then s[1..] else s;
    var k := Leading(t);
    if k == 0 || (t[0] == '0' && k > 1) then Malformed
    else if FloatMark(t[k..]) then
      var f := SkipFraction(t[k..]);
      if f.Malformed? then Malformed else Parsed(Float, f.rest)
    else
      var n: int := Read(t[..k]);
      if negative then Parsed(if n == 0 || -n < INT_MIN then Float else Num(-n), t[k..])
      else Parsed(if n > UINT_MAX then Float else Num(n), t[k..])
  }

  // ----- values -----

  function ParseWord(s: string, word: string, v: Json): (r: Parsed<Json>)
    requires word != ""
    ensures r.Parsed? ==> |r.rest| < |s|
  {
    if word <= s then Parsed(v, s[|word|..]) else Malformed
  }

  function ParseValue(s: string, levels: nat): (r: Parsed<Json>)
    ensures r.Parsed? ==> |r.rest| < |s|
    decreases |s|, 0
  {
    var t := SkipSpace(s);
    if t == "" then Malformed
    else if t[0] == 'n' then ParseWord(t, "null", Null)
    else if t[0] == 't' then ParseWord(t, "true", Bool(true))
    else if t[0] == 'f' then ParseWord(t, "false", Bool(false))
    else if t[0] == '\"' then
      var r := ParseString(t[1..]);
      if r.Malformed? then Malformed else Parsed(Str(r.value), r.rest)
    else if t[0] == '[' then
      if levels <= 1 then Malformed
      else if At(SkipSpace(t[1..]), ']') then Parsed(Arr([]), SkipSpace(t[1..])[1..])
      else
        var r := ParseItems(t[1..], levels - 1);
        if r.Malformed? then Malformed else Parsed(Arr(r.value), r.rest)
    else if t[0] == '{' then
      if levels <= 1 then Malformed
      else if At(SkipSpace(t[1..]), '}') then Parsed(Obj(map[]), SkipSpace(t[1..])[1..])
      else
        var r := ParseMembers(t[1..], levels - 1);
        if r.Malformed? then Malformed else Parsed(Obj(r.value), r.rest)
    else ParseNumber(t)
  }

  /** One or more items and the closing bracket. */
  function ParseItems(s: string, levels: nat): (r: Parsed<seq<Json>>)
    ensures r.Parsed? ==> |r.rest| < |s|
    decreases |s|, 1
  {
    var v := ParseValue(s, levels);
    if v.Malformed? then Malformed
    else
      var t := SkipSpace(v.rest);
      if At(t, ']') then Parsed([v.value], t[1..])
      else if !At(t, ',') then Malformed
      else
        var more := ParseItems(t[1..], levels);
        if more.Malformed? then Malformed else Parsed([v.value] + more.value, more.rest)
  }

  /** One or more members and the closing brace; the last of two equal names wins. */
  function ParseMembers(s: string, levels: nat): (r: Parsed<map<string, Json>>)
    ensures r.Parsed? ==> |r.rest| < |s|
    decreases |s|, 1
  {
    var u := SkipSpace(s);
    if !At(u, '\"') then Malformed
    else
      var key := ParseString(u[1..]);
      if key.Malformed? || !At(SkipSpace(key.rest), ':') then Malformed
      else
        var v := ParseValue(SkipSpace(key.rest)[1..], levels);
        if v.Malformed? then Malformed
        else
          var t := SkipSpace(v.rest);
          if At(t, '}') then Parsed(map[key.value := v.value], t[1..])
          else if !At(t, ',') then Malformed
          else
            var more := ParseMembers(t[1..], levels);
            if more.Malformed? then Malformed
            else Parsed(map[key.value := v.value] + more.value, more.rest)
  }

  /** The value of a whole document: trailing space only. */
  function ParseDocument(s: string): Parsed<Json> {
    var r := ParseValue(s, LEVELS);
    if r.Parsed? && SkipSpace(r.rest) == "" then r else Malformed
  }
}
