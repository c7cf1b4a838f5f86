/** Byte-string predicates shared by the validators. */
module Text {
  predicate IsLower(c: char) { 'a' <= c <= 'z' }

  predicate IsUpper(c: char) { 'A' <= c <= 'Z' }

  predicate IsAlnum(c: char) { IsLower(c) || IsUpper(c) || '0' <= c <= '9' }

  predicate IsLowerHex(c: char) { '0' <= c <= '9' || 'a' <= c <= 'f' }

  /** Non-empty, at most `max` bytes, alphanumeric or one of `extra`. */
  predicate IsLabel(s: string, max: nat, extra: string) {
    0 < |s| <= max && forall i | 0 <= i < |s| :: IsAlnum(s[i]) || s[i] in extra
  }

  function Split(s: string, separator: char): (parts: seq<string>)
    ensures parts != []
  {
    if s == "" then [""]
    else if s[0] == separator then [""] + Split(s[1..], separator)
    else
      var rest := Split(s[1..], separator);
      [[s[0]] + rest[0]] + rest[1..]
  }

  predicate Contains(s: string, part: string) {
    part <= s || (s != "" && Contains(s[1..], part))
  }

  // ----- what these mean -----

  const LOWERS := "abcdefghijklmnopqrstuvwxyz"
  const UPPERS := "ABCDEFGHIJKLMNOPQRSTUVWXYZ"
  const DIGITS := "0123456789"
  const ALPHANUMERIC := LOWERS + UPPERS + DIGITS

  /** Between one and `max` characters, each one of `allowed`. */
  predicate MadeOf(s: string, max: nat, allowed: string) {
    1 <= |s| <= max && forall i | 0 <= i < |s| :: s[i] in allowed
  }

  lemma LowerIs(c: char)
    ensures IsLower(c) <==> c in LOWERS
  {
    if IsLower(c) { assert LOWERS[c as int - 'a' as int] == c; }
  }

  lemma UpperIs(c: char)
    ensures IsUpper(c) <==> c in UPPERS
  {
    if IsUpper(c) { assert UPPERS[c as int - 'A' as int] == c; }
  }

  lemma DigitIs(c: char)
    ensures '0' <= c <= '9' <==> c in DIGITS
  {
    if '0' <= c <= '9' { assert DIGITS[c as int - '0' as int] == c; }
  }

  lemma AlnumIs(c: char)
    ensures IsAlnum(c) <==> c in ALPHANUMERIC
  {
    LowerIs(c);
    UpperIs(c);
    DigitIs(c);
  }

  lemma LowerHexIs(c: char)
    ensures IsLowerHex(c) <==> c in "0123456789abcdef"
  {
    if '0' <= c <= '9' {
      assert "0123456789abcdef"[c as int - '0' as int] == c;
    } else if 'a' <= c <= 'f' {
      assert "0123456789abcdef"[10 + (c as int - 'a' as int)] == c;
    }
  }

  /** A label is made of letters, digits and the extra characters. */
  lemma LabelIs(s: string, max: nat, extra: string)
    ensures IsLabel(s, max, extra) <==> MadeOf(s, max, ALPHANUMERIC + extra)
  {
    forall i | 0 <= i < |s|
      ensures (IsAlnum(s[i]) || s[i] in extra) <==> s[i] in ALPHANUMERIC + extra
    {
      AlnumIs(s[i]);
    }
  }

  /** `part` occurs at some index. */
  predicate OccursAt(s: string, part: string, i: nat) {
    i + |part| <= |s| && s[i..i + |part|] == part
  }

  lemma Shifted(s: string, part: string, i: nat)
    requires s != ""
    ensures OccursAt(s[1..], part, i) <==> OccursAt(s, part, i + 1)
  {
    if i + |part| <= |s| - 1 {
      assert s[1..][i..i + |part|] == s[i + 1..i + 1 + |part|];
    }
  }

  lemma {:induction false} FoundAt(s: string, part: string) returns (i: nat)
    requires Contains(s, part)
    ensures OccursAt(s, part, i)
  {
    if part <= s {
      i := 0;
    } else {
      var j := FoundAt(s[1..], part);
      Shifted(s, part, j);
      i := j + 1;
    }
  }

  lemma {:induction false} AtFound(s: string, part: string, i: nat)
    requires OccursAt(s, part, i)
    ensures Contains(s, part)
  {
    if i > 0 {
      Shifted(s, part, i - 1);
      AtFound(s[1..], part, i - 1);
    }
  }

  lemma ContainsIs(s: string, part: string)
    ensures Contains(s, part) <==> exists i: nat :: OccursAt(s, part, i)
  {
    if Contains(s, part) {
      var i := FoundAt(s, part);
    }
    if i: nat :| OccursAt(s, part, i) {
      AtFound(s, part, i);
    }
  }

  function Join(parts: seq<string>, separator: char): string
    requires parts != []
  {
    if |parts| == 1 then parts[0] else parts[0] + [separator] + Join(parts[1..], separator)
  }

  lemma {:induction false} SplitUnfolds(head: string, tail: string, separator: char)
    requires separator !in head
    ensures Split(head, separator) == [head]
    ensures Split(head + [separator] + tail, separator) == [head] + Split(tail, separator)
  {
    var s := head + [separator] + tail;
    if head == "" {
      assert s == [separator] + tail && s[1..] == tail;
    } else {
      SplitUnfolds(head[1..], tail, separator);
      assert s[1..] == head[1..] + [separator] + tail;
      assert [head[0]] + head[1..] == head;
      assert ([head[1..]] + Split(tail, separator))[1..] == Split(tail, separator);
    }
  }

  /** Splitting is the only way to write a string as separator-free parts with separators between. */
  lemma {:induction false} SplitIs(parts: seq<string>, separator: char)
    requires parts != [] && forall i | 0 <= i < |parts| :: separator !in parts[i]
    ensures Split(Join(parts, separator), separator) == parts
  {
    if |parts| == 1 {
      SplitUnfolds(parts[0], "", separator);
    } else {
      SplitUnfolds(parts[0], Join(parts[1..], separator), separator);
      SplitIs(parts[1..], separator);
    }
  }

  lemma {:induction false} SplitJoins(s: string, separator: char)
    ensures Join(Split(s, separator), separator) == s
    ensures forall i | 0 <= i < |Split(s, separator)| :: separator !in Split(s, separator)[i]
  {
    if s != "" {
      SplitJoins(s[1..], separator);
      var rest := Split(s[1..], separator);
      if s[0] == separator {
        assert ([""] + rest)[1..] == rest;
      } else {
        var first := [s[0]] + rest[0];
        assert ([first] + rest[1..])[1..] == rest[1..];
        if |rest| > 1 {
          assert first + [separator] + Join(rest[1..], separator) ==
                 [s[0]] + (rest[0] + [separator] + Join(rest[1..], separator));
        }
      }
    }
  }
}
