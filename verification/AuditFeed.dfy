/** The audit line feed: newline-terminated records of bounded size, read in chunks, and the poll
    loop that resumes from a cursor. A character stands for one byte. */
module AuditFeed {
  /** The largest record, counting its newline. */
  const MAX_RECORD: nat := 64 * 1024

  // ----- records -----

  predicate Whole(s: string) {
    '\n' !in s
  }

  /** The number of bytes up to and including the first newline. */
  function LineEnd(s: string): (n: nat)
    requires '\n' in s
    ensures 0 < n <= |s| && s[n - 1] == '\n' && Whole(s[..n - 1])
  {
    if s[0] == '\n' then 1 else
      var n := 1 + LineEnd(s[1..]);
      assert s[..n - 1] == [s[0]] + s[1..][..n - 2];
      n
  }

  /** Every newline-terminated record, in order. */
  function Complete(s: string): seq<string>
    decreases |s|
  {
    if Whole(s) then [] else [s[..LineEnd(s)]] + Complete(s[LineEnd(s)..])
  }

  function Short(records: seq<string>): seq<string> {
    if records == [] then []
    else (if |records[0]| <= MAX_RECORD then [records[0]] else []) + Short(records[1..])
  }

  /** The records that are projected: complete and not oversized. */
  function Wanted(s: string): seq<string> {
    Short(Complete(s))
  }

  /** Records are projected in order, each exactly when it has at most 65536 bytes. */
  lemma {:induction false} ShortKeeps(records: seq<string>, last: string)
    ensures Short(records + [last]) == Short(records) + (if |last| <= 65536 then [last] else [])
  {
    if records == [] {
      assert [] + [last] == [last] && [last][1..] == [];
    } else {
      assert (records + [last])[1..] == records[1..] + [last];
      ShortKeeps(records[1..], last);
    }
  }

  function Concat(parts: seq<string>): string {
    if parts == [] then "" else parts[0] + Concat(parts[1..])
  }

  predicate IsLine(r: string) {
    r != "" && r[|r| - 1] == '\n' && Whole(r[..|r| - 1])
  }

  lemma WholeAt(s: string, n: nat)
    requires n <= |s| && Whole(s[..n])
    ensures forall i | 0 <= i < n :: s[i] != '\n'
  {
    forall i | 0 <= i < n
      ensures s[i] != '\n'
    {
      assert s[..n][i] == s[i];
    }
  }

  lemma OneLineEnd(s: string, m: nat, n: nat)
    requires 0 < m <= |s| && s[m - 1] == '\n' && Whole(s[..m - 1])
    requires 0 < n <= |s| && s[n - 1] == '\n' && Whole(s[..n - 1])
    ensures m == n
  {
    WholeAt(s, m - 1);
    WholeAt(s, n - 1);
  }

  lemma LineEndOf(line: string, rest: string)
    requires IsLine(line)
    ensures '\n' in line + rest && LineEnd(line + rest) == |line|
  {
    var s := line + rest;
    assert s[|line| - 1] == '\n' && s[..|line| - 1] == line[..|line| - 1];
    OneLineEnd(s, LineEnd(s), |line|);
  }

  /** The only way to cut the input into lines and a tail without a newline. */
  lemma {:induction false} CompleteIsUnique(lines: seq<string>, tail: string)
    requires Whole(tail) && forall i | 0 <= i < |lines| :: IsLine(lines[i])
    ensures Complete(Concat(lines) + tail) == lines
  {
    if lines == [] {
      assert Concat(lines) + tail == tail;
    } else {
      var rest := Concat(lines[1..]) + tail;
      assert Concat(lines) + tail == lines[0] + rest;
      LineEndOf(lines[0], rest);
      assert (lines[0] + rest)[|lines[0]|..] == rest && (lines[0] + rest)[..|lines[0]|] == lines[0];
      CompleteIsUnique(lines[1..], tail);
    }
  }

  lemma FirstIsLine(s: string)
    requires '\n' in s
    ensures IsLine(s[..LineEnd(s)])
  {
    var n := LineEnd(s);
    assert s[..n][..n - 1] == s[..n - 1];
  }

  lemma {:induction false} CompleteLines(s: string)
    ensures forall r | r in Complete(s) :: IsLine(r)
    decreases |s|
  {
    if '\n' in s {
      FirstIsLine(s);
      CompleteLines(s[LineEnd(s)..]);
    }
  }

  lemma ConcatUnfolds(s: string)
    requires '\n' in s
    ensures var n := LineEnd(s);
      s == s[..n] + s[n..] && Concat(Complete(s)) == s[..n] + Concat(Complete(s[n..]))
  {
    var n := LineEnd(s);
    var rest := Complete(s[n..]);
    assert Complete(s) == [s[..n]] + rest && ([s[..n]] + rest)[1..] == rest;
  }

  /** The records and a tail without a newline make up the input. */
  lemma {:induction false} CompleteCuts(s: string)
    ensures Concat(Complete(s)) <= s && Whole(s[|Concat(Complete(s))|..])
    decreases |s|
  {
    if Whole(s) {
      assert s[0..] == s;
    } else {
      hide Complete, Concat;
      var n := LineEnd(s);
      CompleteCuts(s[n..]);
      ConcatUnfolds(s);
      CutStep(s[..n], s[n..], Concat(Complete(s[n..])));
    }
  }

  lemma CutStep(head: string, tail: string, lines: string)
    requires lines <= tail
    ensures head + lines <= head + tail && (head + tail)[|head + lines|..] == tail[|lines|..]
  {
  }

  /** `carry` is what was read of the current record; `chunk` ends it at its first newline. */
  lemma EndOfRecord(carry: string, chunk: string, rest: string)
    requires Whole(carry) && '\n' in chunk
    ensures var n := LineEnd(chunk);
      Wanted(carry + chunk + rest) ==
      (if |carry| + n <= MAX_RECORD then [carry + chunk[..n]] else []) + Wanted(chunk[n..] + rest)
  {
    var n := LineEnd(chunk);
    var line := carry + chunk[..n];
    assert line[..|line| - 1] == carry + chunk[..n - 1];
    var tail := chunk[n..] + rest;
    assert carry + chunk + rest == line + tail;
    LineEndOf(line, tail);
    assert (line + tail)[..|line|] == line && (line + tail)[|line|..] == tail;
    assert Complete(line + tail) == [line] + Complete(tail);
    assert ([line] + Complete(tail))[1..] == Complete(tail);
  }

  /** After `out`, what is left to project is in `carry` and `rest`. */
  predicate Projected(all: string, out: seq<string>, carry: string, rest: string) {
    Whole(carry) && Wanted(all) == out + Wanted(carry + rest)
  }

  function IfShort(record: string): seq<string> {
    if |record| <= MAX_RECORD then [record] else []
  }

  lemma Drop(chunk: string, rest: string, n: nat)
    requires n <= |chunk|
    ensures (chunk + rest)[n..] == chunk[n..] + rest
  {
  }

  /** The step of the loop that ends a record. */
  lemma LastPart(all: string, out: seq<string>, carry: string, chunk: string, rest: string)
    requires Projected(all, out, carry, chunk + rest) && '\n' in chunk
    ensures var n := LineEnd(chunk);
      Projected(all, out + IfShort(carry + chunk[..n]), "", (chunk + rest)[n..])
  {
    hide Wanted;
    var n := LineEnd(chunk);
    Regroup(carry, chunk, rest);
    EndOfRecord(carry, chunk, rest);
    Drop(chunk, rest, n);
    var after := (chunk + rest)[n..];
    assert "" + after == after;
    Associates(out, IfShort(carry + chunk[..n]), Wanted(after));
  }

  /** The step of the loop that only carries on. */
  lemma InnerPart(all: string, out: seq<string>, carry: string, chunk: string, rest: string)
    requires Projected(all, out, carry, chunk + rest) && Whole(chunk)
    ensures Projected(all, out, carry + chunk, (chunk + rest)[|chunk|..])
  {
    hide Wanted;
    Regroup(carry, chunk, rest);
    assert (chunk + rest)[|chunk|..] == rest;
  }

  lemma NothingLeft(all: string, out: seq<string>, carry: string)
    requires Projected(all, out, carry, "")
    ensures out == Wanted(all)
  {
    assert carry + "" == carry;
  }

  lemma Associates<T>(a: seq<T>, b: seq<T>, c: seq<T>)
    ensures a + (b + c) == a + b + c
  {
  }

  lemma Regroup(a: string, b: string, c: string)
    ensures a + (b + c) == (a + b) + c
  {
  }

  // ----- reading in chunks -----

  /** A buffered reader over a file; each fill gives as many bytes as the environment pleases. */
  class Reader {
    const file: string
    var pos: nat
    var sizes: seq<nat>

    constructor (file: string, sizes: seq<nat>)
      ensures this.file == file && pos == 0
    {
      this.file := file;
      this.sizes := sizes;
      pos := 0;
    }

    predicate Valid()
      reads this
    {
      pos <= |file|
    }

    function Rest(): string
      requires Valid()
      reads this
    {
      file[pos..]
    }

    /** Some of the bytes that follow: none only at the end. */
    method FillBuf() returns (chunk: string)
      requires Valid()
      modifies this`sizes
      ensures chunk <= Rest() && (chunk == "" <==> Rest() == "")
    {
      if pos == |file| {
        return "";
      }
      var most := |file| - pos;
      var n := most;
      if sizes != [] {
        n := if sizes[0] < most then sizes[0] + 1 else most;
        sizes := sizes[1..];
      }
      chunk := file[pos..pos + n];
    }

    method Consume(n: nat)
      requires Valid() && n <= |Rest()|
      modifies this`pos
      ensures Valid() && pos == old(pos) + n && Rest() == old(Rest())[n..]
    {
      pos := pos + n;
    }

    /** Reads up to `limit` bytes, and none only at the end. */
    method Read(limit: nat) returns (bytes: string)
      requires Valid() && limit > 0
      modifies this`pos, this`sizes
      ensures Valid() && pos == old(pos) + |bytes| && bytes == file[old(pos)..pos] && |bytes| <= limit
      ensures bytes == "" <==> old(pos) == |file|
    {
      var chunk := FillBuf();
      bytes := if |chunk| <= limit then chunk else chunk[..limit];
      Consume(|bytes|);
    }

    method Rewind()
      modifies this`pos
      ensures Valid() && pos == 0
    {
      pos := 0;
    }
  }

  /** Projects exactly the complete records that fit, in order, however the input is cut. */
  method Emit(input: Reader) returns (out: seq<string>)
    requires input.Valid()
    modifies input
    ensures input.Valid() && out == Wanted(old(input.Rest()))
  {
    hide Wanted;
    var record, oversized := "", false;
    out := [];
    ghost var carry := "";
    ghost var all := input.Rest();
    assert Projected(all, out, carry, input.Rest()) by { assert carry + input.Rest() == all; }
    while true
      invariant input.Valid() && Projected(all, out, carry, input.Rest())
      invariant oversized == (|carry| > MAX_RECORD) && (!oversized ==> record == carry)
      decreases |input.file| - input.pos
    {
      var chunk := input.FillBuf();
      if chunk == "" {
        NothingLeft(all, out, carry);
        return;
      }
      ghost var rest := input.Rest()[|chunk|..];
      assert input.Rest() == chunk + rest;
      var ends := '\n' in chunk;
      var consumed := if ends then LineEnd(chunk) else |chunk|;
      if ends {
        LastPart(all, out, carry, chunk, rest);
      } else {
        InnerPart(all, out, carry, chunk, rest);
        assert chunk[..consumed] == chunk;
      }
      carry := carry + chunk[..consumed];
      if !oversized {
        if |record| + consumed > MAX_RECORD {
          record, oversized := "", true;
        } else {
          record := record + chunk[..consumed];
        }
      }
      input.Consume(consumed);
      if ends {
        assert out + [] == out;
        if !oversized {
          out := out + [record];
        }
        record, oversized, carry := "", false, "";
      }
    }
  }
}
