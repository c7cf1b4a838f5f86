/** Following the audit file: each poll validates the consumed prefix, projects what follows, and
    remembers the end of the last complete record. */
module AuditFollow {
  import opened AuditFeed
  import opened Options

  type Hash = string -> string

  datatype Cursor = Cursor(identity: string, offset: nat, digest: string)

  /** A projected record with the cursor printed beside it. */
  datatype Entry = Entry(record: string, cursor: Cursor)

  /** The file as one poll finds it. */
  datatype Snapshot = Snapshot(identity: string, content: string)

  function CursorAt(hash: Hash, s: Snapshot, offset: nat): Cursor
    requires offset <= |s.content|
  {
    Cursor(s.identity, offset, hash(s.content[..offset]))
  }

  // ----- what one poll projects -----

  function Next(file: string, from: nat): (next: nat)
    requires from <= |file| && '\n' in file[from..]
    ensures from < next <= |file|
  {
    from + LineEnd(file[from..])
  }

  /** The records that end after `from`, each with the cursor of its end. */
  function Entries(hash: Hash, s: Snapshot, from: nat): seq<Entry>
    requires from <= |s.content|
    decreases |s.content| - from
  {
    if Whole(s.content[from..]) then []
    else
      var next := Next(s.content, from);
      OneEntry(hash, s, from, next) + Entries(hash, s, next)
  }

  function OneEntry(hash: Hash, s: Snapshot, from: nat, next: nat): seq<Entry>
    requires from <= next <= |s.content|
  {
    if next - from <= MAX_RECORD then [Entry(s.content[from..next], CursorAt(hash, s, next))] else []
  }

  /** The end of the last complete record after `from`. */
  function End(file: string, from: nat): (end: nat)
    requires from <= |file|
    ensures from <= end <= |file|
    decreases |file| - from
  {
    if Whole(file[from..]) then from else End(file, Next(file, from))
  }

  /** Where a poll starts: at the cursor if it is of this file and its prefix, else at zero. */
  function Resume(hash: Hash, s: Snapshot, cursor: Option<Cursor>): (from: nat)
    ensures from <= |s.content|
  {
    if cursor.Some? && cursor.value.identity == s.identity && cursor.value.offset <= |s.content|
       && hash(s.content[..cursor.value.offset]) == cursor.value.digest
    then cursor.value.offset else 0
  }

  function After(hash: Hash, s: Snapshot, from: nat, end: nat, cursor: Option<Cursor>): Option<Cursor>
    requires from <= end <= |s.content|
  {
    if end > from then Some(CursorAt(hash, s, end)) else cursor
  }

  function Poll(hash: Hash, s: Snapshot, cursor: Option<Cursor>): (seq<Entry>, Option<Cursor>) {
    var from := Resume(hash, s, cursor);
    (Entries(hash, s, from), After(hash, s, from, End(s.content, from), cursor))
  }

  /** Polling snapshot after snapshot. */
  function Polls(hash: Hash, snapshots: seq<Snapshot>, cursor: Option<Cursor>): (seq<Entry>, Option<Cursor>) {
    if snapshots == [] then ([], cursor)
    else
      var (before, reached) := Polls(hash, snapshots[..|snapshots| - 1], cursor);
      var (now, next) := Poll(hash, snapshots[|snapshots| - 1], reached);
      (before + now, next)
  }

  // ----- growing files -----

  predicate Growing(snapshots: seq<Snapshot>) {
    forall i, j | 0 <= i < j < |snapshots| ::
      snapshots[i].identity == snapshots[j].identity && snapshots[i].content <= snapshots[j].content
  }

  predicate Grows(s: Snapshot, t: Snapshot) {
    s.identity == t.identity && s.content <= t.content
  }

  lemma NextGrows(s: string, t: string, from: nat)
    requires s <= t && from <= |s| && '\n' in s[from..]
    ensures '\n' in t[from..] && Next(t, from) == Next(s, from)
  {
    var n := LineEnd(s[from..]);
    var more := t[|s|..];
    assert t == s + more;
    Drop(s, more, from);
    FirstIsLine(s[from..]);
    var line, after := s[from..][..n], s[from..][n..];
    assert s[from..] == line + after;
    Regroup(line, after, more);
    LineEndOf(line, after + more);
  }

  lemma SamePrefix(hash: Hash, s: Snapshot, t: Snapshot, from: nat, next: nat)
    requires Grows(s, t) && from <= next <= |s.content|
    ensures OneEntry(hash, t, from, next) == OneEntry(hash, s, from, next)
    ensures CursorAt(hash, t, next) == CursorAt(hash, s, next)
  {
    assert t.content[..next] == s.content[..next] && t.content[from..next] == s.content[from..next];
  }

  /** What a grown file projects is what it projected before, then what follows the last end. */
  lemma {:induction false} EntriesGrow(hash: Hash, s: Snapshot, t: Snapshot, from: nat)
    requires Grows(s, t) && from <= |s.content|
    ensures Entries(hash, t, from) == Entries(hash, s, from) + Entries(hash, t, End(s.content, from))
    ensures End(t.content, from) == End(t.content, End(s.content, from))
    decreases |s.content| - from
  {
    if Whole(s.content[from..]) {
      assert [] + Entries(hash, t, from) == Entries(hash, t, from);
    } else {
      var next := Next(s.content, from);
      NextGrows(s.content, t.content, from);
      SamePrefix(hash, s, t, from, next);
      EntriesGrow(hash, s, t, next);
      Associates(OneEntry(hash, s, from, next), Entries(hash, s, next), Entries(hash, t, End(s.content, from)));
    }
  }

  /** The cursor stands for `offset` in this file and in every file that grows from it. */
  predicate StandsAt(hash: Hash, s: Snapshot, offset: nat, cursor: Option<Cursor>) {
    offset <= |s.content| && (cursor == Some(CursorAt(hash, s, offset)) || (cursor == None && offset == 0))
  }

  lemma StandsResumes(hash: Hash, s: Snapshot, t: Snapshot, offset: nat, cursor: Option<Cursor>)
    requires Grows(s, t) && StandsAt(hash, s, offset, cursor)
    ensures StandsAt(hash, t, offset, cursor) && Resume(hash, t, cursor) == offset
  {
    SamePrefix(hash, s, t, offset, offset);
  }

  lemma PollStands(hash: Hash, s: Snapshot, offset: nat, cursor: Option<Cursor>)
    requires StandsAt(hash, s, offset, cursor)
    ensures Poll(hash, s, cursor).0 == Entries(hash, s, offset)
    ensures StandsAt(hash, s, End(s.content, offset), Poll(hash, s, cursor).1)
  {
    StandsResumes(hash, s, s, offset, cursor);
  }

  /** However often a growing file is polled, the polls together project exactly what one reading
      of its last snapshot projects, each record once, and the cursor stands at its last end. */
  lemma {:induction false} PollsOnce(hash: Hash, snapshots: seq<Snapshot>, offset: nat, cursor: Option<Cursor>)
    requires snapshots != [] && Growing(snapshots) && StandsAt(hash, snapshots[0], offset, cursor)
    ensures var last := snapshots[|snapshots| - 1];
      && offset <= |last.content|
      && Polls(hash, snapshots, cursor).0 == Entries(hash, last, offset)
      && StandsAt(hash, last, End(last.content, offset), Polls(hash, snapshots, cursor).1)
  {
    var n := |snapshots|;
    var last := snapshots[n - 1];
    var front := snapshots[..n - 1];
    if n == 1 {
      assert front == [];
      PollStands(hash, last, offset, cursor);
      assert [] + Entries(hash, last, offset) == Entries(hash, last, offset);
    } else {
      PollsOnce(hash, front, offset, cursor);
      var before := front[n - 2];
      assert Grows(before, last);
      var (entries, reached) := Polls(hash, front, cursor);
      var end := End(before.content, offset);
      StandsResumes(hash, before, last, end, reached);
      PollStands(hash, last, end, reached);
      EntriesGrow(hash, before, last, offset);
    }
  }

  /** What follows a printed cursor is what a feed resumed from it projects. */
  lemma {:induction false} CursorCuts(hash: Hash, s: Snapshot, from: nat, j: nat)
    requires from <= |s.content| && j < |Entries(hash, s, from)|
    ensures var c := Entries(hash, s, from)[j].cursor;
      && c.offset <= |s.content| && c == CursorAt(hash, s, c.offset)
      && Entries(hash, s, from)[..j + 1] + Entries(hash, s, c.offset) == Entries(hash, s, from)
    decreases |s.content| - from
  {
    var next := Next(s.content, from);
    var one := OneEntry(hash, s, from, next);
    var rest := Entries(hash, s, next);
    if j < |one| {
      assert Entries(hash, s, from)[..j + 1] == one;
    } else {
      var k := j - |one|;
      CursorCuts(hash, s, next, k);
      assert Entries(hash, s, from)[j] == rest[k];
      assert Entries(hash, s, from)[..j + 1] == one + rest[..k + 1];
      Associates(one, rest[..k + 1], Entries(hash, s, rest[k].cursor.offset));
    }
  }

  lemma ResumedEntries(hash: Hash, stop: Snapshot, last: Snapshot, from: nat, j: nat)
    requires Grows(stop, last) && from <= |stop.content| && j < |Entries(hash, stop, from)|
    ensures var c := Entries(hash, stop, from)[j].cursor;
      && c.offset <= |stop.content| && c == CursorAt(hash, stop, c.offset)
      && Entries(hash, stop, from)[..j + 1] + Entries(hash, last, c.offset) == Entries(hash, last, from)
  {
    var printed := Entries(hash, stop, from);
    EntriesGrow(hash, stop, last, from);
    var more := Entries(hash, last, End(stop.content, from));
    assert (printed + more)[..j + 1] == printed[..j + 1] && (printed + more)[j] == printed[j];
    CursorCuts(hash, stop, from, j);
    CursorCuts(hash, last, from, j);
  }

  /** A feed that starts at the beginning or at any cursor of the file, is stopped after any printed
      entry and resumed from its cursor, on a file that only grew in between: the two feeds together
      project every record after the start exactly once. */
  lemma {:induction false} ResumedOnce(hash: Hash, first: seq<Snapshot>, second: seq<Snapshot>, from: nat,
                                       start: Option<Cursor>, j: nat)
    requires first != [] && second != [] && Growing(first) && Growing(second)
    requires Grows(first[|first| - 1], second[0])
    requires StandsAt(hash, first[0], from, start) && j < |Polls(hash, first, start).0|
    ensures var printed, last := Polls(hash, first, start).0, second[|second| - 1];
      && from <= |last.content|
      && printed[..j + 1] + Polls(hash, second, Some(printed[j].cursor)).0 == Entries(hash, last, from)
  {
    var stop, last := first[|first| - 1], second[|second| - 1];
    PollsOnce(hash, first, from, start);
    assert Grows(stop, last);
    ResumedEntries(hash, stop, last, from, j);
    var c := Entries(hash, stop, from)[j].cursor;
    SamePrefix(hash, stop, second[0], c.offset, c.offset);
    PollsOnce(hash, second, c.offset, Some(c));
  }

  /** And the cursor printed then stands where it was printed, so feeds resume from resumed feeds. */
  lemma PrintedStands(hash: Hash, snapshots: seq<Snapshot>, from: nat, start: Option<Cursor>, j: nat)
    requires snapshots != [] && Growing(snapshots) && StandsAt(hash, snapshots[0], from, start)
    requires j < |Polls(hash, snapshots, start).0|
    ensures var c := Polls(hash, snapshots, start).0[j].cursor;
      StandsAt(hash, snapshots[|snapshots| - 1], c.offset, Some(c))
  {
    PollsOnce(hash, snapshots, from, start);
    CursorCuts(hash, snapshots[|snapshots| - 1], from, j);
  }

  // ----- cursors of another file, or of one that was rewritten -----

  /** A poll goes on at its cursor exactly when that names this file, lies within it, and its digest
      is the one of the file's bytes before it; any other cursor restarts at the first byte. */
  lemma ResumesWhen(hash: Hash, s: Snapshot, c: Cursor)
    ensures var from := Resume(hash, s, Some(c));
      && (from == c.offset > 0 <==>
          c.offset > 0 && c.identity == s.identity && c.offset <= |s.content| && c.digest == hash(s.content[..c.offset]))
      && (from != c.offset ==> from == 0)
    ensures Resume(hash, s, None) == 0
  {
  }

  /** After a rotation or a rewrite the whole file is projected, and the cursor moves to it with its
      first complete record. */
  lemma RestartProjectsAll(hash: Hash, s: Snapshot, c: Cursor)
    requires c.identity != s.identity || c.offset > |s.content| || c.digest != hash(s.content[..c.offset])
    ensures Records(Poll(hash, s, Some(c)).0) == Wanted(s.content)
    ensures Poll(hash, s, Some(c)).1 == if Whole(s.content) then Some(c) else Some(CursorAt(hash, s, End(s.content, 0)))
  {
    ResumesWhen(hash, s, c);
    EntriesAreWanted(hash, s, 0);
    assert s.content[0..] == s.content;
  }

  /** The cursor that a feed has reached which came to this file with another file's cursor. */
  ghost predicate Reaches(hash: Hash, s: Snapshot, foreign: Cursor, reached: Option<Cursor>) {
    var end := End(s.content, 0);
    reached == if end == 0 then Some(foreign) else Some(CursorAt(hash, s, end))
  }

  lemma ReachedPoll(hash: Hash, before: Snapshot, last: Snapshot, foreign: Cursor, reached: Option<Cursor>)
    requires Grows(before, last) && foreign.identity != last.identity && Reaches(hash, before, foreign, reached)
    ensures Poll(hash, last, reached).0 == Entries(hash, last, End(before.content, 0))
    ensures Reaches(hash, last, foreign, Poll(hash, last, reached).1)
  {
    var end := End(before.content, 0);
    EntriesGrow(hash, before, last, 0);
    if end > 0 {
      StandsResumes(hash, before, last, end, reached);
    }
  }

  /** A feed that comes to a new, growing file with the cursor of the old one projects every record of
      the new file exactly once, however often it polls. */
  lemma {:induction false} RotatedOnce(hash: Hash, snapshots: seq<Snapshot>, foreign: Cursor)
    requires snapshots != [] && Growing(snapshots) && foreign.identity != snapshots[0].identity
    ensures var last := snapshots[|snapshots| - 1];
      && Polls(hash, snapshots, Some(foreign)).0 == Entries(hash, last, 0)
      && Reaches(hash, last, foreign, Polls(hash, snapshots, Some(foreign)).1)
  {
    hide Poll, Reaches, Entries, End;
    var n := |snapshots|;
    var last := snapshots[n - 1];
    var front := snapshots[..n - 1];
    if n == 1 {
      assert front == [];
      ForeignPoll(hash, last, foreign);
      assert [] + Entries(hash, last, 0) == Entries(hash, last, 0);
    } else {
      RotatedOnce(hash, front, foreign);
      var before := front[n - 2];
      assert Grows(before, last);
      ReachedPoll(hash, before, last, foreign, Polls(hash, front, Some(foreign)).1);
      EntriesGrow(hash, before, last, 0);
    }
  }

  lemma ForeignPoll(hash: Hash, s: Snapshot, foreign: Cursor)
    requires foreign.identity != s.identity
    ensures Poll(hash, s, Some(foreign)).0 == Entries(hash, s, 0)
    ensures Reaches(hash, s, foreign, Poll(hash, s, Some(foreign)).1)
  {
  }

  // ----- the same records as a piped feed -----

  function Records(entries: seq<Entry>): seq<string> {
    if entries == [] then [] else [entries[0].record] + Records(entries[1..])
  }

  lemma {:induction false} RecordsConcat(a: seq<Entry>, b: seq<Entry>)
    ensures Records(a + b) == Records(a) + Records(b)
  {
    if a == [] {
      assert a + b == b;
    } else {
      assert (a + b)[1..] == a[1..] + b;
      RecordsConcat(a[1..], b);
    }
  }

  /** Followed and piped feeds project the same records. */
  lemma {:induction false} EntriesAreWanted(hash: Hash, s: Snapshot, from: nat)
    requires from <= |s.content|
    ensures Records(Entries(hash, s, from)) == Wanted(s.content[from..])
    decreases |s.content| - from
  {
    var rest := s.content[from..];
    if '\n' in rest {
      var next := Next(s.content, from);
      EntriesAreWanted(hash, s, next);
      RecordsConcat(OneEntry(hash, s, from, next), Entries(hash, s, next));
      assert rest[LineEnd(rest)..] == s.content[next..] && rest[..LineEnd(rest)] == s.content[from..next];
      WantedStep(rest);
    }
  }

  lemma WantedStep(s: string)
    requires '\n' in s
    ensures Wanted(s) == IfShort(s[..LineEnd(s)]) + Wanted(s[LineEnd(s)..])
  {
    var n := LineEnd(s);
    assert Complete(s) == [s[..n]] + Complete(s[n..]);
    assert ([s[..n]] + Complete(s[n..]))[1..] == Complete(s[n..]);
  }

  // ----- the loops -----

  const BUFFER: nat := 8192

  /** Reads the consumed prefix through a bounded buffer. */
  method ReadPrefix(input: Reader, want: nat) returns (hashed: string)
    requires input.Valid() && input.pos == 0 && want <= |input.file|
    modifies input
    ensures input.Valid() && input.pos == want && hashed == input.file[..want]
  {
    hashed := "";
    var remaining: nat := want;
    while remaining > 0
      invariant input.Valid() && input.pos + remaining == want && hashed == input.file[..input.pos]
      decreases remaining
    {
      var bytes := input.Read(if remaining < BUFFER then remaining else BUFFER);
      hashed := hashed + bytes;
      remaining := remaining - |bytes|;
    }
  }

  /** `start` is where the current record begins; everything before it is dealt with. */
  ghost predicate Following(hash: Hash, s: Snapshot, from: nat, start: nat, out: seq<Entry>) {
    && from <= start <= |s.content|
    && Entries(hash, s, from) == out + Entries(hash, s, start)
    && End(s.content, from) == End(s.content, start)
  }

  lemma NextIs(file: string, start: nat, pos: nat, n: nat)
    requires start <= pos && 0 < n && pos + n <= |file|
    requires Whole(file[start..pos]) && IsLine(file[pos..pos + n])
    ensures '\n' in file[start..] && Next(file, start) == pos + n
  {
    var head, part := file[start..pos], file[pos..pos + n];
    var line := file[start..pos + n];
    assert line == head + part;
    assert line[..|line| - 1] == head + part[..n - 1];
    assert file[start..] == line + file[pos + n..];
    LineEndOf(line, file[pos + n..]);
  }

  lemma FollowLine(hash: Hash, s: Snapshot, from: nat, start: nat, out: seq<Entry>, pos: nat, n: nat)
    requires Following(hash, s, from, start, out) && start <= pos && pos + n <= |s.content|
    requires Whole(s.content[start..pos]) && 0 < n && IsLine(s.content[pos..pos + n])
    ensures Following(hash, s, from, pos + n, out + OneEntry(hash, s, start, pos + n))
  {
    hide Entries, End, OneEntry, IsLine, Next;
    NextIs(s.content, start, pos, n);
    EntriesStep(hash, s, start, pos + n);
    Associates(out, OneEntry(hash, s, start, pos + n), Entries(hash, s, pos + n));
  }

  lemma EntriesStep(hash: Hash, s: Snapshot, start: nat, next: nat)
    requires start <= |s.content| && '\n' in s.content[start..] && Next(s.content, start) == next
    ensures Entries(hash, s, start) == OneEntry(hash, s, start, next) + Entries(hash, s, next)
    ensures End(s.content, start) == End(s.content, next)
  {
  }

  lemma FollowDone(hash: Hash, s: Snapshot, from: nat, start: nat, out: seq<Entry>)
    requires Following(hash, s, from, start, out) && Whole(s.content[start..])
    ensures out == Entries(hash, s, from) && End(s.content, from) == start
  {
    assert out + [] == out;
  }

  lemma Slices(file: string, start: nat, pos: nat, n: nat, chunk: string)
    requires start <= pos <= |file| && chunk <= file[pos..] && n <= |chunk|
    ensures pos + n <= |file| && file[pos..pos + n] == chunk[..n]
    ensures file[start..pos + n] == file[start..pos] + chunk[..n]
    ensures file[..pos + n] == file[..pos] + chunk[..n]
  {
    assert chunk[..n] == file[pos..][..n];
  }

  method PollFile(hash: Hash, s: Snapshot, input: Reader, cursor: Option<Cursor>)
    returns (out: seq<Entry>, next: Option<Cursor>)
    requires input.Valid() && input.pos == 0 && input.file == s.content
    modifies input
    ensures (out, next) == Poll(hash, s, cursor)
  {
    var hashed, offset := "", 0;
    if cursor.Some? && cursor.value.identity == s.identity && cursor.value.offset <= |s.content| {
      hashed := ReadPrefix(input, cursor.value.offset);
      if hash(hashed) == cursor.value.digest {
        offset := cursor.value.offset;
      }
    }
    if offset == 0 {
      input.Rewind();
      hashed := "";
    }
    assert offset == Resume(hash, s, cursor);
    out, next := ProjectRest(hash, s, input, cursor, hashed);
  }

  /** `record` is what was read since `start`, unless that is already too long. */
  ghost predicate Carrying(file: string, start: nat, offset: nat, record: string, oversized: bool) {
    && start <= offset <= |file| && Whole(file[start..offset])
    && oversized == (offset - start > MAX_RECORD) && record == (if oversized then "" else file[start..offset])
  }

  /** The record with one more part, given up once it is too long. */
  function Longer(record: string, oversized: bool, part: string): (string, bool) {
    if oversized then (record, true)
    else if |record| + |part| > MAX_RECORD then ("", true)
    else (record + part, false)
  }

  /** The state of the loop: what is dealt with, what is carried, and the cursor so far. */
  ghost predicate Looping(hash: Hash, s: Snapshot, from: nat, cursor: Option<Cursor>, start: nat, offset: nat,
                          out: seq<Entry>, next: Option<Cursor>, record: string, oversized: bool, hashed: string) {
    && Following(hash, s, from, start, out) && Carrying(s.content, start, offset, record, oversized)
    && next == After(hash, s, from, start, cursor) && hashed == s.content[..offset]
  }

  lemma LoopStarts(hash: Hash, s: Snapshot, from: nat, cursor: Option<Cursor>)
    requires from <= |s.content|
    ensures Looping(hash, s, from, cursor, from, from, [], cursor, "", false, s.content[..from])
  {
    assert [] + Entries(hash, s, from) == Entries(hash, s, from);
  }

  lemma LoopGoesOn(hash: Hash, s: Snapshot, from: nat, cursor: Option<Cursor>, start: nat, offset: nat,
                   out: seq<Entry>, next: Option<Cursor>, record: string, oversized: bool, hashed: string, chunk: string)
    requires Looping(hash, s, from, cursor, start, offset, out, next, record, oversized, hashed)
    requires offset <= |s.content| && chunk <= s.content[offset..] && Whole(chunk)
    ensures var (r, o) := Longer(record, oversized, chunk);
      Looping(hash, s, from, cursor, start, offset + |chunk|, out, next, r, o, hashed + chunk)
  {
    hide Following, After;
    Slices(s.content, start, offset, |chunk|, chunk);
    assert chunk[..|chunk|] == chunk;
  }

  lemma FollowBounds(hash: Hash, s: Snapshot, from: nat, start: nat, out: seq<Entry>)
    requires Following(hash, s, from, start, out)
    ensures from <= start <= |s.content|
  {
  }

  lemma LoopEndsRecord(hash: Hash, s: Snapshot, from: nat, cursor: Option<Cursor>, start: nat, offset: nat,
                       out: seq<Entry>, next: Option<Cursor>, record: string, oversized: bool, hashed: string, chunk: string)
    requires Looping(hash, s, from, cursor, start, offset, out, next, record, oversized, hashed)
    requires offset <= |s.content| && chunk <= s.content[offset..] && '\n' in chunk
    ensures var n := LineEnd(chunk);
      var (r, o) := Longer(record, oversized, chunk[..n]);
      var reached := Cursor(s.identity, offset + n, hash(hashed + chunk[..n]));
      Looping(hash, s, from, cursor, offset + n, offset + n, out + (if o then [] else [Entry(r, reached)]),
              Some(reached), "", false, hashed + chunk[..n])
  {
    hide Entries, End, IsLine, LineEnd, Following;
    FollowBounds(hash, s, from, start, out);
    var n := LineEnd(chunk);
    Slices(s.content, start, offset, n, chunk);
    FollowChunk(hash, s, from, start, out, offset, chunk);
    var end := offset + n;
    var (r, o) := Longer(record, oversized, chunk[..n]);
    var reached := Cursor(s.identity, end, hash(hashed + chunk[..n]));
    assert reached == CursorAt(hash, s, end) && s.content[end..end] == "";
    assert OneEntry(hash, s, start, end) == if o then [] else [Entry(r, reached)];
  }

  lemma LoopDone(hash: Hash, s: Snapshot, from: nat, cursor: Option<Cursor>, start: nat,
                 out: seq<Entry>, next: Option<Cursor>, record: string, oversized: bool, hashed: string)
    requires Looping(hash, s, from, cursor, start, |s.content|, out, next, record, oversized, hashed)
    ensures out == Entries(hash, s, from) && next == After(hash, s, from, End(s.content, from), cursor)
  {
    assert s.content[start..|s.content|] == s.content[start..];
    FollowDone(hash, s, from, start, out);
  }

  method ProjectRest(hash: Hash, s: Snapshot, input: Reader, cursor: Option<Cursor>, prefix: string)
    returns (out: seq<Entry>, next: Option<Cursor>)
    requires input.Valid() && input.file == s.content && prefix == s.content[..input.pos]
    modifies input
    ensures var from := old(input.pos);
      out == Entries(hash, s, from) && next == After(hash, s, from, End(s.content, from), cursor)
  {
    hide Looping, LineEnd, Longer, Entries, End, After;
    var hashed, offset := prefix, input.pos;
    ghost var from: nat, start: nat := input.pos, input.pos;
    var record, oversized := "", false;
    out, next := [], cursor;
    LoopStarts(hash, s, from, cursor);
    while true
      invariant input.Valid() && offset == input.pos
      invariant Looping(hash, s, from, cursor, start, offset, out, next, record, oversized, hashed)
      decreases |s.content| - offset
    {
      var chunk := input.FillBuf();
      if chunk == "" {
        LoopDone(hash, s, from, cursor, start, out, next, record, oversized, hashed);
        return;
      }
      var ends := '\n' in chunk;
      var count := if ends then LineEnd(chunk) else |chunk|;
      if ends {
        LoopEndsRecord(hash, s, from, cursor, start, offset, out, next, record, oversized, hashed, chunk);
      } else {
        LoopGoesOn(hash, s, from, cursor, start, offset, out, next, record, oversized, hashed, chunk);
        assert chunk[..count] == chunk;
      }
      hashed := hashed + chunk[..count];
      offset := offset + count;
      record, oversized := Accumulate(record, oversized, chunk[..count]);
      input.Consume(count);
      if ends {
        var reached := Cursor(s.identity, offset, hash(hashed));
        out := out + (if oversized then [] else [Entry(record, reached)]);
        next := Some(reached);
        record, oversized, start := "", false, offset;
      }
    }
  }

  method Accumulate(record: string, oversized: bool, part: string) returns (longer: string, tooLong: bool)
    ensures (longer, tooLong) == Longer(record, oversized, part)
  {
    longer, tooLong := record, oversized;
    if !oversized {
      if |record| + |part| > MAX_RECORD {
        longer, tooLong := "", true;
      } else {
        longer := record + part;
      }
    }
  }

  lemma FollowChunk(hash: Hash, s: Snapshot, from: nat, start: nat, out: seq<Entry>, pos: nat, chunk: string)
    requires Following(hash, s, from, start, out) && start <= pos <= |s.content| && Whole(s.content[start..pos])
    requires chunk <= s.content[pos..] && '\n' in chunk
    ensures var n := LineEnd(chunk);
      pos + n <= |s.content| && Following(hash, s, from, pos + n, out + OneEntry(hash, s, start, pos + n))
  {
    hide Following, IsLine, OneEntry;
    Slices(s.content, start, pos, LineEnd(chunk), chunk);
    FirstIsLine(chunk);
    FollowLine(hash, s, from, start, out, pos, LineEnd(chunk));
  }

  method FollowFile(hash: Hash, snapshots: seq<Snapshot>, sizes: seq<seq<nat>>, resume: Option<Cursor>)
    returns (out: seq<Entry>, cursor: Option<Cursor>)
    requires |sizes| == |snapshots|
    ensures (out, cursor) == Polls(hash, snapshots, resume)
  {
    out, cursor := [], resume;
    for i := 0 to |snapshots|
      invariant (out, cursor) == Polls(hash, snapshots[..i], resume)
    {
      assert snapshots[..i + 1][..i] == snapshots[..i];
      var input := new Reader(snapshots[i].content, sizes[i]);
      var now, next := PollFile(hash, snapshots[i], input, cursor);
      out, cursor := out + now, next;
    }
    assert snapshots[..|snapshots|] == snapshots;
  }
}
