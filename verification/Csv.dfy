/** The CSV writer, against a reader for the quoting rules of section 2 of RFC 4180 with LF as the
    record break. */
module Csv {
  import opened Decimal
  import opened Options

  datatype AccessRecord = AccessRecord(ts: nat, datetime: string, op: string, name: string, process: string)

  // ----- the writer -----

  predicate IsSpecial(c: char) {
    c == ',' || c == '"' || c == '\n' || c == '\r'
  }

  predicate Plain(s: string) {
    forall i | 0 <= i < |s| :: !IsSpecial(s[i])
  }

  /** Every quote doubled. */
  function Doubled(s: string): string {
    if s == "" then "" else (if s[0] == '"' then "\"\"" else [s[0]]) + Doubled(s[1..])
  }

  function CsvEscape(s: string): string {
    if Plain(s) then s else "\"" + Doubled(s) + "\""
  }

  function Row(r: AccessRecord): seq<string> {
    [Show(r.ts), r.datetime, r.op, r.name, r.process]
  }

  const HEADER := ["ts", "datetime", "op", "name", "process"]

  /** Fields from the `i`th on, separated by commas, with the record break. */
  function Line(fields: seq<string>): string {
    if fields == [] then "\n"
    else if |fields| == 1 then CsvEscape(fields[0]) + "\n"
    else CsvEscape(fields[0]) + "," + Line(fields[1..])
  }

  function Lines(rows: seq<seq<string>>): string {
    if rows == [] then "" else Line(rows[0]) + Lines(rows[1..])
  }

  function Rows(records: seq<AccessRecord>): seq<seq<string>> {
    seq(|records|, i requires 0 <= i < |records| => Row(records[i]))
  }

  method RecordsToCsv(records: seq<AccessRecord>) returns (out: string)
    ensures out == Lines([HEADER] + Rows(records))
  {
    hide CsvEscape, Lines, Line, Rows, Row;
    out := "ts,datetime,op,name,process\n";
    HeaderLine();
    RowsSnoc(records);
    for i := 0 to |records|
      invariant out == Lines([HEADER] + Rows(records[..i]))
    {
      var r := records[i];
      var name := CsvEscape(r.name);
      var op := CsvEscape(r.op);
      var process := CsvEscape(r.process);
      var datetime := CsvEscape(r.datetime);
      RecordLine(r);
      LinesSnoc([HEADER] + Rows(records[..i]), Row(r));
      out := out + (Show(r.ts) + "," + datetime + "," + op + "," + name + "," + process + "\n");
    }
    assert records[..|records|] == records;
  }

  lemma RowsSnoc(records: seq<AccessRecord>)
    ensures [HEADER] + Rows(records[..0]) == [HEADER]
    ensures forall i | 0 <= i < |records| ::
      [HEADER] + Rows(records[..i + 1]) == [HEADER] + Rows(records[..i]) + [Row(records[i])]
  {
    assert records[..0] == [];
    forall i | 0 <= i < |records|
      ensures Rows(records[..i + 1]) == Rows(records[..i]) + [Row(records[i])]
    {
      var more, less := records[..i + 1], records[..i];
      assert forall j | 0 <= j < i :: more[j] == less[j];
    }
  }

  lemma ShowPlain(n: nat)
    ensures CsvEscape(Show(n)) == Show(n)
  {
    assert forall i | 0 <= i < |Show(n)| :: IsDigit(Show(n)[i]);
  }

  lemma LineOfFive(a: string, b: string, c: string, d: string, e: string)
    ensures Line([a, b, c, d, e]) ==
            CsvEscape(a) + "," + CsvEscape(b) + "," + CsvEscape(c) + "," + CsvEscape(d) + "," + CsvEscape(e) + "\n"
  {
    hide CsvEscape;
    assert Line([e]) == CsvEscape(e) + "\n";
    assert [d, e][1..] == [e];
    assert Line([d, e]) == CsvEscape(d) + "," + Line([e]);
    assert [c, d, e][1..] == [d, e];
    assert Line([c, d, e]) == CsvEscape(c) + "," + Line([d, e]);
    assert [b, c, d, e][1..] == [c, d, e];
    assert Line([b, c, d, e]) == CsvEscape(b) + "," + Line([c, d, e]);
    assert [a, b, c, d, e][1..] == [b, c, d, e];
    assert Line([a, b, c, d, e]) == CsvEscape(a) + "," + Line([b, c, d, e]);
    Flatten(CsvEscape(a), CsvEscape(b), CsvEscape(c), CsvEscape(d), CsvEscape(e));
  }

  lemma Flatten(a: string, b: string, c: string, d: string, e: string)
    ensures a + "," + (b + "," + (c + "," + (d + "," + (e + "\n")))) == a + "," + b + "," + c + "," + d + "," + e + "\n"
  {
  }

  lemma RecordLine(r: AccessRecord)
    ensures Line(Row(r)) == Show(r.ts) + "," + CsvEscape(r.datetime) + "," + CsvEscape(r.op) + "," + CsvEscape(r.name)
                            + "," + CsvEscape(r.process) + "\n"
  {
    hide CsvEscape;
    ShowPlain(r.ts);
    LineOfFive(Show(r.ts), r.datetime, r.op, r.name, r.process);
  }

  lemma LettersPlain(s: string)
    requires forall i | 0 <= i < |s| :: 'a' <= s[i] <= 'z'
    ensures CsvEscape(s) == s
  {
  }

  lemma HeaderText()
    ensures "ts" + "," + "datetime" + "," + "op" + "," + "name" + "," + "process" + "\n" == "ts,datetime,op,name,process\n"
  {
    assert "ts" + "," + "datetime" == "ts,datetime";
    assert "ts,datetime" + "," + "op" == "ts,datetime,op";
    assert "ts,datetime,op" + "," + "name" == "ts,datetime,op,name";
    assert "ts,datetime,op,name" + "," + "process" == "ts,datetime,op,name,process";
  }

  lemma HeaderLine()
    ensures Lines([HEADER]) == "ts,datetime,op,name,process\n"
  {
    hide CsvEscape, Line;
    LineOfFive("ts", "datetime", "op", "name", "process");
    LettersPlain("ts");
    LettersPlain("datetime");
    LettersPlain("op");
    LettersPlain("name");
    LettersPlain("process");
    HeaderText();
    assert [HEADER][1..] == [];
    assert Line(HEADER) + "" == Line(HEADER);
  }

  lemma {:induction false} LinesSnoc(rows: seq<seq<string>>, row: seq<string>)
    ensures Lines(rows + [row]) == Lines(rows) + Line(row)
  {
    hide Line;
    if rows == [] {
      assert [] + [row] == [row] && [row][1..] == [];
      assert Line(row) + "" == Line(row) && "" + Line(row) == Line(row);
    } else {
      assert (rows + [row])[1..] == rows[1..] + [row];
      LinesSnoc(rows[1..], row);
      Concats(Line(rows[0]), Lines(rows[1..]), Line(row));
    }
  }

  lemma Concats(a: string, b: string, c: string)
    ensures a + (b + c) == a + b + c
  {
  }

  // ----- the reader -----

  datatype Parsed<T> = Parsed(value: T, rest: string)

  /** What follows an opening quote, up to the closing one; a doubled quote stands for one. */
  function ReadQuoted(s: string): Option<Parsed<string>> {
    if s == "" then None
    else if s[0] == '"' then
      if |s| > 1 && s[1] == '"' then
        match ReadQuoted(s[2..])
        case None => None
        case Some(p) => Some(Parsed("\"" + p.value, p.rest))
      else Some(Parsed("", s[1..]))
    else
      match ReadQuoted(s[1..])
      case None => None
      case Some(p) => Some(Parsed([s[0]] + p.value, p.rest))
  }

  /** The number of leading characters that need no quoting. */
  function PlainLength(s: string): (n: nat)
    ensures n <= |s| && (n < |s| ==> IsSpecial(s[n]))
  {
    if s == "" || IsSpecial(s[0]) then 0 else 1 + PlainLength(s[1..])
  }

  function ReadField(s: string): (r: Option<Parsed<string>>)
    ensures r.Some? ==> |r.value.rest| <= |s|
  {
    if s != "" && s[0] == '"' then ReadQuotedBounded(s[1..])
    else Some(Parsed(s[..PlainLength(s)], s[PlainLength(s)..]))
  }

  function ReadQuotedBounded(s: string): (r: Option<Parsed<string>>)
    ensures r == ReadQuoted(s) && (r.Some? ==> |r.value.rest| < |s|)
  {
    QuotedShrinks(s);
    ReadQuoted(s)
  }

  lemma {:induction false} QuotedShrinks(s: string)
    ensures ReadQuoted(s).Some? ==> |ReadQuoted(s).value.rest| < |s|
  {
    if s != "" {
      if s[0] == '"' && |s| > 1 && s[1] == '"' { QuotedShrinks(s[2..]); } else { QuotedShrinks(s[1..]); }
    }
  }

  /** A record: fields separated by commas and ended by a line feed. */
  function ReadRecord(s: string): (r: Option<Parsed<seq<string>>>)
    ensures r.Some? ==> |r.value.rest| < |s|
    decreases |s|
  {
    match ReadField(s)
    case None => None
    case Some(f) =>
      if f.rest == "" then None
      else if f.rest[0] == '\n' then Some(Parsed([f.value], f.rest[1..]))
      else if f.rest[0] == ',' then
        match ReadRecord(f.rest[1..]) {
          case None => None
          case Some(more) => Some(Parsed([f.value] + more.value, more.rest))
        }
      else None
  }

  function ReadCsv(s: string): Option<seq<seq<string>>>
    decreases |s|
  {
    if s == "" then Some([])
    else
      match ReadRecord(s)
      case None => None
      case Some(p) =>
        match ReadCsv(p.rest)
        case None => None
        case Some(more) => Some([p.value] + more)
  }

  // ----- the round trip -----

  predicate Ends(s: string) {
    s != "" && (s[0] == ',' || s[0] == '\n')
  }

  lemma {:induction false} QuotedRoundTrip(f: string, rest: string)
    requires Ends(rest)
    ensures ReadQuoted(Doubled(f) + ("\"" + rest)) == Some(Parsed(f, rest))
  {
    var close := "\"" + rest;
    if f == "" {
      assert Doubled(f) + close == close && close[1..] == rest && close[1] == rest[0];
    } else {
      var tail := Doubled(f[1..]) + close;
      var head := if f[0] == '"' then "\"\"" else [f[0]];
      Concats(head, Doubled(f[1..]), close);
      assert head + tail == Doubled(f) + close;
      assert (head + tail)[|head|..] == tail && (head + tail)[0] == f[0] && (f[0] == '"' ==> (head + tail)[1] == '"');
      QuotedRoundTrip(f[1..], rest);
      assert [f[0]] + f[1..] == f;
    }
  }

  lemma {:induction false} PlainRoundTrip(f: string, rest: string)
    requires Plain(f) && Ends(rest)
    ensures PlainLength(f + rest) == |f|
  {
    if f == "" {
      assert f + rest == rest;
    } else {
      assert (f + rest)[1..] == f[1..] + rest && (f + rest)[0] == f[0];
      PlainRoundTrip(f[1..], rest);
    }
  }

  lemma PlainField(f: string, rest: string)
    requires Plain(f) && Ends(rest)
    ensures ReadField(f + rest) == Some(Parsed(f, rest))
  {
    PlainRoundTrip(f, rest);
    assert (f + rest)[..|f|] == f && (f + rest)[|f|..] == rest;
    assert (f + rest)[0] == if f == "" then rest[0] else f[0];
  }

  lemma QuotedField(f: string, rest: string)
    requires Ends(rest)
    ensures ReadField("\"" + Doubled(f) + "\"" + rest) == Some(Parsed(f, rest))
  {
    hide ReadQuoted, Doubled;
    QuotedRoundTrip(f, rest);
    var s := "\"" + Doubled(f) + "\"" + rest;
    FourParts("\"", Doubled(f), "\"", rest);
    assert s[1..] == Doubled(f) + ("\"" + rest);
  }

  /** A written field reads back as itself, whatever it contains. */
  lemma FieldRoundTrip(f: string, rest: string)
    requires Ends(rest)
    ensures ReadField(CsvEscape(f) + rest) == Some(Parsed(f, rest))
  {
    hide ReadField, Doubled;
    if Plain(f) {
      PlainField(f, rest);
    } else {
      QuotedField(f, rest);
    }
  }

  lemma {:induction false} RecordRoundTrip(fields: seq<string>, rest: string)
    requires fields != []
    ensures ReadRecord(Line(fields) + rest) == Some(Parsed(fields, rest))
    decreases |fields|
  {
    hide CsvEscape, ReadField;
    var first := CsvEscape(fields[0]);
    if |fields| == 1 {
      FieldRoundTrip(fields[0], "\n" + rest);
      Concats(first, "\n", rest);
      assert ("\n" + rest)[1..] == rest && [fields[0]] == fields;
    } else {
      var tail := Line(fields[1..]) + rest;
      FieldRoundTrip(fields[0], "," + tail);
      FourParts(first, ",", Line(fields[1..]), rest);
      assert ("," + tail)[1..] == tail;
      RecordRoundTrip(fields[1..], rest);
      assert [fields[0]] + fields[1..] == fields;
    }
  }

  lemma FourParts(a: string, b: string, c: string, d: string)
    ensures a + b + c + d == a + (b + (c + d))
  {
  }

  lemma {:induction false} LinesRoundTrip(rows: seq<seq<string>>)
    requires forall i | 0 <= i < |rows| :: rows[i] != []
    ensures ReadCsv(Lines(rows)) == Some(rows)
  {
    hide ReadRecord, Line;
    if rows != [] {
      RecordRoundTrip(rows[0], Lines(rows[1..]));
      LineNotEmpty(rows[0]);
      LinesRoundTrip(rows[1..]);
      assert [rows[0]] + rows[1..] == rows;
    }
  }

  lemma LineNotEmpty(fields: seq<string>)
    ensures Line(fields) != ""
  {
  }

  /** Reading what was written gives the header and then exactly the records. */
  lemma CsvRoundTrip(records: seq<AccessRecord>)
    ensures ReadCsv(Lines([HEADER] + Rows(records))) == Some([HEADER] + Rows(records))
  {
    LinesRoundTrip([HEADER] + Rows(records));
  }

  /** So the text determines the records, numbers included. */
  lemma CsvInjective(a: seq<AccessRecord>, b: seq<AccessRecord>)
    requires Lines([HEADER] + Rows(a)) == Lines([HEADER] + Rows(b))
    ensures a == b
  {
    hide Lines, ReadCsv;
    CsvRoundTrip(a);
    CsvRoundTrip(b);
    var s, t := [HEADER] + Rows(a), [HEADER] + Rows(b);
    assert |s| == |a| + 1 && |t| == |b| + 1;
    forall i | 0 <= i < |a|
      ensures a[i] == b[i]
    {
      assert s[i + 1] == Row(a[i]) && t[i + 1] == Row(b[i]);
      RowInjective(a[i], b[i]);
    }
  }

  lemma RowInjective(r: AccessRecord, q: AccessRecord)
    requires Row(r) == Row(q)
    ensures r == q
  {
    assert Row(r)[0] == Row(q)[0] && Row(r)[1] == Row(q)[1] && Row(r)[2] == Row(q)[2]
        && Row(r)[3] == Row(q)[3] && Row(r)[4] == Row(q)[4];
    ShowInjective(r.ts, q.ts);
  }

  // ----- columns and quoting -----

  /** The header is this text, and each record's value stands in the column of its name. */
  lemma RowFollowsHeader(r: AccessRecord)
    ensures Lines([HEADER]) == "ts,datetime,op,name,process\n" && |Row(r)| == |HEADER| == 5
    ensures forall i | 0 <= i < 5 ::
      && (HEADER[i] == "ts" ==> Row(r)[i] == Show(r.ts)) && (HEADER[i] == "datetime" ==> Row(r)[i] == r.datetime)
      && (HEADER[i] == "op" ==> Row(r)[i] == r.op) && (HEADER[i] == "name" ==> Row(r)[i] == r.name)
      && (HEADER[i] == "process" ==> Row(r)[i] == r.process)
  {
    hide Lines, Show;
    HeaderLine();
    assert HEADER[0] == "ts" && HEADER[1] == "datetime" && HEADER[2] == "op" && HEADER[3] == "name"
        && HEADER[4] == "process";
    assert |HEADER[0]| == 2 && |HEADER[1]| == 8 && HEADER[2][0] == 'o' && HEADER[3][0] == 'n' && |HEADER[4]| == 7;
  }

  lemma {:induction false} DoubledLength(s: string)
    ensures |Doubled(s)| == |s| + |Quotes(s)|
  {
    if s != "" {
      DoubledLength(s[1..]);
    }
  }

  /** The quotes of a field, in order. */
  function Quotes(s: string): string {
    if s == "" then "" else (if s[0] == '"' then "\"" else "") + Quotes(s[1..])
  }

  /** A field is quoted exactly when it contains a comma, a quote, a line feed or a carriage return,
      and then grows by its own quotes and the two around it. */
  lemma QuotedWhen(s: string)
    ensures CsvEscape(s) == s <==> ',' !in s && '"' !in s && '\n' !in s && '\r' !in s
    ensures CsvEscape(s) != s ==>
      var t := CsvEscape(s); |t| == |s| + |Quotes(s)| + 2 && t[0] == '"' && t[|t| - 1] == '"'
  {
    DoubledLength(s);
  }
}
