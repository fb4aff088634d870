/** The CSV dialect of the export/import feature: `csvEscape` for writing fields and the
    `parseCsv` state machine for reading them back. */
module Csv {

  // ---------------------------------------------------------------- writing

  /** Whether `csvEscape` quotes `s`: it contains a comma, a line feed or a double quote
      (a carriage return alone does not count). */
  predicate NeedsQuoting(s: string)
  {
    ',' in s || '\n' in s || '"' in s
  }

  /** `s.replace(/"/g, '""')`. */
  function DoubleQuotes(s: string): (r: string)
    ensures '"' !in s ==> r == s
    ensures |r| >= |s|
  {
    if s == [] then []
    else (if s[0] == '"' then "\"\"" else [s[0]]) + DoubleQuotes(s[1..])
  }

  /** `csvEscape`. */
  function CsvEscape(s: string): (r: string)
    ensures !NeedsQuoting(s) ==> r == s
    ensures NeedsQuoting(s) ==> |r| >= |s| + 2 && r[0] == '"' && r[|r| - 1] == '"'
  {
    var out := DoubleQuotes(s);
    if NeedsQuoting(s) then "\"" + out + "\"" else out
  }

  /** One CSV line: the escaped fields joined by commas. */
  function RowLine(row: seq<string>): string
  {
    if |row| == 0 then ""
    else if |row| == 1 then CsvEscape(row[0])
    else CsvEscape(row[0]) + "," + RowLine(row[1..])
  }

  /** The CSV text: the lines joined by line feeds. */
  function CsvText(rows: seq<seq<string>>): string
  {
    if |rows| == 0 then ""
    else if |rows| == 1 then RowLine(rows[0])
    else RowLine(rows[0]) + "\n" + CsvText(rows[1..])
  }

  // ---------------------------------------------------------------- reading

  /** The variables of `parseCsv` other than the position: the field being read, the fields
      of the current record, the finished records and whether a quoted section is open. */
  datatype ParserState = ParserState(field: string, cur: seq<string>, rows: seq<seq<string>>, inQuotes: bool)

  const Start := ParserState("", [], [], false)

  /** What a line break does: it closes the record unless nothing has been read for it. */
  function EndRecord(st: ParserState): ParserState
  {
    if |st.field| > 0 || |st.cur| > 0 then ParserState("", [], st.rows + [st.cur + [st.field]], st.inQuotes)
    else st
  }

  /** One turn of the `parseCsv` loop: how many characters it consumes and the state after. */
  datatype Step = Step(consumed: nat, next: ParserState)

  function Advance(rest: string, st: ParserState): (s: Step)
    requires rest != []
    ensures 1 <= s.consumed <= |rest|
  {
    var ch := rest[0];
    var following := |rest| > 1 && rest[1] == if ch == '"' then '"' else '\n';
    if st.inQuotes then
      if ch == '"' then
        if following then Step(2, st.(field := st.field + "\"")) else Step(1, st.(inQuotes := false))
      else Step(1, st.(field := st.field + [ch]))
    else if ch == '"' then Step(1, st.(inQuotes := true))
    else if ch == ',' then Step(1, st.(cur := st.cur + [st.field], field := ""))
    else if ch == '\n' then Step(1, EndRecord(st))
    else if ch == '\r' then Step(if following then 2 else 1, EndRecord(st))
    else Step(1, st.(field := st.field + [ch]))
  }

  /** The records `parseCsv` returns once the rest of the text is `rest` and it is in `st`. */
  function ParseFrom(rest: string, st: ParserState): seq<seq<string>>
    decreases |rest|
  {
    if rest == [] then EndRecord(st).rows
    else
      var s := Advance(rest, st);
      ParseFrom(rest[s.consumed..], s.next)
  }

  /** `parseCsv(text)`. */
  function ParseText(text: string): seq<seq<string>>
  {
    ParseFrom(text, Start)
  }

  /** `parseCsv`: one pass over the text, one or two characters per step. */
  method ParseCsv(text: string) returns (rows: seq<seq<string>>)
    ensures rows == ParseText(text)
  {
    rows := [];
    var i := 0;
    var field := "";
    var inQuotes := false;
    var cur: seq<string> := [];
    while i < |text|
      invariant 0 <= i <= |text|
      invariant ParseFrom(text[i..], ParserState(field, cur, rows, inQuotes)) == ParseText(text)
      decreases |text| - i
    {
      var ch := text[i];
      assert text[i..][1..] == text[i + 1..];
      i := i + 1;
      if inQuotes {
        if ch == '"' {
          if i < |text| && text[i] == '"' {
            assert text[i..][1..] == text[i + 1..];
            field := field + "\"";
            i := i + 1;
          } else {
            inQuotes := false;
          }
        } else {
          field := field + [ch];
        }
      } else {
        if ch == '"' {
          inQuotes := true;
        } else if ch == ',' {
          cur := cur + [field];
          field := "";
        } else if ch == '\n' || ch == '\r' {
          if ch == '\r' && i < |text| && text[i] == '\n' {
            assert text[i..][1..] == text[i + 1..];
            i := i + 1;
          }
          if |field| > 0 || |cur| > 0 {
            cur := cur + [field];
            rows := rows + [cur];
            cur := [];
            field := "";
          }
        } else {
          field := field + [ch];
        }
      }
    }
    if |field| > 0 || |cur| > 0 {
      cur := cur + [field];
      rows := rows + [cur];
    }
  }

  // ---------------------------------------------------------------- single steps

  /** Inside quotes, `""` is one literal quote. */
  lemma DoubledQuoteStep(tail: string, field: string, cur: seq<string>, rows: seq<seq<string>>)
    ensures ParseFrom("\"\"" + tail, ParserState(field, cur, rows, true))
         == ParseFrom(tail, ParserState(field + "\"", cur, rows, true))
  {
    var text := "\"\"" + tail;
    assert text[0] == '"' && text[1] == '"' && text[2..] == tail;
  }

  /** Inside quotes, any character but `"` is taken as it is, line breaks and commas included. */
  lemma QuotedCharStep(c: char, tail: string, field: string, cur: seq<string>, rows: seq<seq<string>>)
    requires c != '"'
    ensures ParseFrom([c] + tail, ParserState(field, cur, rows, true))
         == ParseFrom(tail, ParserState(field + [c], cur, rows, true))
  {
    var text := [c] + tail;
    assert text[0] == c && text[1..] == tail;
  }

  /** A quote not followed by another closes the quoted section. */
  lemma CloseQuoteStep(rest: string, field: string, cur: seq<string>, rows: seq<seq<string>>)
    requires rest == [] || rest[0] != '"'
    ensures ParseFrom("\"" + rest, ParserState(field, cur, rows, true))
         == ParseFrom(rest, ParserState(field, cur, rows, false))
  {
    var text := "\"" + rest;
    assert text[0] == '"' && text[1..] == rest;
    assert |text| > 1 ==> text[1] == rest[0];
  }

  /** An opening quote at the start of a field opens a quoted section. */
  lemma OpenQuoteStep(body: string, cur: seq<string>, rows: seq<seq<string>>)
    ensures ParseFrom("\"" + body, ParserState("", cur, rows, false))
         == ParseFrom(body, ParserState("", cur, rows, true))
  {
    var text := "\"" + body;
    assert text[0] == '"' && text[1..] == body;
  }

  /** Outside quotes, an ordinary character is appended to the field. */
  lemma PlainCharStep(c: char, tail: string, field: string, cur: seq<string>, rows: seq<seq<string>>)
    requires c != '"' && c != ',' && c != '\n' && c != '\r'
    ensures ParseFrom([c] + tail, ParserState(field, cur, rows, false))
         == ParseFrom(tail, ParserState(field + [c], cur, rows, false))
  {
    var text := [c] + tail;
    assert text[0] == c && text[1..] == tail;
  }

  /** Outside quotes, a comma ends the field. */
  lemma CommaStep(tail: string, field: string, cur: seq<string>, rows: seq<seq<string>>)
    ensures ParseFrom("," + tail, ParserState(field, cur, rows, false))
         == ParseFrom(tail, ParserState("", cur + [field], rows, false))
  {
    var text := "," + tail;
    assert text[0] == ',' && text[1..] == tail;
  }

  /** Outside quotes, a line feed ends the record. */
  lemma LineFeedStep(tail: string, st: ParserState)
    requires !st.inQuotes
    ensures ParseFrom("\n" + tail, st) == ParseFrom(tail, EndRecord(st))
  {
    var text := "\n" + tail;
    assert text[0] == '\n' && text[1..] == tail;
  }

  lemma Regroup(a: string, b: string, c: string, d: string)
    ensures a + b + c + d == a + (b + c + d)
  {
  }

  lemma RegroupRight(a: string, b: string, c: string, d: string)
    ensures a + b + c + d == a + (b + (c + d))
  {
  }

  // ---------------------------------------------------------------- round trip

  /** Inside quotes, the doubled text of `f` followed by the closing quote reads as `f`. */
  lemma {:induction false} QuotedBody(f: string, rest: string, field: string, cur: seq<string>, rows: seq<seq<string>>)
    requires rest == [] || rest[0] != '"'
    ensures ParseFrom(DoubleQuotes(f) + "\"" + rest, ParserState(field, cur, rows, true))
         == ParseFrom(rest, ParserState(field + f, cur, rows, false))
    decreases |f|
  {
    if f == [] {
      assert DoubleQuotes(f) + "\"" + rest == "\"" + rest;
      CloseQuoteStep(rest, field, cur, rows);
      assert field + f == field;
    } else {
      QuotedBody(f[1..], rest, field + [f[0]], cur, rows);
      QuotedCons(f, rest, field, cur, rows);
    }
  }

  /** The step of `QuotedBody` for the first character of `f`. */
  lemma QuotedCons(f: string, rest: string, field: string, cur: seq<string>, rows: seq<seq<string>>)
    requires f != []
    requires ParseFrom(DoubleQuotes(f[1..]) + "\"" + rest, ParserState(field + [f[0]], cur, rows, true))
          == ParseFrom(rest, ParserState(field + [f[0]] + f[1..], cur, rows, false))
    ensures ParseFrom(DoubleQuotes(f) + "\"" + rest, ParserState(field, cur, rows, true))
         == ParseFrom(rest, ParserState(field + f, cur, rows, false))
  {
    var piece := if f[0] == '"' then "\"\"" else [f[0]];
    var tail := DoubleQuotes(f[1..]) + "\"" + rest;
    assert DoubleQuotes(f) == piece + DoubleQuotes(f[1..]);
    Regroup(piece, DoubleQuotes(f[1..]), "\"", rest);
    assert field + [f[0]] + f[1..] == field + f;
    if f[0] == '"' {
      DoubledQuoteStep(tail, field, cur, rows);
      assert field + "\"" == field + [f[0]];
    } else {
      QuotedCharStep(f[0], tail, field, cur, rows);
    }
  }

  /** Outside quotes, a field without `"`, `,`, line feed or carriage return is read as is. */
  lemma {:induction false} PlainBody(f: string, rest: string, field: string, cur: seq<string>, rows: seq<seq<string>>)
    requires !NeedsQuoting(f) && '\r' !in f
    ensures ParseFrom(f + rest, ParserState(field, cur, rows, false))
         == ParseFrom(rest, ParserState(field + f, cur, rows, false))
    decreases |f|
  {
    if f == [] {
      assert f + rest == rest;
      assert field + f == field;
    } else {
      assert f + rest == [f[0]] + (f[1..] + rest);
      PlainCharStep(f[0], f[1..] + rest, field, cur, rows);
      assert !NeedsQuoting(f[1..]) && '\r' !in f[1..] by {
        assert forall x :: x in f[1..] ==> x in f;
      }
      PlainBody(f[1..], rest, field + [f[0]], cur, rows);
      assert field + [f[0]] + f[1..] == field + f;
    }
  }

  /** An escaped field followed by a separator (or the end) is read back as the field. */
  lemma FieldRoundTrip(f: string, rest: string, cur: seq<string>, rows: seq<seq<string>>)
    requires '\r' !in f
    requires rest == [] || rest[0] != '"'
    ensures ParseFrom(CsvEscape(f) + rest, ParserState("", cur, rows, false))
         == ParseFrom(rest, ParserState(f, cur, rows, false))
  {
    assert "" + f == f;
    if NeedsQuoting(f) {
      var body := DoubleQuotes(f);
      OpenQuoteStep(body + "\"" + rest, cur, rows);
      Regroup("\"", body, "\"", rest);
      QuotedBody(f, rest, "", cur, rows);
    } else {
      PlainBody(f, rest, "", cur, rows);
    }
  }

  predicate NoCarriageReturn(row: seq<string>)
  {
    forall k :: 0 <= k < |row| ==> '\r' !in row[k]
  }

  /** A line of fields followed by a line feed (or the end) leaves the last field open and
      the others collected. */
  lemma {:induction false} RowRoundTrip(row: seq<string>, rest: string, cur: seq<string>, rows: seq<seq<string>>)
    requires |row| >= 1 && NoCarriageReturn(row)
    requires rest == [] || rest[0] == '\n'
    ensures ParseFrom(RowLine(row) + rest, ParserState("", cur, rows, false))
         == ParseFrom(rest, ParserState(row[|row| - 1], cur + row[..|row| - 1], rows, false))
    decreases |row|
  {
    if |row| == 1 {
      RowSingle(row, rest, cur, rows);
    } else {
      NoCarriageReturnTail(row);
      var t := row[1..];
      RowRoundTrip(t, rest, cur + [row[0]], rows);
      RowCons(row, t, rest, cur, rows);
    }
  }

  /** The case of `RowRoundTrip` for a line of one field. */
  lemma RowSingle(row: seq<string>, rest: string, cur: seq<string>, rows: seq<seq<string>>)
    requires |row| == 1 && '\r' !in row[0]
    requires rest == [] || rest[0] == '\n'
    ensures ParseFrom(RowLine(row) + rest, ParserState("", cur, rows, false))
         == ParseFrom(rest, ParserState(row[|row| - 1], cur + row[..|row| - 1], rows, false))
  {
    FieldRoundTrip(row[0], rest, cur, rows);
    assert cur + row[..0] == cur;
  }

  lemma NoCarriageReturnTail(row: seq<string>)
    requires |row| >= 1 && NoCarriageReturn(row)
    ensures '\r' !in row[0] && NoCarriageReturn(row[1..])
  {
    assert forall k :: 0 <= k < |row| - 1 ==> row[1..][k] == row[k + 1];
  }

  /** The step of `RowRoundTrip` for the first field of a line of several. */
  lemma RowCons(row: seq<string>, t: seq<string>, rest: string, cur: seq<string>, rows: seq<seq<string>>)
    requires |row| >= 2 && '\r' !in row[0] && t == row[1..]
    requires ParseFrom(RowLine(t) + rest, ParserState("", cur + [row[0]], rows, false))
          == ParseFrom(rest, ParserState(t[|t| - 1], cur + [row[0]] + t[..|t| - 1], rows, false))
    ensures ParseFrom(RowLine(row) + rest, ParserState("", cur, rows, false))
         == ParseFrom(rest, ParserState(row[|row| - 1], cur + row[..|row| - 1], rows, false))
  {
    RowHead(row, t, rest, cur, rows);
    AllButLast(cur, row, t);
  }

  /** The first field of a line of several, with its comma, is read into `cur`. */
  lemma RowHead(row: seq<string>, t: seq<string>, rest: string, cur: seq<string>, rows: seq<seq<string>>)
    requires |row| >= 2 && '\r' !in row[0] && t == row[1..]
    ensures ParseFrom(RowLine(row) + rest, ParserState("", cur, rows, false))
         == ParseFrom(RowLine(t) + rest, ParserState("", cur + [row[0]], rows, false))
  {
    var more := RowLine(t) + rest;
    RowLineCons(row);
    RegroupRight(CsvEscape(row[0]), ",", RowLine(t), rest);
    CommaFirst(more);
    FieldRoundTrip(row[0], "," + more, cur, rows);
    CommaStep(more, row[0], cur, rows);
  }

  lemma RowLineCons(row: seq<string>)
    requires |row| >= 2
    ensures RowLine(row) == CsvEscape(row[0]) + "," + RowLine(row[1..])
  {
  }

  lemma CommaFirst(more: string)
    ensures ("," + more)[0] == ','
  {
  }

  lemma AllButLast<T>(cur: seq<T>, row: seq<T>, t: seq<T>)
    requires |row| >= 2 && t == row[1..]
    ensures cur + [row[0]] + t[..|t| - 1] == cur + row[..|row| - 1]
    ensures t[|t| - 1] == row[|row| - 1]
  {
    assert row[..|row| - 1] == [row[0]] + t[..|t| - 1];
  }

  /** The rows the round trip can carry: non-empty, not a single empty field, no carriage
      return in any field. */
  predicate Writable(rows: seq<seq<string>>)
  {
    forall k :: 0 <= k < |rows| ==> |rows[k]| >= 1 && rows[k] != [""] && NoCarriageReturn(rows[k])
  }

  /** A writable row, once its line is read, is a record with something in it. */
  lemma OpenRecord(row: seq<string>, done: seq<seq<string>>)
    requires |row| >= 1 && row != [""]
    ensures var open := ParserState(row[|row| - 1], [] + row[..|row| - 1], done, false);
      EndRecord(open) == ParserState("", [], done + [row], false)
  {
    var n := |row|;
    assert [] + row[..n - 1] + [row[n - 1]] == row;
    if n == 1 {
      assert row == [row[0]];
    }
  }

  lemma LastLine(row: seq<string>, done: seq<seq<string>>)
    requires |row| >= 1 && row != [""] && NoCarriageReturn(row)
    ensures ParseFrom(RowLine(row), ParserState("", [], done, false)) == done + [row]
  {
    RowRoundTrip(row, [], [], done);
    assert RowLine(row) + [] == RowLine(row);
    OpenRecord(row, done);
  }

  lemma LineThenBreak(row: seq<string>, more: string, done: seq<seq<string>>)
    requires |row| >= 1 && row != [""] && NoCarriageReturn(row)
    ensures ParseFrom(RowLine(row) + "\n" + more, ParserState("", [], done, false))
         == ParseFrom(more, ParserState("", [], done + [row], false))
  {
    var n := |row|;
    var open := ParserState(row[n - 1], [] + row[..n - 1], done, false);
    RowRoundTrip(row, "\n" + more, [], done);
    assert RowLine(row) + "\n" + more == RowLine(row) + ("\n" + more);
    OpenRecord(row, done);
    assert Advance("\n" + more, open) == Step(1, EndRecord(open));
    assert ("\n" + more)[1..] == more;
  }

  lemma {:induction false} RowsRoundTrip(rs: seq<seq<string>>, done: seq<seq<string>>)
    requires |rs| >= 1 && Writable(rs)
    ensures ParseFrom(CsvText(rs), ParserState("", [], done, false)) == done + rs
    decreases |rs|
  {
    if |rs| == 1 {
      LastLine(rs[0], done);
      assert done + rs == done + [rs[0]];
    } else {
      assert Writable(rs[1..]) by {
        assert forall k :: 0 <= k < |rs| - 1 ==> rs[1..][k] == rs[k + 1];
      }
      RowsRoundTrip(rs[1..], done + [rs[0]]);
      RowsCons(rs, done);
    }
  }

  /** The step of `RowsRoundTrip` for the first of several lines. */
  lemma RowsCons(rs: seq<seq<string>>, done: seq<seq<string>>)
    requires |rs| >= 2 && |rs[0]| >= 1 && rs[0] != [""] && NoCarriageReturn(rs[0])
    requires ParseFrom(CsvText(rs[1..]), ParserState("", [], done + [rs[0]], false)) == done + [rs[0]] + rs[1..]
    ensures ParseFrom(CsvText(rs), ParserState("", [], done, false)) == done + rs
  {
    LineThenBreak(rs[0], CsvText(rs[1..]), done);
    CsvTextCons(rs);
    AppendCons(done, rs);
  }

  lemma CsvTextCons(rs: seq<seq<string>>)
    requires |rs| >= 2
    ensures CsvText(rs) == RowLine(rs[0]) + "\n" + CsvText(rs[1..])
  {
  }

  lemma AppendCons<T>(done: seq<T>, s: seq<T>)
    requires |s| >= 1
    ensures done + [s[0]] + s[1..] == done + s
  {
    assert s == [s[0]] + s[1..];
  }

  /** Writing rows as the export does and parsing the text gives the rows back. */
  lemma CsvRoundTrip(rows: seq<seq<string>>)
    requires Writable(rows)
    ensures ParseText(CsvText(rows)) == rows
  {
    if |rows| > 0 {
      RowsRoundTrip(rows, []);
      assert [] + rows == rows;
    }
  }

  /** A single non-empty field without a carriage return survives escaping and parsing. */
  lemma EscapeThenParse(f: string)
    requires f != [] && '\r' !in f
    ensures ParseText(CsvEscape(f)) == [[f]]
  {
    assert CsvText([[f]]) == CsvEscape(f);
    CsvRoundTrip([[f]]);
  }

  // ---------------------------------------------------------------- record boundaries

  /** Outside quotes `\r\n` ends a record exactly as `\n` does, and so does a lone `\r`: the
      pair counts once. */
  lemma CrLfCountsOnce(rest: string, st: ParserState)
    requires !st.inQuotes
    ensures ParseFrom("\r\n" + rest, st) == ParseFrom("\n" + rest, st)
    ensures (rest == [] || rest[0] != '\n') ==> ParseFrom("\r" + rest, st) == ParseFrom("\n" + rest, st)
  {
    CrLfStep(rest, st);
    LineFeedStep(rest, st);
    if rest == [] || rest[0] != '\n' {
      LoneCrStep(rest, st);
    }
  }

  lemma CrLfStep(tail: string, st: ParserState)
    requires !st.inQuotes
    ensures ParseFrom("\r\n" + tail, st) == ParseFrom(tail, EndRecord(st))
  {
    var text := "\r\n" + tail;
    assert text[0] == '\r' && text[1] == '\n' && text[2..] == tail;
  }

  lemma LoneCrStep(tail: string, st: ParserState)
    requires !st.inQuotes
    requires tail == [] || tail[0] != '\n'
    ensures ParseFrom("\r" + tail, st) == ParseFrom(tail, EndRecord(st))
  {
    var text := "\r" + tail;
    assert text[0] == '\r' && text[1..] == tail;
    assert |text| > 1 ==> text[1] == tail[0];
  }

  predicate LineBreaks(s: string)
  {
    forall c :: c in s ==> c == '\n' || c == '\r'
  }

  /** Blank lines produce no record: line breaks with nothing read are skipped. */
  lemma {:induction false} BlankLinesSkipped(breaks: string, rest: string, rows: seq<seq<string>>)
    requires LineBreaks(breaks)
    ensures ParseFrom(breaks + rest, ParserState("", [], rows, false)) == ParseFrom(rest, ParserState("", [], rows, false))
    decreases |breaks|
  {
    if breaks != [] {
      BreaksTail(breaks);
      if breaks[0] == '\r' && |breaks| >= 2 && breaks[1] == '\n' {
        BlankLinesSkipped(breaks[2..], rest, rows);
        SkipPair(breaks, rest, rows);
      } else if breaks[0] == '\r' && |breaks| == 1 && rest != [] && rest[0] == '\n' {
        SkipLastPair(breaks, rest, rows);
      } else {
        BlankLinesSkipped(breaks[1..], rest, rows);
        SkipOne(breaks, rest, rows);
      }
    } else {
      assert breaks + rest == rest;
    }
  }

  lemma BreaksTail(breaks: string)
    requires breaks != [] && LineBreaks(breaks)
    ensures breaks[0] == '\n' || breaks[0] == '\r'
    ensures LineBreaks(breaks[1..])
    ensures |breaks| >= 2 ==> LineBreaks(breaks[2..])
  {
    assert breaks[0] in breaks;
    assert forall c :: c in breaks[1..] ==> c in breaks;
    if |breaks| >= 2 {
      assert forall c :: c in breaks[2..] ==> c in breaks;
    }
  }

  lemma EmptyRecord(rows: seq<seq<string>>)
    ensures EndRecord(ParserState("", [], rows, false)) == ParserState("", [], rows, false)
  {
  }

  /** A line feed, or a carriage return not followed by one, consumed alone. */
  lemma SkipOne(breaks: string, rest: string, rows: seq<seq<string>>)
    requires breaks != [] && (breaks[0] == '\n' || breaks[0] == '\r')
    requires breaks[0] == '\r' ==> !(|breaks| >= 2 && breaks[1] == '\n') && !(|breaks| == 1 && rest != [] && rest[0] == '\n')
    requires ParseFrom(breaks[1..] + rest, ParserState("", [], rows, false)) == ParseFrom(rest, ParserState("", [], rows, false))
    ensures ParseFrom(breaks + rest, ParserState("", [], rows, false)) == ParseFrom(rest, ParserState("", [], rows, false))
  {
    var st := ParserState("", [], rows, false);
    BreakCons(breaks, rest);
    EmptyRecord(rows);
    if breaks[0] == '\n' {
      LineFeedStep(breaks[1..] + rest, st);
    } else {
      LoneCrStep(breaks[1..] + rest, st);
    }
  }

  /** `\r\n` within the breaks, consumed together. */
  lemma SkipPair(breaks: string, rest: string, rows: seq<seq<string>>)
    requires |breaks| >= 2 && breaks[0] == '\r' && breaks[1] == '\n'
    requires ParseFrom(breaks[2..] + rest, ParserState("", [], rows, false)) == ParseFrom(rest, ParserState("", [], rows, false))
    ensures ParseFrom(breaks + rest, ParserState("", [], rows, false)) == ParseFrom(rest, ParserState("", [], rows, false))
  {
    BreakCons(breaks, rest);
    EmptyRecord(rows);
    CrLfStep(breaks[2..] + rest, ParserState("", [], rows, false));
  }

  /** A last `\r` with the text going on with `\n`: the pair is consumed together, which is
      what the line feed alone would have done. */
  lemma SkipLastPair(breaks: string, rest: string, rows: seq<seq<string>>)
    requires |breaks| == 1 && breaks[0] == '\r' && rest != [] && rest[0] == '\n'
    ensures ParseFrom(breaks + rest, ParserState("", [], rows, false)) == ParseFrom(rest, ParserState("", [], rows, false))
  {
    var st := ParserState("", [], rows, false);
    BreakCons(breaks, rest);
    EmptyRecord(rows);
    CrLfStep(rest[1..], st);
    LineFeedStep(rest[1..], st);
    assert rest == "\n" + rest[1..];
  }

  /** How the first one or two breaks split off the text. */
  lemma BreakCons(breaks: string, rest: string)
    requires breaks != []
    ensures breaks + rest == [breaks[0]] + (breaks[1..] + rest)
    ensures |breaks| >= 2 ==> breaks + rest == [breaks[0], breaks[1]] + (breaks[2..] + rest)
    ensures |breaks| == 1 && rest != [] ==> breaks + rest == [breaks[0], rest[0]] + rest[1..]
    ensures (breaks[1..] + rest == [] || (breaks[1..] + rest)[0] != '\n') <==>
            (if |breaks| >= 2 then breaks[1] != '\n' else rest == [] || rest[0] != '\n')
  {
  }
}
