/**
Delimiter-separated values, as d3_dsv reads and writes them, for any delimiter that is neither a double quote nor a
line break.  The reader is a tokenizer with a position and a pending end-of-line; its specification below works on
the text that is still to be read.
*/
module Dsv {

  predicate IsDelimiter(d: char) {
    d != '"' && d != '\r' && d != '\n'
  }

  // ----- Writing -----

  predicate NeedsQuotes(d: char, field: string) {
    '"' in field || d in field || '\n' in field
  }

  /** Every double quote doubled. */
  function Escape(s: string): string {
    if s == "" then ""
    else if s[0] == '"' then "\"\"" + Escape(s[1..])
    else [s[0]] + Escape(s[1..])
  }

  function FormatValue(d: char, field: string): string {
    if NeedsQuotes(d, field) then "\"" + Escape(field) + "\"" else field
  }

  function FormatRow(d: char, row: seq<string>): string {
    if row == [] then ""
    else if |row| == 1 then FormatValue(d, row[0])
    else FormatValue(d, row[0]) + [d] + FormatRow(d, row[1..])
  }

  function Format(d: char, rows: seq<seq<string>>): string {
    if rows == [] then ""
    else if |rows| == 1 then FormatRow(d, rows[0])
    else FormatRow(d, rows[0]) + "\n" + Format(d, rows[1..])
  }

  // ----- Reading -----

  datatype Token = Field(text: string) | EndOfLine | EndOfText

  datatype Lexed = Lexed(token: Token, rest: string, eol: bool)

  /** The first delimiter, carriage return or line feed. */
  function FindBreak(d: char, s: string): (i: nat)
    ensures i <= |s|
  {
    if s == "" || s[0] in [d, '\r', '\n'] then 0 else 1 + FindBreak(d, s[1..])
  }

  /** The scan for the closing quote, from just before index `i + 1`; an unterminated field ends beyond the text. */
  function CloseQuote(s: string, i: nat): (k: nat)
    requires i <= |s|
    ensures i < k <= |s| + 1
    decreases |s| - i
  {
    if i == |s| then i + 1
    else if i + 1 < |s| && s[i + 1] == '"' then
      if i + 2 < |s| && s[i + 2] == '"' then CloseQuote(s, i + 2) else i + 1
    else
      CloseQuote(s, i + 1)
  }

  /** Every pair of double quotes made one, from the left. */
  function Unescape(s: string): string {
    if s == "" then ""
    else if |s| >= 2 && s[0] == '"' && s[1] == '"' then "\"" + Unescape(s[2..])
    else [s[0]] + Unescape(s[1..])
  }

  function Drop(s: string, n: nat): string {
    if n <= |s| then s[n..] else ""
  }

  function At(s: string, i: nat, c: char): bool {
    i < |s| && s[i] == c
  }

  function Min(a: nat, b: nat): nat {
    if a <= b then a else b
  }

  function LexQuoted(s: string): Lexed
    requires s != "" && s[0] == '"'
  {
    var i := CloseQuote(s, 0);
    var field := Unescape(s[1..Min(i, |s|)]);
    var eol := At(s, i + 1, '\r') || At(s, i + 1, '\n');
    var width := if At(s, i + 1, '\r') && At(s, i + 2, '\n') then 3 else 2;
    Lexed(Field(field), Drop(s, i + width), eol)
  }

  function LexPlain(d: char, s: string): Lexed
    requires s != ""
  {
    var m := FindBreak(d, s);
    if m == |s| then Lexed(Field(s), "", false)
    else
      var width := if s[m] == '\r' && At(s, m + 1, '\n') then 2 else 1;
      Lexed(Field(s[..m]), s[m + width..], s[m] != d)
  }

  /** One call of `token`. */
  function Lex(d: char, s: string, eol: bool): Lexed {
    if s == "" then Lexed(EndOfText, s, eol)
    else if eol then Lexed(EndOfLine, s, false)
    else if s[0] == '"' then LexQuoted(s)
    else LexPlain(d, s)
  }

  function Work(s: string, eol: bool): nat {
    2 * |s| + if eol then 1 else 0
  }

  lemma LexWorks(d: char, s: string, eol: bool)
    requires s != ""
    ensures Work(Lex(d, s, eol).rest, Lex(d, s, eol).eol) < Work(s, eol)
  {
  }

  datatype Parsed = Parsed(row: seq<string>, rest: string, eol: bool)

  /** The fields up to the end of the line or the text. */
  function ParseRow(d: char, s: string, eol: bool): (p: Parsed)
    ensures s != "" ==> Work(p.rest, p.eol) < Work(s, eol)
    decreases Work(s, eol)
  {
    var t := Lex(d, s, eol);
    if t.token.Field? then
      LexWorks(d, s, eol);
      var p := ParseRow(d, t.rest, t.eol);
      p.(row := [t.token.text] + p.row)
    else
      Parsed([], t.rest, t.eol)
  }

  function ParseFrom(d: char, s: string, eol: bool): seq<seq<string>>
    decreases Work(s, eol)
  {
    if s == "" then []
    else
      var p := ParseRow(d, s, eol);
      [p.row] + ParseFrom(d, p.rest, p.eol)
  }

  /** `parseRows` without a row function. */
  function Parse(d: char, text: string): seq<seq<string>> {
    ParseFrom(d, text, false)
  }

  // ----- The round trip -----

  /** An unquoted field keeps no carriage return. */
  predicate FieldSurvives(d: char, field: string) {
    '\r' in field ==> NeedsQuotes(d, field)
  }

  predicate RowSurvives(d: char, row: seq<string>) {
    row != [] && forall f :: f in row ==> FieldSurvives(d, f)
  }

  /** What can be written and read back: no row is empty, and the text does not end in an empty field. */
  predicate Survives(d: char, rows: seq<seq<string>>) {
    && (forall row :: row in rows ==> RowSurvives(d, row))
    && (rows != [] ==> var last := rows[|rows| - 1]; last != [] && last[|last| - 1] != "")
  }

  /** What follows a field in written text. */
  predicate Boundary(d: char, tail: string) {
    tail == "" || tail[0] == d || tail[0] == '\n'
  }

  /** The tokenizer's state after a field that is followed by `tail`. */
  function After(field: string, tail: string): Lexed {
    Lexed(Field(field), Drop(tail, 1), tail != "" && tail[0] == '\n')
  }

  lemma {:induction false} FindBreakPlain(d: char, f: string, tail: string)
    requires d !in f && '\r' !in f && '\n' !in f && Boundary(d, tail)
    ensures FindBreak(d, f + tail) == |f|
  {
    if f == "" {
      assert f + tail == tail;
    } else {
      assert (f + tail)[1..] == f[1..] + tail;
      assert f[0] in f;
      FindBreakPlain(d, f[1..], tail);
    }
  }

  lemma LexPlainField(d: char, f: string, tail: string)
    requires IsDelimiter(d) && !NeedsQuotes(d, f) && '\r' !in f && Boundary(d, tail) && f + tail != ""
    ensures Lex(d, f + tail, false) == After(f, tail)
  {
    var s := f + tail;
    FindBreakPlain(d, f, tail);
    assert s[..|f|] == f;
    if f == "" {
      assert s == tail;
    } else {
      assert s[0] == f[0] && f[0] in f;
    }
    if tail == "" {
      assert s == f;
    } else {
      assert s[|f|..] == tail;
      assert s[|f| + 1..] == tail[1..];
    }
  }

  /** The scan walks over an escaped text to the quote that closes it. */
  lemma {:induction false} CloseQuoteEscaped(p: string, g: string, tail: string)
    requires p != "" && !At(tail, 0, '"')
    ensures CloseQuote(p + Escape(g) + "\"" + tail, |p| - 1) == |p| + |Escape(g)|
    decreases |g|
  {
    var s := p + Escape(g) + "\"" + tail;
    if g == "" {
      assert s[|p|] == '"';
      assert |p| + 1 < |s| ==> s[|p| + 1] == tail[0];
    } else if g[0] == '"' {
      assert s[|p|] == '"' && s[|p| + 1] == '"';
      CloseQuoteEscaped(p + "\"\"", g[1..], tail);
      assert s == p + "\"\"" + Escape(g[1..]) + "\"" + tail;
    } else {
      assert s[|p|] == g[0];
      CloseQuoteEscaped(p + [g[0]], g[1..], tail);
      assert s == p + [g[0]] + Escape(g[1..]) + "\"" + tail;
    }
  }

  lemma {:induction false} UnescapeEscape(g: string)
    ensures Unescape(Escape(g)) == g
  {
    if g != "" {
      UnescapeEscape(g[1..]);
      if g[0] == '"' {
        assert Escape(g)[2..] == Escape(g[1..]);
      } else {
        assert Escape(g)[1..] == Escape(g[1..]);
      }
    }
  }

  lemma LexQuotedField(d: char, f: string, tail: string)
    requires IsDelimiter(d) && Boundary(d, tail)
    ensures Lex(d, "\"" + Escape(f) + "\"" + tail, false) == After(f, tail)
  {
    CloseQuoteEscaped("\"", f, tail);
    UnescapeEscape(f);
    QuotedParts(Escape(f), tail);
  }

  /** A quoted text and what is behind it, by positions. */
  lemma QuotedParts(e: string, tail: string)
    ensures var s, i := "\"" + e + "\"" + tail, 1 + |e|;
            && s[0] == '"' && s[1..i] == e && |s| == i + 1 + |tail|
            && At(s, i + 1, '\n') == At(tail, 0, '\n') && At(s, i + 1, '\r') == At(tail, 0, '\r')
            && Drop(s, i + 1) == tail && Drop(s, i + 2) == Drop(tail, 1)
            && (forall k :: 0 <= k < |tail| ==> s[i + 1 + k] == tail[k])
  {
    var s, i := "\"" + e + "\"" + tail, 1 + |e|;
    assert s == ("\"" + e) + ("\"" + tail);
  }

  /** A written field is read back, unless nothing at all is left to read. */
  lemma LexField(d: char, f: string, tail: string)
    requires IsDelimiter(d) && Boundary(d, tail) && FieldSurvives(d, f) && FormatValue(d, f) + tail != ""
    ensures Lex(d, FormatValue(d, f) + tail, false) == After(f, tail)
  {
    if NeedsQuotes(d, f) {
      LexQuotedField(d, f, tail);
    } else {
      LexPlainField(d, f, tail);
    }
  }

  lemma {:induction false} FindBreakEarly(d: char, f: string, tail: string)
    requires '\r' in f
    ensures FindBreak(d, f + tail) < |f|
  {
    if f[0] !in [d, '\r', '\n'] {
      assert (f + tail)[1..] == f[1..] + tail;
      assert '\r' in f[1..];
      FindBreakEarly(d, f[1..], tail);
    }
  }

  /** An unquoted carriage return cuts its field short. */
  lemma LexCutsField(d: char, f: string, tail: string)
    requires !FieldSurvives(d, f)
    ensures Lex(d, FormatValue(d, f) + tail, false).token.Field?
    ensures Lex(d, FormatValue(d, f) + tail, false).token != Field(f)
  {
    FindBreakEarly(d, f, tail);
    assert (f + tail)[0] == f[0] && f[0] in f;
  }

  /** The reader's state after a row that is followed by `tail`. */
  function RowEnd(row: seq<string>, tail: string): Parsed {
    Parsed(row, Drop(tail, 1), tail == "\n")
  }

  predicate LineBoundary(tail: string) {
    tail == "" || tail[0] == '\n'
  }

  predicate EndsWell(row: seq<string>, tail: string) {
    row != [] && (tail == "" ==> row[|row| - 1] != "")
  }

  function RestOfRow(d: char, row: seq<string>, tail: string): string
    requires row != []
  {
    if |row| == 1 then tail else [d] + FormatRow(d, row[1..]) + tail
  }

  lemma RowUnfold(d: char, row: seq<string>, tail: string)
    requires row != []
    ensures FormatRow(d, row) + tail == FormatValue(d, row[0]) + RestOfRow(d, row, tail)
    ensures |row| > 1 ==> Drop(RestOfRow(d, row, tail), 1) == FormatRow(d, row[1..]) + tail
  {
    if |row| > 1 {
      Regroup(FormatValue(d, row[0]), [d], FormatRow(d, row[1..]), tail);
    }
  }

  lemma Regroup(a: string, b: string, c: string, e: string)
    ensures a + b + c + e == a + (b + c + e)
    ensures b + c + e == b + (c + e)
    ensures Drop(b + (c + e), |b|) == c + e
  {
  }

  /** Reading the text of a row gives the row back exactly if the row survives. */
  ghost predicate ReadsBack(d: char, row: seq<string>, tail: string, p: Parsed) {
    && (RowSurvives(d, row) && EndsWell(row, tail) ==> p == RowEnd(row, tail))
    && (p.row == row ==> RowSurvives(d, row) && EndsWell(row, tail))
  }

  /** A written row is read back exactly if its fields survive and it does not end the text with an empty field. */
  lemma {:induction false} RowRoundTrip(d: char, row: seq<string>, tail: string)
    requires IsDelimiter(d) && LineBoundary(tail) && row != []
    ensures ReadsBack(d, row, tail, ParseRow(d, FormatRow(d, row) + tail, false))
    decreases |row|
  {
    var s := FormatRow(d, row) + tail;
    var rest := RestOfRow(d, row, tail);
    RowUnfold(d, row, tail);
    var f := row[0];
    if !FieldSurvives(d, f) {
      assert f in row;
      LexCutsField(d, f, rest);
    } else if s == "" {
      EmptyRowText(d, row);
    } else {
      LexField(d, f, rest);
      if |row| > 1 {
        RowRoundTrip(d, row[1..], tail);
        RowStep(d, row, tail, ParseRow(d, FormatRow(d, row[1..]) + tail, false));
      } else {
        LineEnd(d, tail);
        assert row == [f];
      }
    }
  }

  /** The first field survives, and the rest of the row decides. */
  lemma {:induction false} RowStep(d: char, row: seq<string>, tail: string, p: Parsed)
    requires |row| > 1 && FieldSurvives(d, row[0]) && ReadsBack(d, row[1..], tail, p)
    ensures ReadsBack(d, row, tail, p.(row := [row[0]] + p.row))
  {
    assert row[1..][|row| - 2] == row[|row| - 1];
    RowSurvivesTail(d, row);
    assert row == [row[0]] + row[1..];
    assert ([row[0]] + p.row)[1..] == p.row;
  }

  lemma EmptyRowText(d: char, row: seq<string>)
    requires row != []
    ensures FormatRow(d, row) == "" ==> |row| == 1 && row[0] == ""
  {
  }

  lemma RowSurvivesTail(d: char, row: seq<string>)
    requires |row| > 1
    ensures RowSurvives(d, row) <==> FieldSurvives(d, row[0]) && RowSurvives(d, row[1..])
  {
    assert forall f :: f in row <==> f == row[0] || f in row[1..];
  }

  /** After the last field of a line the row ends. */
  lemma LineEnd(d: char, tail: string)
    requires LineBoundary(tail)
    ensures ParseRow(d, Drop(tail, 1), tail != "" && tail[0] == '\n') == RowEnd([], tail)
  {
  }

  /** No text is read as a list of rows with an empty row in it. */
  lemma {:induction false} NoEmptyRows(d: char, s: string)
    ensures forall row :: row in ParseFrom(d, s, false) ==> row != []
    decreases |s|
  {
    if s != "" {
      var p := ParseRow(d, s, false);
      RowStops(d, s, false);
      assert p.row != [];
      if p.rest != "" {
        assert !p.eol;
        NoEmptyRows(d, p.rest);
      }
      assert ParseFrom(d, s, false) == [p.row] + ParseFrom(d, p.rest, p.eol);
    }
  }

  /** A row that ends before the text does has consumed its end of line. */
  lemma {:induction false} RowStops(d: char, s: string, eol: bool)
    ensures ParseRow(d, s, eol).rest != "" ==> !ParseRow(d, s, eol).eol
    ensures |ParseRow(d, s, eol).rest| <= |s|
    ensures s != "" && !eol ==> ParseRow(d, s, eol).row != [] && |ParseRow(d, s, eol).rest| < |s|
    decreases Work(s, eol)
  {
    var t := Lex(d, s, eol);
    if t.token.Field? {
      LexWorks(d, s, eol);
      RowStops(d, t.rest, t.eol);
    }
  }

  lemma {:induction false} NonEmptyText(d: char, rows: seq<seq<string>>)
    requires Survives(d, rows) && rows != []
    ensures Format(d, rows) != ""
  {
    if |rows| == 1 {
      EmptyRowText(d, rows[0]);
    }
  }

  lemma SurvivesTail(d: char, rows: seq<seq<string>>)
    requires |rows| > 1
    ensures Survives(d, rows) <==> RowSurvives(d, rows[0]) && Survives(d, rows[1..])
  {
    assert forall row :: row in rows <==> row == rows[0] || row in rows[1..];
    assert rows[1..][|rows| - 2] == rows[|rows| - 1];
  }

  /** Reading back, when no row is empty. */
  lemma {:induction false} RowsRoundTrip(d: char, rows: seq<seq<string>>)
    requires IsDelimiter(d) && forall row :: row in rows ==> row != []
    ensures Parse(d, Format(d, rows)) == rows <==> Survives(d, rows)
    decreases |rows|
  {
    if rows == [] {
      assert Parse(d, "") == [];
    } else {
      var row := rows[0];
      assert row in rows;
      assert rows == [row] + rows[1..];
      var text := Format(d, rows);
      if |rows| == 1 {
        SingleRow(d, row);
        assert rows == [row];
      } else {
        var more := Format(d, rows[1..]);
        var tail := "\n" + more;
        assert text == FormatRow(d, row) + tail;
        assert Drop(tail, 1) == more;
        RowRoundTrip(d, row, tail);
        SurvivesTail(d, rows);
        assert forall r :: r in rows[1..] ==> r in rows;
        RowsRoundTrip(d, rows[1..]);
        TailRoundTrip(d, rows, more);
      }
    }
  }

  lemma SingleRow(d: char, row: seq<string>)
    requires IsDelimiter(d) && row != []
    ensures Parse(d, Format(d, [row])) == [row] <==> Survives(d, [row])
  {
    var text := FormatRow(d, row);
    assert text == text + "";
    RowRoundTrip(d, row, "");
    EmptyRowText(d, row);
    assert Survives(d, [row]) <==> RowSurvives(d, row) && EndsWell(row, "");
    if text != "" {
      var p := ParseRow(d, text, false);
      assert Parse(d, text) == [p.row] + ParseFrom(d, p.rest, p.eol);
      assert Parse(d, text) == [row] ==> p.row == row;
    }
  }

  lemma TailRoundTrip(d: char, rows: seq<seq<string>>, more: string)
    requires |rows| > 1 && more == Format(d, rows[1..])
    requires ParseRow(d, FormatRow(d, rows[0]) + ("\n" + more), false).row == rows[0] ==> RowSurvives(d, rows[0])
    requires RowSurvives(d, rows[0]) ==>
               ParseRow(d, FormatRow(d, rows[0]) + ("\n" + more), false) == RowEnd(rows[0], "\n" + more)
    requires Parse(d, more) == rows[1..] <==> Survives(d, rows[1..])
    ensures Parse(d, FormatRow(d, rows[0]) + ("\n" + more)) == rows <==>
              RowSurvives(d, rows[0]) && Survives(d, rows[1..])
  {
    var s := FormatRow(d, rows[0]) + ("\n" + more);
    var p := ParseRow(d, s, false);
    assert Parse(d, s) == [p.row] + ParseFrom(d, p.rest, p.eol);
    assert rows == [rows[0]] + rows[1..];
    if Survives(d, rows[1..]) {
      NonEmptyText(d, rows[1..]);
    }
    if RowSurvives(d, rows[0]) {
      assert p.rest == more;
    }
  }

  /** The round trip succeeds for exactly the rows that survive. */
  lemma RoundTrip(d: char, rows: seq<seq<string>>)
    requires IsDelimiter(d)
    ensures Parse(d, Format(d, rows)) == rows <==> Survives(d, rows)
  {
    if forall row :: row in rows ==> row != [] {
      RowsRoundTrip(d, rows);
    } else {
      NoEmptyRows(d, Format(d, rows));
    }
  }
}
