/**
What any text means as delimiter-separated values, without reference to how it is read: a text is a series of cells and
separators in one way, and the cells between two line breaks are a row.
*/
module DsvGrammar {
  import opened Dsv

  /** A cell as it is written: plain, between quotes, or behind an opening quote that is never closed. */
  datatype Cell = Plain(text: string) | Quoted(text: string) | Unclosed(text: string)

  datatype Break = LineFeed | Return | ReturnFeed

  /** What is between two cells: one character that stays in the line, or a line break. */
  datatype Separator = Next(mark: char) | NewLine(style: Break)

  datatype Document = End | Last(cell: Cell) | More(cell: Cell, separator: Separator, rest: Document)

  function ShowCell(cell: Cell): string {
    match cell
    case Plain(text) => text
    case Quoted(text) => "\"" + Escape(text) + "\""
    case Unclosed(text) => "\"" + Escape(text)
  }

  function ShowBreak(style: Break): string {
    match style
    case LineFeed => "\n"
    case Return => "\r"
    case ReturnFeed => "\r\n"
  }

  function ShowSeparator(separator: Separator): string {
    match separator
    case Next(c) => [c]
    case NewLine(style) => ShowBreak(style)
  }

  function Show(doc: Document): string {
    match doc
    case End => ""
    case Last(cell) => ShowCell(cell)
    case More(cell, separator, rest) => ShowCell(cell) + (ShowSeparator(separator) + Show(rest))
  }

  /** A plain cell has no delimiter and no line break, and does not begin with a quote. */
  predicate GoodCell(d: char, cell: Cell) {
    cell.Plain? ==>
      d !in cell.text && '\r' !in cell.text && '\n' !in cell.text && !At(cell.text, 0, '"')
  }

  /**
  A plain cell is followed by the delimiter or a line break.  Behind a quoted cell any one character does for the
  delimiter, except for a quote, which would go on with the cell.
  */
  predicate GoodSeparator(d: char, cell: Cell, separator: Separator) {
    match separator
    case Next(c) => if cell.Plain? then c == d else c != '"' && c != '\r' && c != '\n'
    case NewLine(_) => true
  }

  /** A return that is followed by a line feed is one line break with it.  An empty cell at the very end is none. */
  predicate Good(d: char, doc: Document) {
    match doc
    case End => true
    case Last(cell) => GoodCell(d, cell) && cell != Plain("")
    case More(cell, separator, rest) =>
      && GoodCell(d, cell) && !cell.Unclosed? && GoodSeparator(d, cell, separator) && Good(d, rest)
      && (separator == NewLine(Return) ==> !At(Show(rest), 0, '\n'))
  }

  /** The rows of a document: every line break ends one, and so does the end of the text. */
  function Rows(doc: Document): (rows: seq<seq<string>>)
    ensures rows == [] <==> doc.End?
  {
    match doc
    case End => []
    case Last(cell) => [[cell.text]]
    case More(cell, separator, rest) =>
      if separator.NewLine? || rest.End? then [[cell.text]] + Rows(rest)
      else [[cell.text] + Rows(rest)[0]] + Rows(rest)[1..]
  }

  // ----- Reading a document gives its rows -----

  lemma {:induction false} BreakAfter(d: char, f: string, tail: string)
    requires d !in f && '\r' !in f && '\n' !in f && (tail == "" || tail[0] in [d, '\r', '\n'])
    ensures FindBreak(d, f + tail) == |f|
  {
    if f == "" {
      assert f + tail == tail;
    } else {
      assert (f + tail)[1..] == f[1..] + tail;
      assert f[0] in f;
      BreakAfter(d, f[1..], tail);
    }
  }

  /** What is left when the separator has been read. */
  function Past(behind: string): string {
    Drop(behind, if At(behind, 0, '\r') && At(behind, 1, '\n') then 2 else 1)
  }

  /** A plain cell, by what is behind it. */
  lemma PlainState(d: char, f: string, behind: string)
    requires GoodCell(d, Plain(f)) && behind != "" && behind[0] in [d, '\r', '\n'] && d != '"'
    ensures Lex(d, f + behind, false) == Lexed(Field(f), Past(behind), behind[0] != d)
  {
    var s := f + behind;
    BreakAfter(d, f, behind);
    assert s[0] == (if f == "" then behind[0] else f[0]);
    assert s[|f|] == behind[0] && s[..|f|] == f;
    assert At(s, |f| + 1, '\n') == At(behind, 1, '\n');
    var n := if behind[0] == '\r' && At(behind, 1, '\n') then 2 else 1;
    assert s[|f| + n..] == Drop(behind, n);
  }

  lemma LexLastPlain(d: char, f: string)
    requires GoodCell(d, Plain(f)) && f != ""
    ensures Lex(d, f, false) == Lexed(Field(f), "", false)
  {
    BreakAfter(d, f, "");
    assert f + "" == f;
  }

  /** A closed cell, by what is behind it. */
  lemma QuotedState(d: char, f: string, behind: string)
    requires !At(behind, 0, '"')
    ensures Lex(d, ShowCell(Quoted(f)) + behind, false) ==
            Lexed(Field(f), Past(behind), At(behind, 0, '\r') || At(behind, 0, '\n'))
  {
    var s, i := "\"" + Escape(f) + "\"" + behind, 1 + |Escape(f)|;
    CloseQuoteEscaped("\"", f, behind);
    UnescapeEscape(f);
    QuotedParts(Escape(f), behind);
    assert At(s, i + 2, '\n') == At(behind, 1, '\n');
    assert Drop(s, i + 3) == Drop(behind, 2);
  }

  /** The scan finds no closing quote. */
  lemma {:induction false} CloseQuoteMissing(p: string, g: string)
    requires p != ""
    ensures CloseQuote(p + Escape(g), |p| - 1) == |p + Escape(g)| + 1
    decreases |g|
  {
    var s := p + Escape(g);
    if g == "" {
      assert s == p;
    } else if g[0] == '"' {
      assert s[|p|] == '"' && s[|p| + 1] == '"';
      CloseQuoteMissing(p + "\"\"", g[1..]);
      assert s == p + "\"\"" + Escape(g[1..]);
    } else {
      assert s[|p|] == g[0];
      CloseQuoteMissing(p + [g[0]], g[1..]);
      assert s == p + [g[0]] + Escape(g[1..]);
    }
  }

  lemma LexUnclosed(d: char, f: string)
    ensures Lex(d, ShowCell(Unclosed(f)), false) == Lexed(Field(f), "", false)
  {
    CloseQuoteMissing("\"", f);
    UnescapeEscape(f);
    var s := "\"" + Escape(f);
    assert s[1..|s|] == Escape(f);
  }

  lemma LexLast(d: char, cell: Cell)
    requires IsDelimiter(d) && GoodCell(d, cell) && cell != Plain("")
    ensures Lex(d, ShowCell(cell), false) == Lexed(Field(cell.text), "", false)
  {
    match cell
    case Plain(f) => LexLastPlain(d, f);
    case Quoted(f) =>
      QuotedState(d, f, "");
      assert ShowCell(cell) + "" == ShowCell(cell);
    case Unclosed(f) => LexUnclosed(d, f);
  }

  /** What the reader goes by behind a cell that is not the last one. */
  lemma Behind(separator: Separator, tail: string)
    requires separator == NewLine(Return) ==> !At(tail, 0, '\n')
    requires separator.Next? ==> separator.mark != '\r' && separator.mark != '\n'
    ensures var behind := ShowSeparator(separator) + tail;
            && At(behind, 0, ShowSeparator(separator)[0])
            && Past(behind) == tail
            && ((At(behind, 0, '\r') || At(behind, 0, '\n')) == separator.NewLine?)
  {
    var behind := ShowSeparator(separator) + tail;
    assert Drop(behind, |ShowSeparator(separator)|) == tail;
    assert |ShowSeparator(separator)| == 1 ==> At(behind, 1, '\n') == At(tail, 0, '\n');
  }

  lemma LexMore(d: char, doc: Document)
    requires IsDelimiter(d) && Good(d, doc) && doc.More?
    ensures Lex(d, Show(doc), false) == Lexed(Field(doc.cell.text), Show(doc.rest), doc.separator.NewLine?)
    ensures Show(doc) != ""
  {
    var behind := ShowSeparator(doc.separator) + Show(doc.rest);
    Behind(doc.separator, Show(doc.rest));
    match doc.cell
    case Plain(f) => PlainState(d, f, behind);
    case Quoted(f) => QuotedState(d, f, behind);
  }

  lemma ShownIsEmpty(d: char, doc: Document)
    requires Good(d, doc)
    ensures Show(doc) == "" <==> doc.End?
  {
  }

  /** The first row of a document, and the document behind it. */
  function FirstRow(doc: Document): (seq<string>, Document)
    requires !doc.End?
  {
    match doc
    case Last(cell) => ([cell.text], End)
    case More(cell, separator, rest) =>
      if separator.NewLine? || rest.End? then ([cell.text], rest)
      else ([cell.text] + FirstRow(rest).0, FirstRow(rest).1)
  }

  lemma {:induction false} FirstRowIs(d: char, doc: Document)
    requires !doc.End? && Good(d, doc)
    ensures var (row, rest) := FirstRow(doc); Good(d, rest) && Rows(doc) == [row] + Rows(rest)
  {
    if doc.More? && !doc.separator.NewLine? && !doc.rest.End? {
      FirstRowIs(d, doc.rest);
      var (row, rest) := FirstRow(doc.rest);
      assert Rows(doc.rest)[0] == row && Rows(doc.rest)[1..] == Rows(rest);
    }
  }

  lemma {:induction false} ReadsFirstRow(d: char, doc: Document)
    requires IsDelimiter(d) && !doc.End? && Good(d, doc)
    ensures var (row, rest) := FirstRow(doc);
            var p := ParseRow(d, Show(doc), false);
            p.row == row && p.rest == Show(rest) && (p.rest != "" ==> !p.eol)
  {
    match doc
    case Last(cell) => LexLast(d, cell);
    case More(cell, separator, rest) =>
      LexMore(d, doc);
      ShownIsEmpty(d, rest);
      if !separator.NewLine? && !rest.End? {
        ReadsFirstRow(d, rest);
      }
  }

  /** Any text that shows a document is read as its rows. */
  lemma {:induction false} ReadsDocument(d: char, doc: Document)
    requires IsDelimiter(d) && Good(d, doc)
    ensures Parse(d, Show(doc)) == Rows(doc)
    decreases |Rows(doc)|
  {
    ShownIsEmpty(d, doc);
    if !doc.End? {
      FirstRowIs(d, doc);
      ReadsFirstRow(d, doc);
      var (row, rest) := FirstRow(doc);
      ReadsDocument(d, rest);
      var p := ParseRow(d, Show(doc), false);
      assert ParseFrom(d, p.rest, p.eol) == ParseFrom(d, p.rest, false);
    }
  }

  // ----- Every text is a document, in one way -----

  lemma {:induction false} SplitQuoted(s: string) returns (text: string, closed: bool, behind: string)
    ensures s == Escape(text) + (if closed then "\"" + behind else "")
    ensures !At(behind, 0, '"')
  {
    if s == "" {
      return "", false, "";
    } else if s[0] == '"' && !At(s, 1, '"') {
      return "", true, s[1..];
    }
    var width := if s[0] == '"' then 2 else 1;
    text, closed, behind := SplitQuoted(s[width..]);
    assert ([s[0]] + text)[1..] == text;
    assert s == s[..width] + s[width..];
    text := [s[0]] + text;
  }

  lemma {:induction false} SplitPlain(d: char, s: string) returns (text: string, behind: string)
    ensures s == text + behind
    ensures d !in text && '\r' !in text && '\n' !in text
    ensures behind == "" || behind[0] in [d, '\r', '\n']
  {
    if s == "" || s[0] in [d, '\r', '\n'] {
      text, behind := "", s;
    } else {
      text, behind := SplitPlain(d, s[1..]);
      text := [s[0]] + text;
    }
  }

  lemma SplitSeparator(behind: string) returns (separator: Separator, tail: string)
    requires behind != ""
    ensures behind == ShowSeparator(separator) + tail
    ensures separator == NewLine(Return) ==> !At(tail, 0, '\n')
    ensures if behind[0] in ['\r', '\n'] then separator.NewLine? else separator == Next(behind[0])
  {
    separator := if behind[0] == '\n' then NewLine(LineFeed)
    else if behind[0] != '\r' then Next(behind[0])
    else if At(behind, 1, '\n') then NewLine(ReturnFeed) else NewLine(Return);
    tail := behind[|ShowSeparator(separator)|..];
  }

  /** Any text at all, well written or not, is a document. */
  lemma {:induction false} EveryText(d: char, s: string) returns (doc: Document)
    requires IsDelimiter(d)
    ensures Good(d, doc) && Show(doc) == s
    decreases |s|
  {
    if s == "" {
      return End;
    }
    var cell, behind;
    if s[0] == '"' {
      var text, closed, rest := SplitQuoted(s[1..]);
      cell, behind := if closed then Quoted(text) else Unclosed(text), if closed then rest else "";
    } else {
      var text, rest := SplitPlain(d, s);
      cell, behind := Plain(text), rest;
    }
    assert s == ShowCell(cell) + behind;
    if behind == "" {
      doc := Last(cell);
    } else {
      var separator, tail := SplitSeparator(behind);
      var rest := EveryText(d, tail);
      doc := More(cell, separator, rest);
    }
  }

  lemma CellIs(d: char, doc: Document)
    requires IsDelimiter(d) && Good(d, doc) && !doc.End?
    ensures At(Show(doc), 0, '"') <==> !doc.cell.Plain?
    ensures Lex(d, Show(doc), false).token == Field(doc.cell.text)
  {
    if doc.More? {
      LexMore(d, doc);
    } else {
      LexLast(d, doc.cell);
    }
  }

  lemma SameSeparator(x: Separator, y: Separator)
    requires x.Next? ==> x.mark != '\r' && x.mark != '\n'
    requires y.Next? ==> y.mark != '\r' && y.mark != '\n'
    requires ShowSeparator(x) == ShowSeparator(y)
    ensures x == y
  {
    assert ShowSeparator(x)[0] == ShowSeparator(y)[0];
    assert |ShowSeparator(x)| == |ShowSeparator(y)|;
  }

  /** The separator is what is left of the text. */
  lemma SameMore(x: Document, y: Document)
    requires x.More? && y.More? && ShowCell(x.cell) == ShowCell(y.cell) && x.rest == y.rest && Show(x) == Show(y)
    ensures ShowSeparator(x.separator) == ShowSeparator(y.separator)
  {
    var s, n, m := Show(x), |ShowCell(x.cell)|, |Show(x)| - |Show(x.rest)|;
    assert s[n..m] == ShowSeparator(x.separator);
    assert s[n..m] == ShowSeparator(y.separator);
  }

  lemma SameKind(d: char, x: Document, y: Document)
    requires IsDelimiter(d) && Good(d, x) && Good(d, y) && Show(x) == Show(y) && !x.End? && !y.End?
    ensures x.cell.text == y.cell.text && x.Last? == y.Last? && x.cell == y.cell
  {
    CellIs(d, x);
    CellIs(d, y);
    assert |Show(x)| == |Show(y)|;
  }

  /** No text is two documents. */
  lemma {:induction false} OneDocument(d: char, x: Document, y: Document)
    requires IsDelimiter(d) && Good(d, x) && Good(d, y) && Show(x) == Show(y)
    ensures x == y
  {
    ShownIsEmpty(d, x);
    ShownIsEmpty(d, y);
    if !x.End? {
      SameKind(d, x, y);
      if x.More? {
        LexMore(d, x);
        LexMore(d, y);
        OneDocument(d, x.rest, y.rest);
        SameMore(x, y);
        SameSeparator(x.separator, y.separator);
      }
    }
  }
}
