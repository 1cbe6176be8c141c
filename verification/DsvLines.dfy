/**
Written rows with any line breaks between them, as files from different systems have them.  The writer itself puts a
line feed between two rows.
*/
module DsvLines {
  import opened Dsv
  import opened DsvGrammar

  function Join(d: char, rows: seq<seq<string>>, breaks: seq<Break>): string
    requires |rows| <= |breaks| + 1
  {
    if rows == [] then ""
    else if |rows| == 1 then FormatRow(d, rows[0])
    else FormatRow(d, rows[0]) + (ShowBreak(breaks[0]) + Join(d, rows[1..], breaks[1..]))
  }

  lemma {:induction false} WriterUsesLineFeeds(d: char, rows: seq<seq<string>>, breaks: seq<Break>)
    requires |rows| <= |breaks| + 1 && forall i :: 0 <= i < |breaks| ==> breaks[i] == LineFeed
    ensures Join(d, rows, breaks) == Format(d, rows)
  {
    if |rows| > 1 {
      WriterUsesLineFeeds(d, rows[1..], breaks[1..]);
    }
  }

  /** Between a return and a line feed the text of row `i + 1` is empty: the two are read as one line break. */
  predicate Lost(rows: seq<seq<string>>, breaks: seq<Break>, i: nat) {
    i + 2 < |rows| && i + 1 < |breaks| && breaks[i] == Return && rows[i + 1] == [""] && breaks[i + 1] == LineFeed
  }

  /** The rows that are not lost. */
  function Seen(rows: seq<seq<string>>, breaks: seq<Break>): (seen: seq<seq<string>>)
    requires |rows| <= |breaks| + 1
    ensures |seen| <= |rows|
  {
    if |rows| <= 1 then rows
    else if Lost(rows, breaks, 0) then [rows[0]] + Seen(rows[2..], breaks[2..])
    else [rows[0]] + Seen(rows[1..], breaks[1..])
  }

  function CellOf(d: char, field: string): Cell {
    if NeedsQuotes(d, field) then Quoted(field) else Plain(field)
  }

  predicate Full(rows: seq<seq<string>>) {
    forall i :: 0 <= i < |rows| ==> rows[i] != []
  }

  /** The document that is written for a row and those that follow it. */
  function Written(d: char, row: seq<string>, rest: seq<seq<string>>, breaks: seq<Break>): Document
    requires row != [] && Full(rest) && |rest| <= |breaks|
    decreases |rest|, |row|
  {
    var cell := CellOf(d, row[0]);
    if |row| > 1 then More(cell, Next(d), Written(d, row[1..], rest, breaks))
    else if rest == [] then Last(cell)
    else if Lost([row] + rest, breaks, 0) then
      More(cell, NewLine(ReturnFeed), Written(d, rest[1], rest[2..], breaks[2..]))
    else
      More(cell, NewLine(breaks[0]), Written(d, rest[0], rest[1..], breaks[1..]))
  }

  /** The line break and the rows behind a row. */
  function Following(d: char, rest: seq<seq<string>>, breaks: seq<Break>): string
    requires |rest| <= |breaks|
  {
    if rest == [] then "" else ShowBreak(breaks[0]) + Join(d, rest, breaks[1..])
  }

  lemma JoinHead(d: char, rows: seq<seq<string>>, breaks: seq<Break>)
    requires 0 < |rows| <= |breaks| + 1
    ensures Join(d, rows, breaks) == FormatRow(d, rows[0]) + Following(d, rows[1..], breaks)
  {
  }

  lemma LostText(d: char, row: seq<string>, rest: seq<seq<string>>, breaks: seq<Break>)
    requires |rest| <= |breaks| && Lost([row] + rest, breaks, 0)
    ensures Following(d, rest, breaks) == "\r\n" + Join(d, rest[1..], breaks[2..])
  {
    JoinHead(d, rest, breaks[1..]);
    assert breaks[1..][1..] == breaks[2..];
    assert ([row] + rest)[1] == rest[0] == [""];
    assert FormatRow(d, [""]) == "";
  }

  lemma RowHead(d: char, row: seq<string>, tail: string)
    requires |row| > 1
    ensures FormatRow(d, row) + tail == ShowCell(CellOf(d, row[0])) + ([d] + (FormatRow(d, row[1..]) + tail))
  {
  }

  lemma {:induction false} ShowsWritten(d: char, row: seq<string>, rest: seq<seq<string>>, breaks: seq<Break>)
    requires row != [] && Full(rest) && |rest| <= |breaks|
    ensures Show(Written(d, row, rest, breaks)) == FormatRow(d, row) + Following(d, rest, breaks)
    decreases |rest|, |row|
  {
    if |row| > 1 {
      ShowsWritten(d, row[1..], rest, breaks);
      RowHead(d, row, Following(d, rest, breaks));
    } else if rest != [] {
      if Lost([row] + rest, breaks, 0) {
        LostText(d, row, rest, breaks);
        JoinHead(d, rest[1..], breaks[2..]);
        ShowsWritten(d, rest[1], rest[2..], breaks[2..]);
      } else {
        JoinHead(d, rest, breaks[1..]);
        ShowsWritten(d, rest[0], rest[1..], breaks[1..]);
      }
    }
  }

  /** The first row is always seen, and what is seen of the others does not depend on it. */
  lemma SeenHead(row: seq<string>, other: seq<string>, rest: seq<seq<string>>, breaks: seq<Break>)
    requires |rest| <= |breaks|
    ensures var seen := Seen([other] + rest, breaks);
            seen != [] && seen[0] == other && Seen([row] + rest, breaks) == [row] + seen[1..]
  {
    var rows, others := [row] + rest, [other] + rest;
    assert rows[1..] == others[1..];
    if rest != [] {
      assert rows[2..] == others[2..];
    }
  }

  lemma {:induction false} RowsWritten(d: char, row: seq<string>, rest: seq<seq<string>>, breaks: seq<Break>)
    requires row != [] && Full(rest) && |rest| <= |breaks|
    ensures Rows(Written(d, row, rest, breaks)) == Seen([row] + rest, breaks)
    decreases |rest|, |row|
  {
    var rows := [row] + rest;
    assert row == [row[0]] + row[1..];
    assert |row| == 1 ==> row == [row[0]];
    if |row| > 1 {
      RowsWritten(d, row[1..], rest, breaks);
      SeenHead(row, row[1..], rest, breaks);
    } else if rest != [] {
      if Lost(rows, breaks, 0) {
        RowsWritten(d, rest[1], rest[2..], breaks[2..]);
        assert rows[2..] == [rest[1]] + rest[2..];
      } else {
        RowsWritten(d, rest[0], rest[1..], breaks[1..]);
        assert rows[1..] == [rest[0]] + rest[1..];
      }
    }
  }

  /** What begins with a line feed is a row whose text is empty. */
  lemma BeginsWithFeed(d: char, row: seq<string>, rest: seq<seq<string>>, breaks: seq<Break>)
    requires IsDelimiter(d) && row != [] && Full(rest) && |rest| <= |breaks|
    requires At(Show(Written(d, row, rest, breaks)), 0, '\n')
    ensures row == [""] && rest != [] && breaks[0] == LineFeed
  {
  }

  ghost predicate Writable(d: char, row: seq<string>, rest: seq<seq<string>>) {
    && RowSurvives(d, row) && (forall i :: 0 <= i < |rest| ==> RowSurvives(d, rest[i]))
    && var last := if rest == [] then row else rest[|rest| - 1]; last[|last| - 1] != ""
  }

  lemma {:induction false} WrittenIsGood(d: char, row: seq<string>, rest: seq<seq<string>>, breaks: seq<Break>)
    requires IsDelimiter(d) && |rest| <= |breaks| && Writable(d, row, rest)
    ensures Good(d, Written(d, row, rest, breaks))
    decreases |rest|, |row|
  {
    assert FieldSurvives(d, row[0]);
    if |row| > 1 {
      RowSurvivesTail(d, row);
      WrittenIsGood(d, row[1..], rest, breaks);
    } else if rest != [] {
      if Lost([row] + rest, breaks, 0) {
        WrittenIsGood(d, rest[1], rest[2..], breaks[2..]);
      } else {
        WrittenIsGood(d, rest[0], rest[1..], breaks[1..]);
        if breaks[0] == Return && At(Show(Written(d, rest[0], rest[1..], breaks[1..])), 0, '\n') {
          BeginsWithFeed(d, rest[0], rest[1..], breaks[1..]);
        }
      }
    }
  }

  lemma {:induction false} SeesAll(rows: seq<seq<string>>, breaks: seq<Break>)
    requires |rows| <= |breaks| + 1
    ensures Seen(rows, breaks) == rows <==> forall i :: !Lost(rows, breaks, i)
  {
    if |rows| > 1 {
      if Lost(rows, breaks, 0) {
        assert |Seen(rows, breaks)| < |rows|;
      } else {
        SeesAll(rows[1..], breaks[1..]);
        assert Seen(rows, breaks)[1..] == Seen(rows[1..], breaks[1..]);
        forall i: nat ensures Lost(rows, breaks, i + 1) == Lost(rows[1..], breaks[1..], i) {
        }
        forall i: nat | i > 0 ensures Lost(rows, breaks, i) == Lost(rows[1..], breaks[1..], i - 1) {
        }
      }
    }
  }

  lemma IsWritable(d: char, rows: seq<seq<string>>)
    requires Survives(d, rows) && rows != []
    ensures Writable(d, rows[0], rows[1..])
  {
    forall i | 0 <= i < |rows| ensures RowSurvives(d, rows[i]) {
      assert rows[i] in rows;
    }
  }

  /**
  Rows that survive, written with any line breaks between them, are read as the rows that are not lost; so they are read
  back if and only if no row with an empty text stands between a return and a line feed.
  */
  lemma ReadsMixedBreaks(d: char, rows: seq<seq<string>>, breaks: seq<Break>)
    requires IsDelimiter(d) && Survives(d, rows) && |rows| <= |breaks| + 1
    ensures Parse(d, Join(d, rows, breaks)) == Seen(rows, breaks)
    ensures Parse(d, Join(d, rows, breaks)) == rows <==> forall i :: !Lost(rows, breaks, i)
  {
    SeesAll(rows, breaks);
    if rows != [] {
      var row, rest := rows[0], rows[1..];
      IsWritable(d, rows);
      assert rows == [row] + rest;
      WrittenIsGood(d, row, rest, breaks);
      ShowsWritten(d, row, rest, breaks);
      JoinHead(d, rows, breaks);
      RowsWritten(d, row, rest, breaks);
      ReadsDocument(d, Written(d, row, rest, breaks));
    }
  }
}
