/** The reader as the code has it: a tokenizer that moves a position over the text, and the two loops around it. */
module DsvReader {
  import opened Dsv
  import opened DsvGrammar

  class Tokenizer {
    const delimiter: char
    const text: string
    var lastIndex: nat
    var eol: bool

    constructor (delimiter: char, text: string)
      ensures this.delimiter == delimiter && this.text == text && Rest() == text && !eol
    {
      this.delimiter := delimiter;
      this.text := text;
      lastIndex := 0;
      eol := false;
    }

    ghost function Rest(): string
      reads this
    {
      Drop(text, lastIndex)
    }

    method Token() returns (t: Token)
      modifies this
      ensures Lexed(t, Rest(), eol) == Lex(delimiter, old(Rest()), old(eol))
    {
      if lastIndex >= |text| {
        return EndOfText;
      }
      if eol {
        eol := false;
        return EndOfLine;
      }
      if text[lastIndex] == '"' {
        t := QuotedToken();
        return;
      }
      var j := lastIndex;
      ghost var s := text[j..];
      var m := j + FindBreak(delimiter, text[j..]);
      if m < |text| {
        lastIndex := if text[m] == '\r' && At(text, m + 1, '\n') then m + 2 else m + 1;
        eol := text[m] != delimiter;
        assert s[m - j] == text[m] && At(s, m - j + 1, '\n') == At(text, m + 1, '\n');
        assert s[lastIndex - j..] == text[lastIndex..];
        assert s[..m - j] == text[j..m];
        return Field(text[j..m]);
      }
      lastIndex := |text|;
      return Field(text[j..]);
    }

    /** The scan for the closing quote of the field that opens at `j`. */
    method FindClose(j: nat) returns (i: nat)
      requires j < |text|
      ensures i == j + CloseQuote(text[j..], 0)
    {
      ghost var s := text[j..];
      i := j;
      var more := true;
      while more
        invariant j <= i <= |text| + 1
        invariant more ==> i <= |text| && CloseQuote(s, i - j) == CloseQuote(s, 0)
        invariant !more ==> CloseQuote(s, 0) == i - j
        decreases more, |text| + 1 - i
      {
        more := i < |text|;
        i := i + 1;
        if more && i < |text| && text[i] == '"' {
          if At(text, i + 1, '"') {
            i := i + 1;
          } else {
            more := false;
          }
        }
      }
    }

    method QuotedToken() returns (t: Token)
      requires lastIndex < |text| && text[lastIndex] == '"' && !eol
      modifies this
      ensures Lexed(t, Rest(), eol) == LexQuoted(old(Rest()))
    {
      var j := lastIndex;
      var i := FindClose(j);
      lastIndex := i + 2;
      if At(text, i + 1, '\r') {
        eol := true;
        if At(text, i + 2, '\n') {
          lastIndex := lastIndex + 1;
        }
      } else if At(text, i + 1, '\n') {
        eol := true;
      }
      LexQuotedAt(text, j, i);
      return Field(Unescape(text[j + 1..Min(i, |text|)]));
    }
  }

  /** A quoted field, by positions in the whole text. */
  lemma LexQuotedAt(text: string, j: nat, i: nat)
    requires j < |text| && text[j] == '"' && i == j + CloseQuote(text[j..], 0)
    ensures LexQuoted(text[j..]) ==
            Lexed(Field(Unescape(text[j + 1..Min(i, |text|)])),
                  Drop(text, if At(text, i + 1, '\r') && At(text, i + 2, '\n') then i + 3 else i + 2),
                  At(text, i + 1, '\r') || At(text, i + 1, '\n'))
  {
    var s, k := text[j..], i - j;
    SameAt(text, j, k + 1, '\r');
    SameAt(text, j, k + 1, '\n');
    SameAt(text, j, k + 2, '\n');
    SameDrop(text, j, k + 2);
    SameDrop(text, j, k + 3);
    assert s[1..Min(k, |s|)] == text[j + 1..Min(i, |text|)];
  }

  lemma SameAt(text: string, j: nat, k: nat, c: char)
    requires j <= |text|
    ensures At(text[j..], k, c) == At(text, j + k, c)
  {
  }

  lemma SameDrop(text: string, j: nat, k: nat)
    requires j <= |text|
    ensures Drop(text[j..], k) == Drop(text, j + k)
  {
  }

  lemma ParseRowStep(d: char, a: seq<string>, s: string, eol: bool)
    requires Lex(d, s, eol).token.Field?
    ensures var t := Lex(d, s, eol);
            var p, q := ParseRow(d, s, eol), ParseRow(d, t.rest, t.eol);
            p.(row := a + p.row) == q.(row := a + [t.token.text] + q.row)
  {
    var t := Lex(d, s, eol);
    var q := ParseRow(d, t.rest, t.eol);
    assert a + ([t.token.text] + q.row) == a + [t.token.text] + q.row;
  }

  /** The inner loop, entered with the first token of a row already read from `s`. */
  method ReadRow(tokens: Tokenizer, first: Token, ghost s: string, ghost eol: bool) returns (a: seq<string>)
    requires Lexed(first, tokens.Rest(), tokens.eol) == Lex(tokens.delimiter, s, eol)
    modifies tokens
    ensures Parsed(a, tokens.Rest(), tokens.eol) == ParseRow(tokens.delimiter, s, eol)
  {
    var t := first;
    a := [];
    ghost var s1, eol1 := s, eol;
    while t != EndOfLine && t != EndOfText
      invariant Lexed(t, tokens.Rest(), tokens.eol) == Lex(tokens.delimiter, s1, eol1)
      invariant var p := ParseRow(tokens.delimiter, s1, eol1);
                p.(row := a + p.row) == ParseRow(tokens.delimiter, s, eol)
      decreases Work(s1, eol1)
    {
      LexWorks(tokens.delimiter, s1, eol1);
      ParseRowStep(tokens.delimiter, a, s1, eol1);
      a := a + [t.text];
      s1, eol1 := tokens.Rest(), tokens.eol;
      t := tokens.Token();
    }
  }

  lemma ParseFromStep(d: char, rows: seq<seq<string>>, s: string, eol: bool)
    requires s != ""
    ensures var p := ParseRow(d, s, eol);
            rows + ParseFrom(d, s, eol) == rows + [p.row] + ParseFrom(d, p.rest, p.eol)
  {
  }

  method ReadRows(tokens: Tokenizer) returns (rows: seq<seq<string>>)
    modifies tokens
    ensures rows == ParseFrom(tokens.delimiter, old(tokens.Rest()), old(tokens.eol))
  {
    rows := [];
    ghost var s, eol := tokens.Rest(), tokens.eol;
    var t := tokens.Token();
    while t != EndOfText
      invariant Lexed(t, tokens.Rest(), tokens.eol) == Lex(tokens.delimiter, s, eol)
      invariant rows + ParseFrom(tokens.delimiter, s, eol) ==
                ParseFrom(tokens.delimiter, old(tokens.Rest()), old(tokens.eol))
      decreases Work(s, eol)
    {
      var a := ReadRow(tokens, t, s, eol);
      ParseFromStep(tokens.delimiter, rows, s, eol);
      rows := rows + [a];
      s, eol := tokens.Rest(), tokens.eol;
      t := tokens.Token();
    }
  }

  /** The rows are those of the one document that the text is. */
  method ParseRows(delimiter: char, text: string) returns (rows: seq<seq<string>>)
    ensures rows == Parse(delimiter, text)
    ensures IsDelimiter(delimiter) ==> exists doc :: Good(delimiter, doc) && Show(doc) == text && rows == Rows(doc)
  {
    var tokens := new Tokenizer(delimiter, text);
    rows := ReadRows(tokens);
    if IsDelimiter(delimiter) {
      ghost var doc := EveryText(delimiter, text);
      ReadsDocument(delimiter, doc);
    }
  }
}
