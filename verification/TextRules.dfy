/** What reading the text of a patch means: what quoting does to a field, and where lines end. */
module TextRules {
  import opened Models
  import opened Paths
  import opened PatchText

  // Quoting

  lemma {:induction false} InsideSingleQuotes(word: string, token: string, rest: string, quoted: bool)
    requires '\'' !in word
    ensures Lex(word + "'" + rest, Quote('\''), token, quoted) == Lex(rest, Word, token + word, true)
    ensures Lex(word, Quote('\''), token, quoted) == Err(MalformedHeader)
  {
    if word == "" {
      assert word + "'" + rest == "'" + rest && ("'" + rest)[1..] == rest && token + word == token;
    } else {
      InsideSingleQuotes(word[1..], token + [word[0]], rest, true);
      assert (word + "'" + rest)[1..] == word[1..] + "'" + rest;
      assert token + [word[0]] + word[1..] == token + word;
    }
  }

  /** Single quotes make one field of any text without them, the empty one included; left open they are an
      error. */
  lemma SingleQuotesQuote(word: string)
    requires '\'' !in word
    ensures ShellFields("'" + word + "'") == Ok([word])
    ensures ShellFields("'" + word) == Err(MalformedHeader)
  {
    InsideSingleQuotes(word, "", "", false);
    assert ("'" + word + "'")[1..] == word + "'" + "" && ("'" + word)[1..] == word;
    assert "" + word == word;
  }

  /** A backslash in front of every double quote and every backslash. */
  function InDoubleQuotes(word: string): string {
    if word == "" then ""
    else (if word[0] == '"' || word[0] == '\\' then "\\" else "") + [word[0]] + InDoubleQuotes(word[1..])
  }

  /** A backslash in front of every character. */
  function Backslashed(word: string): string {
    if word == "" then "" else ['\\', word[0]] + Backslashed(word[1..])
  }

  lemma {:induction false} InsideDoubleQuotes(word: string, token: string, quoted: bool)
    ensures Lex(InDoubleQuotes(word) + "\"", Quote('"'), token, quoted) == Ok([token + word])
    decreases |word|
  {
    var text := InDoubleQuotes(word) + "\"";
    if word == "" {
      assert text == "\"" && text[1..] == "" && token + word == token;
    } else {
      var (c, rest) := (word[0], InDoubleQuotes(word[1..]) + "\"");
      InsideDoubleQuotes(word[1..], token + [c], true);
      assert token + [c] + word[1..] == token + word;
      if c == '"' || c == '\\' {
        assert text[1..][1..] == rest && text[1..][0] == c && text[0] == '\\';
        assert token + "" + [c] == token + [c];
        InsideDoubleQuotes(word[1..], token + [c], quoted);
      } else {
        assert text[1..] == rest && text[0] == c;
      }
    }
  }

  /** Double quotes make one field of any text in which quotes and backslashes are escaped. */
  lemma DoubleQuotesQuote(word: string)
    ensures ShellFields("\"" + InDoubleQuotes(word) + "\"") == Ok([word])
  {
    var text := "\"" + InDoubleQuotes(word) + "\"";
    assert text[1..] == InDoubleQuotes(word) + "\"";
    InsideDoubleQuotes(word, "", false);
    assert "" + word == word;
  }

  /** Inside double quotes a backslash in front of any other character stands for itself. */
  lemma OtherBackslashesStay(c: char)
    requires c != '"' && c != '\\'
    ensures ShellFields(['"', '\\', c, '"']) == Ok([['\\', c]])
  {
    var text := ['"', '\\', c, '"'];
    assert text[1..] == ['\\', c, '"'] && text[1..][1..] == [c, '"'] && [c, '"'][1..] == ['"'];
    assert "" + "\\" + [c] == ['\\', c];
    assert Lex(['"'], Quote('"'), ['\\', c], true) == Lex("", Word, ['\\', c], true);
    assert Lex([c, '"'], Escape('"'), "", true) == Lex(['"'], Quote('"'), ['\\', c], true);
    assert Lex(text[1..], Quote('"'), "", false) == Lex([c, '"'], Escape('"'), "", true);
  }

  lemma {:induction false} BackslashesInAWord(word: string, token: string)
    requires token != "" || word != ""
    ensures Lex(Backslashed(word), Word, token, false) == Ok([token + word])
    decreases |word|
  {
    var text := Backslashed(word);
    if word == "" {
      assert token + word == token;
    } else {
      BackslashesInAWord(word[1..], token + [word[0]]);
      assert text[0] == '\\' && text[1..][0] == word[0] && text[1..][1..] == Backslashed(word[1..]);
      assert token + "" + [word[0]] == token + [word[0]];
      assert token + [word[0]] + word[1..] == token + word;
    }
  }

  /** A backslash in front of every character makes one field of any text but the empty one. */
  lemma BackslashesQuote(word: string)
    requires word != ""
    ensures ShellFields(Backslashed(word)) == Ok([word])
  {
    var text := Backslashed(word);
    BackslashesInAWord(word[1..], [word[0]]);
    assert Lex(text, Space, "", false) == Lex(text[1..], Escape('a'), "", false);
    assert text[0] == '\\' && text[1..][0] == word[0] && text[1..][1..] == Backslashed(word[1..]);
    assert "" + "" + [word[0]] == [word[0]] && [word[0]] + word[1..] == word;
  }

  /** Spaces, tabs, returns and newlines end a field, and more of them change nothing. */
  lemma BlanksSeparate(word: string, blank: char, rest: string)
    requires PlainWord(word) && blank in {' ', '\t', '\r', '\n'}
    ensures ShellFields([blank] + rest) == ShellFields(rest)
    ensures ShellFields(word + [blank] + rest) == match ShellFields(rest)
                                                  case Ok(fields) => Ok([word] + fields)
                                                  case Err(e) => Err(e)
  {
    assert ([blank] + rest)[1..] == rest;
    BlankEndsTheWord(word[1..], [word[0]], blank, rest);
    assert (word + [blank] + rest)[1..] == word[1..] + [blank] + rest;
    assert [word[0]] + word[1..] == word;
  }

  lemma {:induction false} BlankEndsTheWord(word: string, token: string, blank: char, rest: string)
    requires token != "" && (forall i :: 0 <= i < |word| ==> PlainChar(word[i])) && IsWhite(blank)
    ensures Lex(word + [blank] + rest, Word, token, false) ==
              match ShellFields(rest) case Ok(fields) => Ok([token + word] + fields) case Err(e) => Err(e)
  {
    if word == "" {
      assert word + [blank] + rest == [blank] + rest && ([blank] + rest)[1..] == rest && token + word == token;
    } else {
      BlankEndsTheWord(word[1..], token + [word[0]], blank, rest);
      assert (word + [blank] + rest)[1..] == word[1..] + [blank] + rest;
      assert token + [word[0]] + word[1..] == token + word;
    }
  }

  // Lines

  /** The characters at which Python ends a line, by their numbers. */
  predicate EndsALine(c: char) {
    c as int in {10, 11, 12, 13, 28, 29, 30, 133, 8232, 8233}
  }

  /** What stands between two lines: one such character, or a return and a newline. */
  predicate LineBreak(end: string) {
    end == "\r\n" || (|end| == 1 && EndsALine(end[0]))
  }

  function Weave(lines: seq<string>, ends: seq<string>): string
    requires |lines| == |ends|
  {
    if lines == [] then "" else lines[0] + ends[0] + Weave(lines[1..], ends[1..])
  }

  /** What the scan cuts out at the end of a line. */
  lemma LineEndsInABreak(text: string, n: nat)
    requires n == LineEnd(text) < |text|
    ensures LineBreak(text[n..n + BreakWidth(text, n)])
    ensures text[n..n + BreakWidth(text, n)] == "\r" ==> n + 1 == |text| || text[n + 1] != '\n'
    ensures forall k :: 0 <= k < n ==> !EndsALine(text[k])
  {
  }

  /** The breaks are breaks; only the last line may lack its break, and then it is not empty. */
  predicate Breaks(lines: seq<string>, ends: seq<string>)
    requires |lines| == |ends|
  {
    && (forall i, k :: 0 <= i < |ends| && 0 <= k < |lines[i]| ==> !EndsALine(lines[i][k]))
    && (forall i :: 0 <= i < |ends| ==> LineBreak(ends[i]) || (i == |ends| - 1 && ends[i] == "" && lines[i] != ""))
    && (forall i :: 0 <= i < |ends| - 1 && ends[i] == "\r" ==> lines[i + 1] != "" || ends[i + 1] != "\n")
  }

  lemma WeaveOneMore(line: string, end: string, lines: seq<string>, ends: seq<string>)
    requires |lines| == |ends|
    ensures Weave([line] + lines, [end] + ends) == line + end + Weave(lines, ends)
  {
    assert ([line] + lines)[1..] == lines && ([end] + ends)[1..] == ends;
  }

  lemma WeaveStarts(lines: seq<string>, ends: seq<string>)
    requires |lines| == |ends| > 0 && lines[0] == "" && ends[0] == "\n"
    ensures Weave(lines, ends) != "" && Weave(lines, ends)[0] == '\n'
  {
  }

  lemma OneMoreLine(line: string, end: string, lines: seq<string>, ends: seq<string>)
    requires |lines| == |ends| && Breaks(lines, ends) && LineBreak(end)
    requires forall k :: 0 <= k < |line| ==> !EndsALine(line[k])
    requires end == "\r" && Weave(lines, ends) != "" ==> Weave(lines, ends)[0] != '\n'
    ensures Breaks([line] + lines, [end] + ends)
  {
    hide EndsALine, LineBreak, Weave;
    var (ls, es) := ([line] + lines, [end] + ends);
    forall i | 0 <= i < |es|
      ensures forall k :: 0 <= k < |ls[i]| ==> !EndsALine(ls[i][k])
      ensures LineBreak(es[i]) || (i == |es| - 1 && es[i] == "" && ls[i] != "")
    {
      if i > 0 {
        assert ls[i] == lines[i - 1] && es[i] == ends[i - 1];
      }
    }
    forall i | 0 <= i < |es| - 1 && es[i] == "\r"
      ensures ls[i + 1] != "" || es[i + 1] != "\n"
    {
      if i > 0 {
        assert ls[i + 1] == lines[i] && es[i] == ends[i - 1] && es[i + 1] == ends[i];
      } else if lines[0] == "" && ends[0] == "\n" {
        WeaveStarts(lines, ends);
      }
    }
  }

  /** Splitting takes a text apart into lines without breaks and the breaks between them. A return and the
      newline after it are one break. */
  lemma {:induction false} LinesAndBreaks(text: string) returns (ends: seq<string>)
    ensures |ends| == |SplitLines(text)| && Weave(SplitLines(text), ends) == text && Breaks(SplitLines(text), ends)
    decreases |text|
  {
    hide Breaks, Weave, LineEnd, BreakWidth, SplitLines, EndsALine, LineBreak, IsBreak;
    ends := [];
    if text == "" {
      NoLines();
    } else {
      var n := LineEnd(text);
      if n == |text| {
        ends := [""];
        OnlyLine(text);
        LastLine(text);
      } else {
        var w := BreakWidth(text, n);
        var more := LinesAndBreaks(text[n + w..]);
        ends := [text[n..n + w]] + more;
        FirstLine(text);
        LineEndsInABreak(text, n);
        OneMoreLine(text[..n], text[n..n + w], SplitLines(text[n + w..]), more);
        WeaveOneMore(text[..n], text[n..n + w], SplitLines(text[n + w..]), more);
        assert text[..n] + text[n..n + w] + text[n + w..] == text;
      }
    }
  }

  lemma {:induction false} FirstLine(text: string)
    requires text != "" && LineEnd(text) < |text|
    ensures var n := LineEnd(text);
      SplitLines(text) == [text[..n]] + SplitLines(text[n + BreakWidth(text, n)..])
  {
  }

  lemma OnlyLine(text: string)
    requires text != "" && LineEnd(text) == |text|
    ensures SplitLines(text) == [text]
  {
    hide LineEnd, BreakWidth, IsBreak;
  }

  lemma NoLines()
    ensures SplitLines("") == []
    ensures Weave([], []) == "" && Breaks([], [])
  {
  }

  lemma LastLine(text: string)
    requires text != "" && LineEnd(text) == |text|
    ensures Weave([text], [""]) == text && Breaks([text], [""])
  {
    assert [text][1..] == [] && [""][1..] == [] && text + "" + "" == text;
  }
}
