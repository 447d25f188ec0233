/** Reading the text of a patch: line splitting, shell-style field splitting, size and markers. */
module PatchText {
  import opened Models
  import opened Paths

  /** The line breaks of `str.splitlines`. */
  predicate IsBreak(c: char) {
    || c == '\n' || c == '\r' || '\U{000B}' <= c <= '\U{000C}' || '\U{001C}' <= c <= '\U{001E}'
    || c == '\U{0085}' || c == '\U{2028}' || c == '\U{2029}'
  }

  /** The index of the first break, or the length. */
  function LineEnd(text: string): (n: nat)
    ensures n <= |text|
    ensures forall i :: 0 <= i < n ==> !IsBreak(text[i])
    ensures n < |text| ==> IsBreak(text[n])
  {
    if text == "" || IsBreak(text[0]) then 0 else 1 + LineEnd(text[1..])
  }

  function BreakWidth(text: string, n: nat): (w: nat)
    requires n < |text|
    ensures 1 <= w && n + w <= |text|
  {
    if text[n] == '\r' && n + 1 < |text| && text[n + 1] == '\n' then 2 else 1
  }

  function SplitLines(text: string): seq<string>
    decreases |text|
  {
    if text == "" then []
    else
      var n := LineEnd(text);
      if n == |text| then [text] else [text[..n]] + SplitLines(text[n + BreakWidth(text, n)..])
  }

  /** Each line followed by a newline. */
  function Unlines(lines: seq<string>): string {
    if |lines| == 0 then "" else lines[0] + "\n" + Unlines(lines[1..])
  }

  predicate OneLine(line: string) {
    forall i :: 0 <= i < |line| ==> !IsBreak(line[i])
  }

  lemma LineEndAt(line: string, rest: string)
    requires OneLine(line)
    ensures LineEnd(line + "\n" + rest) == |line|
  {
    var text := line + "\n" + rest;
    assert forall i :: 0 <= i < |line| ==> text[i] == line[i];
    assert text[|line|] == '\n';
  }

  lemma {:induction false} SplitUnlines(lines: seq<string>)
    requires forall i :: 0 <= i < |lines| ==> OneLine(lines[i])
    ensures SplitLines(Unlines(lines)) == lines
  {
    if |lines| > 0 {
      var rest := Unlines(lines[1..]);
      var text := lines[0] + "\n" + rest;
      LineEndAt(lines[0], rest);
      SplitUnlines(lines[1..]);
      assert text[..|lines[0]|] == lines[0];
      assert text[|lines[0]|] == '\n';
      assert text[|lines[0]| + 1..] == rest;
    }
  }

  // Shell-style splitting

  datatype LexState = Space | Word | Quote(mark: char) | Escape(outer: char)

  predicate IsWhite(c: char) {
    c == ' ' || c == '\t' || c == '\r' || c == '\n'
  }

  predicate IsQuote(c: char) {
    c == '\'' || c == '"'
  }

  /** The fields of `shlex.split`: quotes group, a backslash escapes, and inside double quotes it
      escapes only a double quote or a backslash. An open quote or a trailing backslash is an error. */
  function Lex(s: string, state: LexState, token: string, quoted: bool): Result<seq<string>, Violation>
    decreases |s|
  {
    if s == "" then
      match state
      case Space => Ok([])
      case Word => Ok(if token != "" || quoted then [token] else [])
      case _ => Err(MalformedHeader)
    else
      var (c, rest) := (s[0], s[1..]);
      match state
      case Space =>
        if IsWhite(c) then Lex(rest, Space, "", false)
        else if c == '\\' then Lex(rest, Escape('a'), "", false)
        else if IsQuote(c) then Lex(rest, Quote(c), "", false)
        else Lex(rest, Word, [c], false)
      case Word =>
        if IsWhite(c) then
          (match Lex(rest, Space, "", false)
           case Ok(fields) => Ok((if token != "" || quoted then [token] else []) + fields)
           case Err(violation) => Err(violation))
        else if IsQuote(c) then Lex(rest, Quote(c), token, quoted)
        else if c == '\\' then Lex(rest, Escape('a'), token, quoted)
        else Lex(rest, Word, token + [c], quoted)
      case Quote(mark) =>
        if c == mark then Lex(rest, Word, token, true)
        else if c == '\\' && mark == '"' then Lex(rest, Escape('"'), token, true)
        else Lex(rest, Quote(mark), token + [c], true)
      case Escape(outer) =>
        var kept := if outer == '"' && c != '\\' && c != '"' then "\\" else "";
        Lex(rest, if outer == '"' then Quote('"') else Word, token + kept + [c], quoted)
  }

  function ShellFields(s: string): Result<seq<string>, Violation> {
    Lex(s, Space, "", false)
  }

  predicate PlainChar(c: char) {
    !IsWhite(c) && !IsQuote(c) && c != '\\'
  }

  predicate PlainWord(word: string) {
    word != "" && forall i :: 0 <= i < |word| ==> PlainChar(word[i])
  }

  lemma {:induction false} LexWord(word: string, token: string, rest: string)
    requires token != "" && forall i :: 0 <= i < |word| ==> PlainChar(word[i])
    ensures Lex(word, Word, token, false) == Ok([token + word])
    ensures Lex(word + " " + rest, Word, token, false) ==
              match ShellFields(rest) case Ok(fields) => Ok([token + word] + fields) case Err(e) => Err(e)
  {
    if word == "" {
      assert word + " " + rest == " " + rest && (" " + rest)[1..] == rest;
      assert token + word == token;
    } else {
      LexWord(word[1..], token + [word[0]], rest);
      assert (word + " " + rest)[1..] == word[1..] + " " + rest;
      assert token + [word[0]] + word[1..] == token + word;
    }
  }

  /** A plain word is one field, and a space after it starts the next. */
  lemma PlainWordIsAField(word: string, rest: string)
    requires PlainWord(word)
    ensures ShellFields(word) == Ok([word])
    ensures ShellFields(word + " " + rest) ==
              match ShellFields(rest) case Ok(fields) => Ok([word] + fields) case Err(e) => Err(e)
  {
    LexWord(word[1..], [word[0]], rest);
    assert (word + " " + rest)[1..] == word[1..] + " " + rest;
    assert [word[0]] + word[1..] == word;
  }

  function BeforeTab(s: string): string {
    if s == "" || s[0] == '\t' then "" else [s[0]] + BeforeTab(s[1..])
  }

  lemma {:induction false} BeforeTabOfPlain(s: string)
    requires forall i :: 0 <= i < |s| ==> s[i] != '\t'
    ensures BeforeTab(s) == s
  {
    if s != "" {
      BeforeTabOfPlain(s[1..]);
    }
  }

  // Size and markers

  /** The number of bytes of the UTF-8 encoding. */
  function Utf8Size(text: string): nat {
    if text == "" then 0 else CharSize(text[0]) + Utf8Size(text[1..])
  }

  function CharSize(c: char): nat {
    if c < '\U{0080}' then 1 else if c < '\U{0800}' then 2 else if c < '\U{10000}' then 3 else 4
  }

  function LowerChar(c: char): char {
    if 'A' <= c <= 'Z' then c - 'A' + 'a' else c
  }

  function Lower(text: string): string {
    seq(|text|, i requires 0 <= i < |text| => LowerChar(text[i]))
  }

  predicate Contains(text: string, part: string) {
    exists i :: 0 <= i <= |text| && part <= text[i..]
  }

  const FORBIDDEN_MARKERS: seq<string> := [
    "git binary patch", "binary files ", "new file mode 120000", "old mode 120000",
    "new file mode 160000", "old mode 160000"
  ]

  predicate HasForbiddenMarker(text: string) {
    exists i :: 0 <= i < |FORBIDDEN_MARKERS| && Contains(Lower(text), FORBIDDEN_MARKERS[i])
  }
}
