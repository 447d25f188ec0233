/** Repository paths inside a patch: splitting, normalising, and the canonical form. */
module Paths {
  import opened Models

  datatype Violation =
    | TooLarge | ForbiddenMarker | MalformedHeader | BadPath
    | NoFileHeader | TooManyFiles | DeclarationMismatch | ProtectedPath

  function Split(s: string): (parts: seq<string>)
    ensures |parts| >= 1
  {
    if s == "" then [""]
    else
      var rest := Split(s[1..]);
      if s[0] == '/' then [""] + rest else [[s[0]] + rest[0]] + rest[1..]
  }

  function Join(parts: seq<string>): string {
    if |parts| == 0 then "" else if |parts| == 1 then parts[0] else parts[0] + "/" + Join(parts[1..])
  }

  lemma {:induction false} SplitHasNoSlash(s: string)
    ensures forall i :: 0 <= i < |Split(s)| ==> '/' !in Split(s)[i]
  {
    if s != "" {
      SplitHasNoSlash(s[1..]);
    }
  }

  lemma {:induction false} SplitFirst(part: string, rest: string)
    requires '/' !in part
    ensures Split(part) == [part]
    ensures Split(part + "/" + rest) == [part] + Split(rest)
  {
    if part == "" {
      assert part + "/" + rest == "/" + rest;
    } else {
      SplitFirst(part[1..], rest);
      assert part == [part[0]] + part[1..];
      assert (part + "/" + rest)[1..] == part[1..] + "/" + rest;
    }
  }

  lemma {:induction false} SplitJoin(parts: seq<string>)
    requires |parts| >= 1 && forall i :: 0 <= i < |parts| ==> '/' !in parts[i]
    ensures Split(Join(parts)) == parts
  {
    if |parts| == 1 {
      SplitFirst(parts[0], "");
    } else {
      SplitJoin(parts[1..]);
      SplitFirst(parts[0], Join(parts[1..]));
    }
  }

  lemma {:induction false} JoinSplit(s: string)
    ensures Join(Split(s)) == s
  {
    if s != "" {
      JoinSplit(s[1..]);
      var rest := Split(s[1..]);
      if s[0] == '/' {
        assert Join([""] + rest) == "" + "/" + Join(rest);
      } else if |rest| > 1 {
        assert Join([[s[0]] + rest[0]] + rest[1..]) == [s[0]] + rest[0] + "/" + Join(rest[1..]);
      }
    }
  }

  predicate PlainPart(part: string) {
    part != "" && part != "."
  }

  /** The components of a path: empty and "." components are dropped. */
  function Components(parts: seq<string>): seq<string> {
    if |parts| == 0 then []
    else (if PlainPart(parts[0]) then [parts[0]] else []) + Components(parts[1..])
  }

  lemma {:induction false} ComponentsArePlain(parts: seq<string>)
    requires forall i :: 0 <= i < |parts| ==> '/' !in parts[i]
    ensures forall i :: 0 <= i < |Components(parts)| ==> PlainPart(Components(parts)[i]) && '/' !in Components(parts)[i]
    ensures (forall i :: 0 <= i < |parts| ==> PlainPart(parts[i])) ==> Components(parts) == parts
  {
    if |parts| > 0 {
      ComponentsArePlain(parts[1..]);
    }
  }

  predicate Illegal(c: char) {
    c == '\0' || c == '\\'
  }

  function NormalizeRelative(raw: string): Result<string, Violation> {
    if raw == "" || (exists c :: c in raw && Illegal(c)) || raw[0] == '/' then Err(BadPath)
    else
      var parts := Components(Split(raw));
      if |parts| == 0 || ".." in parts || parts[0] == ".git" then Err(BadPath) else Ok(Join(parts))
  }

  /** A "/dev/null" side names no path; otherwise one leading "a/" or "b/" is dropped. */
  function NormalizeDiffPath(raw: string): Result<Option<string>, Violation> {
    if raw == "/dev/null" then Ok(None)
    else
      var stripped := if |raw| >= 2 && (raw[0] == 'a' || raw[0] == 'b') && raw[1] == '/' then raw[2..] else raw;
      match NormalizeRelative(stripped)
      case Ok(path) => Ok(Some(path))
      case Err(violation) => Err(violation)
  }

  /** A relative path with no empty, "." or ".." component, outside ".git". */
  predicate Canonical(path: string) {
    var parts := Split(path);
    && (forall c :: c in path ==> !Illegal(c))
    && (forall i :: 0 <= i < |parts| ==> PlainPart(parts[i]) && parts[i] != "..")
    && parts[0] != ".git"
  }

  lemma {:induction false} JoinChars(parts: seq<string>, c: char)
    requires c in Join(parts) && c != '/'
    ensures exists i :: 0 <= i < |parts| && c in parts[i]
  {
    if |parts| > 1 && c !in parts[0] {
      JoinChars(parts[1..], c);
      var i :| 0 <= i < |parts[1..]| && c in parts[1..][i];
      assert c in parts[i + 1];
    }
  }

  lemma {:induction false} SplitChars(s: string, c: char, i: nat)
    requires i < |Split(s)| && c in Split(s)[i]
    ensures c in s
  {
    if s != "" {
      var rest := Split(s[1..]);
      if s[0] == '/' {
        if i > 0 { SplitChars(s[1..], c, i - 1); }
      } else if i > 0 || c in rest[0] {
        SplitChars(s[1..], c, i);
      }
    }
  }

  lemma {:induction false} ComponentsComeFromParts(parts: seq<string>, part: string)
    requires part in Components(parts)
    ensures part in parts
  {
    if |parts| > 0 && part != parts[0] {
      ComponentsComeFromParts(parts[1..], part);
    }
  }

  lemma NormalizeIsCanonical(raw: string)
    requires NormalizeRelative(raw).Ok?
    ensures Canonical(NormalizeRelative(raw).value)
  {
    var split := Split(raw);
    var parts := Components(split);
    SplitHasNoSlash(raw);
    ComponentsArePlain(split);
    SplitJoin(parts);
    forall c | c in Join(parts)
      ensures !Illegal(c)
    {
      if c != '/' {
        JoinChars(parts, c);
        var i :| 0 <= i < |parts| && c in parts[i];
        ComponentsComeFromParts(split, parts[i]);
        var k :| 0 <= k < |split| && split[k] == parts[i];
        SplitChars(raw, c, k);
      }
    }
  }

  /** The canonical paths are exactly the fixed points of normalisation, and normalisation yields
      only canonical paths; so it is idempotent. */
  lemma CanonicalIsFixed(path: string)
    ensures Canonical(path) <==> NormalizeRelative(path) == Ok(path)
  {
    if Canonical(path) {
      SplitHasNoSlash(path);
      ComponentsArePlain(Split(path));
      JoinSplit(path);
    }
    if NormalizeRelative(path) == Ok(path) {
      NormalizeIsCanonical(path);
    }
  }

  lemma NormalizeIsIdempotent(raw: string)
    requires NormalizeRelative(raw).Ok?
    ensures NormalizeRelative(NormalizeRelative(raw).value) == NormalizeRelative(raw)
  {
    NormalizeIsCanonical(raw);
    CanonicalIsFixed(NormalizeRelative(raw).value);
  }
}
