/** Which raw paths the policy normalises and to what, which headers it accepts, and when it accepts a
    patch. */
module PathRules {
  import opened Models
  import opened Paths
  import opened PatchText
  import opened Globs
  import opened Policy
  import opened Markers
  import opened PatchReader

  lemma {:induction false} SplitStep(c: char, rest: string)
    ensures Split([c] + rest) == if c == '/' then [""] + Split(rest)
                                 else [[c] + Split(rest)[0]] + Split(rest)[1..]
  {
    assert ([c] + rest)[1..] == rest;
  }

  lemma {:induction false} SplitAtSlash(a: string, b: string)
    ensures Split(a + "/" + b) == Split(a) + Split(b)
  {
    hide Split;
    if a == "" {
      SplitStep('/', b);
      SplitNothing();
      assert a + "/" + b == ['/'] + b;
    } else {
      var tail := a[1..] + "/" + b;
      SplitAtSlash(a[1..], b);
      SplitStep(a[0], a[1..]);
      SplitStep(a[0], tail);
      assert a == [a[0]] + a[1..] && a + "/" + b == [a[0]] + tail;
      assert Split(tail)[1..] == Split(a[1..])[1..] + Split(b);
    }
  }

  lemma SplitNothing()
    ensures Split("") == [""]
  {
  }

  lemma {:induction false} ComponentsAppend(a: seq<string>, b: seq<string>)
    ensures Components(a + b) == Components(a) + Components(b)
  {
    if a == [] {
      assert a + b == b;
    } else {
      assert (a + b)[1..] == a[1..] + b;
      ComponentsAppend(a[1..], b);
    }
  }

  predicate HasIllegal(raw: string) {
    exists c :: c in raw && Illegal(c)
  }

  /** Two raw paths with the same components, both or neither empty, absolute or with an illegal character. */
  lemma SameComponents(raw: string, other: string)
    requires (raw == "" <==> other == "") && (HasIllegal(raw) <==> HasIllegal(other))
    requires raw != "" ==> (raw[0] == '/' <==> other[0] == '/')
    requires Components(Split(raw)) == Components(Split(other))
    ensures NormalizeRelative(raw) == NormalizeRelative(other)
  {
  }

  lemma IllegalInParts(a: string, middle: string, b: string)
    requires forall c :: c in middle ==> !Illegal(c)
    ensures HasIllegal(a + middle + b) <==> HasIllegal(a) || HasIllegal(b)
  {
    var whole := a + middle + b;
    assert forall c :: c in whole <==> c in a || c in middle || c in b;
  }

  /** A component that is dropped may as well not be there. */
  lemma DroppedBetween(a: string, part: string, b: string)
    requires part == "" || part == "."
    ensures NormalizeRelative(a + "/" + part + "/" + b) == NormalizeRelative(a + "/" + b)
  {
    hide NormalizeRelative, Split, Components, HasIllegal;
    SplitAtSlash(a, b);
    SplitAtSlash(part, b);
    SplitAtSlash(a, part + "/" + b);
    assert a + "/" + part + "/" + b == a + "/" + (part + "/" + b);
    SplitOfDropped();
    ComponentsAppend(Split(a), Split(b));
    ComponentsAppend(Split(a), Split(part) + Split(b));
    ComponentsAppend(Split(part), Split(b));
    assert [] + Components(Split(b)) == Components(Split(b));
    IllegalInParts(a, "/", b);
    IllegalInParts(a, "/" + part + "/", b);
    assert a + "/" + part + "/" + b == a + ("/" + part + "/") + b;
    SameComponents(a + "/" + part + "/" + b, a + "/" + b);
  }

  lemma SplitOfDropped()
    ensures Components(Split("")) == [] && Components(Split(".")) == []
  {
    SplitNothing();
    SplitFirst(".", "");
    DroppedParts();
  }

  /** Doubled slashes and "." components between two parts change nothing. */
  lemma SlashesAndDotsAreDropped(a: string, b: string)
    ensures NormalizeRelative(a + "//" + b) == NormalizeRelative(a + "/" + b)
    ensures NormalizeRelative(a + "/./" + b) == NormalizeRelative(a + "/" + b)
  {
    hide NormalizeRelative;
    DroppedBetween(a, "", b);
    DroppedBetween(a, ".", b);
    assert a + "/" + "" + "/" + b == a + "//" + b && a + "/" + "." + "/" + b == a + "/./" + b;
  }

  lemma DroppedParts()
    ensures Components([""]) == [] && Components(["."]) == []
  {
    assert [""][1..] == [] && ["."][1..] == [];
  }

  lemma EmptyPaths()
    ensures NormalizeRelative("./") == NormalizeRelative("/") == NormalizeRelative("") == Err(BadPath)
  {
    hide Split, Components;
    SplitAtSlash(".", "");
    SplitOfDropped();
    ComponentsAppend(Split("."), Split(""));
    assert "." + "/" + "" == "./";
  }

  lemma DotInFront(path: string)
    requires path != "" && path[0] != '/'
    ensures NormalizeRelative("./" + path) == NormalizeRelative(path)
  {
    hide NormalizeRelative, Split, Components, HasIllegal;
    SplitAtSlash(".", path);
    assert "." + "/" + path == "./" + path && "" + "./" + path == "./" + path;
    SplitOfDropped();
    ComponentsAppend(Split("."), Split(path));
    assert [] + Components(Split(path)) == Components(Split(path));
    IllegalInParts("", "./", path);
    NothingIllegal();
    SameComponents("./" + path, path);
  }

  lemma NothingIllegal()
    ensures !HasIllegal("")
  {
  }

  lemma SlashBehind(path: string)
    requires path != ""
    ensures NormalizeRelative(path + "/") == NormalizeRelative(path)
  {
    hide NormalizeRelative, Split, Components, HasIllegal;
    SplitAtSlash(path, "");
    assert path + "/" + "" == path + "/";
    SplitOfDropped();
    ComponentsAppend(Split(path), Split(""));
    assert Components(Split(path)) + [] == Components(Split(path));
    IllegalInParts(path, "/", "");
    NothingIllegal();
    SameComponents(path + "/", path);
  }

  /** A "./" in front of a relative path and a slash after a path change nothing. */
  lemma EndsAreDropped(path: string)
    ensures path == "" || path[0] != '/' ==> NormalizeRelative("./" + path) == NormalizeRelative(path)
    ensures NormalizeRelative(path + "/") == NormalizeRelative(path)
  {
    hide NormalizeRelative;
    if path == "" {
      EmptyPaths();
      assert "./" + path == "./" && path + "/" == "/";
    } else {
      SlashBehind(path);
      if path[0] != '/' {
        DotInFront(path);
      }
    }
  }

  /** The place of the first component that is neither empty nor ".", or the number of components. */
  function FirstPlain(parts: seq<string>): (i: nat)
    ensures i <= |parts|
  {
    if parts == [] || (parts[0] != "" && parts[0] != ".") then 0 else 1 + FirstPlain(parts[1..])
  }

  lemma {:induction false} ComponentsMeet(parts: seq<string>)
    ensures Components(parts) == [] <==> FirstPlain(parts) == |parts|
    ensures FirstPlain(parts) < |parts| ==> Components(parts) != [] && Components(parts)[0] == parts[FirstPlain(parts)]
    ensures ".." in Components(parts) <==> ".." in parts
  {
    if parts != [] {
      ComponentsMeet(parts[1..]);
      assert parts == [parts[0]] + parts[1..];
    }
  }

  /** Exactly these raw paths are refused: the empty one, absolute ones, those with a NUL or a backslash, with
      a ".." anywhere, with nothing but empty and "." components, or with ".git" as the first other one. */
  lemma RefusedPaths(raw: string)
    ensures NormalizeRelative(raw).Err? <==>
              || raw == "" || raw[0] == '/' || '\0' in raw || '\\' in raw
              || ".." in Split(raw)
              || FirstPlain(Split(raw)) == |Split(raw)|
              || Split(raw)[FirstPlain(Split(raw))] == ".git"
  {
    ComponentsMeet(Split(raw));
  }

  /** One "a/" or "b/" is cut off a header name, nothing else is, and "/dev/null" is no file. */
  lemma HeaderNames(name: string)
    ensures NormalizeDiffPath("/dev/null") == Ok(None)
    ensures forall prefix :: prefix == "a/" || prefix == "b/" ==>
              NormalizeDiffPath(prefix + name) == match NormalizeRelative(name)
                                                  case Ok(path) => Ok(Some(path))
                                                  case Err(e) => Err(e)
    ensures !("a/" <= name) && !("b/" <= name) && name != "/dev/null" ==>
              NormalizeDiffPath(name) == match NormalizeRelative(name)
                                         case Ok(path) => Ok(Some(path))
                                         case Err(e) => Err(e)
  {
    hide NormalizeRelative;
    assert ("a/" + name)[2..] == name && ("b/" + name)[2..] == name;
    assert ("a/" + name)[0] == 'a' && ("b/" + name)[0] == 'b' && "/dev/null"[0] == '/';
    if |name| >= 2 {
      assert name[..2] == [name[0], name[1]];
    }
  }

  /** In an accepted patch every diff header has four fields with two names that can be normalised, and every
      file header at least one. */
  lemma AcceptedHeadersAreWellFormed(policy: PatchPolicy, candidate: PatchCandidate, line: string)
    requires Inspected(policy, candidate).Ok? && line in SplitLines(candidate.patch)
    ensures "diff --git " <= line ==>
              && ShellFields(line).Ok? && |ShellFields(line).value| == 4
              && NormalizeDiffPath(ShellFields(line).value[2]).Ok? && NormalizeDiffPath(ShellFields(line).value[3]).Ok?
    ensures "--- " <= line || "+++ " <= line ==>
              && ShellFields(BeforeTab(line[4..])).Ok? && |ShellFields(BeforeTab(line[4..])).value| >= 1
              && NormalizeDiffPath(ShellFields(BeforeTab(line[4..])).value[0]).Ok?
  {
    hide Inspected, ScanLines, SplitLines;
    AcceptedScan(policy, candidate);
    LinesScan(EMPTY_SCAN, SplitLines(candidate.patch), line);
    if "--- " <= line || "+++ " <= line {
      assert line[0] == '-' || line[0] == '+';
      assert !(DIFF_PREFIX <= line) by { assert DIFF_PREFIX[0] == 'd'; }
    }
  }

  /** A patch is accepted if and only if it is within the size limit, spells no marker, scans, names between
      one and `max_files` files, all declared paths can be normalised, the declared and the named paths are
      the same, and none of them is protected. */
  lemma AcceptedIff(policy: PatchPolicy, candidate: PatchCandidate)
    ensures Inspected(policy, candidate).Ok? <==>
              && Utf8Size(candidate.patch) <= policy.maxPatchBytes && !ShowsAMarker(candidate.patch)
              && var scan := ScanLines(EMPTY_SCAN, SplitLines(candidate.patch));
              && scan.Ok? && 1 <= |scan.value.paths| <= policy.maxFiles
              && (forall i :: 0 <= i < |candidate.touchedFiles| ==> NormalizeRelative(candidate.touchedFiles[i]).Ok?)
              && (forall path :: path in scan.value.paths <==>
                    exists i :: 0 <= i < |candidate.touchedFiles|
                                && NormalizeRelative(candidate.touchedFiles[i]) == Ok(path))
              && (forall path :: path in scan.value.paths ==> !Protects(policy.patterns, path))
  {
    hide ScanLines, NormalizeRelative, ShowsAMarker, HasForbiddenMarker, Protects;
    MarkerMeansSpelled(candidate.patch);
    AllNormalize(candidate.touchedFiles);
    if NormalizeAll(candidate.touchedFiles).Ok? {
      NormalizeAllIsPointwise(candidate.touchedFiles);
      DeclaredAre(candidate.touchedFiles);
    }
  }

  /** The same for the default policy, with its limits and what it protects written out. */
  lemma AcceptedByDefaultIff(candidate: PatchCandidate)
    ensures DEFAULT_POLICY.version == "v1"
    ensures Inspected(DEFAULT_POLICY, candidate).Ok? <==>
              && Utf8Size(candidate.patch) <= 200000 && !ShowsAMarker(candidate.patch)
              && var scan := ScanLines(EMPTY_SCAN, SplitLines(candidate.patch));
              && scan.Ok? && 1 <= |scan.value.paths| <= 8
              && (forall i :: 0 <= i < |candidate.touchedFiles| ==> NormalizeRelative(candidate.touchedFiles[i]).Ok?)
              && (forall path :: path in scan.value.paths <==>
                    exists i :: 0 <= i < |candidate.touchedFiles|
                                && NormalizeRelative(candidate.touchedFiles[i]) == Ok(path))
              && (forall path :: path in scan.value.paths ==> !DefaultProtects(path))
  {
    hide Inspected, ScanLines, NormalizeRelative, ShowsAMarker, Protects, DefaultProtects;
    AcceptedIff(DEFAULT_POLICY, candidate);
    forall path
      ensures Protects(DEFAULT_POLICY.patterns, path) <==> DefaultProtects(path)
    {
      DefaultPatternsProtectExactly(path);
    }
  }

  lemma {:induction false} AllNormalize(raws: seq<string>)
    ensures NormalizeAll(raws).Ok? <==> forall i :: 0 <= i < |raws| ==> NormalizeRelative(raws[i]).Ok?
  {
    hide NormalizeRelative;
    if raws != [] {
      AllNormalize(raws[1..]);
      assert raws == [raws[0]] + raws[1..];
    }
  }

  lemma {:induction false} DeclaredAre(raws: seq<string>)
    requires NormalizeAll(raws).Ok?
    ensures forall path :: path in NormalizeAll(raws).value <==>
              exists i :: 0 <= i < |raws| && NormalizeRelative(raws[i]) == Ok(path)
  {
    hide NormalizeRelative, NormalizeAll;
    NormalizeAllIsPointwise(raws);
    var declared := NormalizeAll(raws).value;
    forall path
      ensures path in declared <==> exists i :: 0 <= i < |raws| && NormalizeRelative(raws[i]) == Ok(path)
    {
      if path in declared {
        var i :| 0 <= i < |declared| && declared[i] == path;
        assert NormalizeRelative(raws[i]) == Ok(path);
      }
      if i :| 0 <= i < |raws| && NormalizeRelative(raws[i]) == Ok(path) {
        assert declared[i] == path;
      }
    }
  }
}
