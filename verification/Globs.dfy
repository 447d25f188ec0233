/** The protected-path patterns. A star matches any run of characters, slashes included. */
module Globs {
  import opened Paths

  const DEFAULT_PATTERNS: seq<string> := [
    ".git/**", ".github/**", ".circleci/**", ".gitlab/**", ".gitlab-ci.yml", ".upgradelab/**",
    ".travis.yml", "azure-pipelines.yml", "Jenkinsfile", "conftest.py", "**/conftest.py",
    "pytest.ini", "tox.ini", "tests/**", "test/**", "test_*.py", "*_test.py", "**/test_*.py",
    "**/*_test.py", "benchmarks/verifier/**", "benchmarks/verifiers/**", "benchmarks/**/verifier.py"
  ]

  predicate Match(pattern: string, name: string)
    decreases |pattern| + |name|
  {
    if pattern == "" then name == ""
    else if pattern[0] == '*' then Match(pattern[1..], name) || (name != "" && Match(pattern, name[1..]))
    else name != "" && (pattern[0] == '?' || pattern[0] == name[0]) && Match(pattern[1..], name[1..])
  }

  predicate Literal(text: string) {
    forall i :: 0 <= i < |text| ==> text[i] != '*' && text[i] != '?'
  }

  predicate EndsWith(name: string, suffix: string) {
    |suffix| <= |name| && name[|name| - |suffix|..] == suffix
  }

  /** A literal prefix of a pattern is a prefix of the name. */
  lemma {:induction false} MatchPrefix(text: string, pattern: string, name: string)
    requires Literal(text)
    ensures Match(text + pattern, name) <==> text <= name && Match(pattern, name[|text|..])
  {
    if text == "" {
      assert text + pattern == pattern;
    } else {
      assert (text + pattern)[1..] == text[1..] + pattern;
      if name != "" {
        MatchPrefix(text[1..], pattern, name[1..]);
        assert text <= name <==> text[0] == name[0] && text[1..] <= name[1..];
      }
    }
  }

  lemma MatchLiteral(text: string, name: string)
    requires Literal(text)
    ensures Match(text, name) <==> name == text
  {
    MatchPrefix(text, "", name);
    assert text + "" == text;
  }

  /** A star lets the rest of the pattern match any suffix of the name. */
  lemma {:induction false} MatchStar(pattern: string, name: string)
    ensures Match("*" + pattern, name) <==> exists i :: 0 <= i <= |name| && Match(pattern, name[i..])
  {
    var starred := "*" + pattern;
    assert starred[1..] == pattern && name[0..] == name;
    if name != "" {
      MatchStar(pattern, name[1..]);
      if i :| 0 <= i <= |name[1..]| && Match(pattern, name[1..][i..]) {
        assert name[1..][i..] == name[i + 1..];
      }
      if i :| 0 <= i <= |name| && Match(pattern, name[i..]) {
        if i > 0 {
          assert name[1..][i - 1..] == name[i..];
        }
      }
    } else {
      assert forall i :: 0 <= i <= |name| ==> name[i..] == name;
    }
  }

  lemma MatchStarAll(name: string)
    ensures Match("*", name)
  {
    MatchStar("", name);
    assert "*" + "" == "*";
    assert Match("", name[|name|..]);
  }

  lemma {:induction false} MatchStarStar(pattern: string, name: string)
    ensures Match("**" + pattern, name) <==> Match("*" + pattern, name)
  {
    assert "**" + pattern == "*" + ("*" + pattern);
    MatchStar("*" + pattern, name);
    MatchStar(pattern, name);
    if i :| 0 <= i <= |name| && Match("*" + pattern, name[i..]) {
      MatchStar(pattern, name[i..]);
      var j :| 0 <= j <= |name[i..]| && Match(pattern, name[i..][j..]);
      assert name[i..][j..] == name[i + j..];
    }
    if Match("*" + pattern, name) {
      assert name[0..] == name;
      assert Match("*" + pattern, name[0..]);
    }
  }

  lemma MatchUnder(folder: string, name: string)
    requires Literal(folder)
    ensures Match(folder + "**", name) <==> folder <= name
  {
    MatchPrefix(folder, "**", name);
    if folder <= name {
      MatchStarStar("", name[|folder|..]);
      assert "**" + "" == "**" && "*" + "" == "*";
      MatchStarAll(name[|folder|..]);
    }
  }

  lemma {:induction false} MatchSuffix(suffix: string, name: string)
    requires Literal(suffix)
    ensures Match("*" + suffix, name) <==> EndsWith(name, suffix)
    ensures Match("**" + suffix, name) <==> EndsWith(name, suffix)
  {
    MatchStar(suffix, name);
    MatchStarStar(suffix, name);
    forall i | 0 <= i <= |name|
      ensures Match(suffix, name[i..]) <==> name[i..] == suffix
    {
      MatchLiteral(suffix, name[i..]);
    }
    if EndsWith(name, suffix) {
      assert Match(suffix, name[|name| - |suffix|..]);
    }
  }

  lemma MatchBetween(prefix: string, suffix: string, name: string)
    requires Literal(prefix) && Literal(suffix)
    ensures Match(prefix + "*" + suffix, name) <==> prefix <= name && EndsWith(name[|prefix|..], suffix)
    ensures Match(prefix + "**" + suffix, name) <==> prefix <= name && EndsWith(name[|prefix|..], suffix)
  {
    assert prefix + "*" + suffix == prefix + ("*" + suffix);
    assert prefix + "**" + suffix == prefix + ("**" + suffix);
    MatchPrefix(prefix, "*" + suffix, name);
    MatchPrefix(prefix, "**" + suffix, name);
    if prefix <= name {
      MatchSuffix(suffix, name[|prefix|..]);
    }
  }

  /** A file name that starts with "test_" and ends with ".py", with room for both. */
  predicate TestModule(name: string) {
    "test_" <= name && EndsWith(name[5..], ".py")
  }

  // Two stars and a slash in front of a pattern let it match below some folder.
  lemma MatchDeep(pattern: string, name: string)
    ensures Match("**" + ("/" + pattern), name) <==>
              exists i :: 0 <= i < |name| && name[i] == '/' && Match(pattern, name[i + 1..])
  {
    var deep := "/" + pattern;
    MatchStarStar(deep, name);
    MatchStar(deep, name);
    forall i | 0 <= i <= |name|
      ensures Match(deep, name[i..]) <==> i < |name| && name[i] == '/' && Match(pattern, name[i + 1..])
    {
      MatchPrefix("/", pattern, name[i..]);
      if i < |name| {
        assert name[i..][1..] == name[i + 1..];
      }
    }
  }

  predicate Protects(patterns: seq<string>, name: string) {
    exists i :: 0 <= i < |patterns| && Match(patterns[i], name)
  }

  predicate FixedFile(name: string) {
    || name == ".gitlab-ci.yml" || name == ".travis.yml" || name == "azure-pipelines.yml"
    || name == "Jenkinsfile" || name == "conftest.py" || name == "pytest.ini" || name == "tox.ini"
  }

  predicate FixedFolder(name: string) {
    || ".git/" <= name || ".github/" <= name || ".circleci/" <= name || ".gitlab/" <= name
    || ".upgradelab/" <= name || "tests/" <= name || "test/" <= name
    || "benchmarks/verifier/" <= name || "benchmarks/verifiers/" <= name
  }

  predicate StarName(name: string) {
    || EndsWith(name, "/conftest.py")
    || TestModule(name)
    || DeepTestModule(name)
    || EndsWith(name, "_test.py")
    || ("benchmarks/" <= name && EndsWith(name[11..], "/verifier.py"))
  }

  /** What the default patterns protect, without patterns. */
  predicate DefaultProtects(name: string) {
    FixedFile(name) || FixedFolder(name) || StarName(name)
  }

  lemma FolderPatterns(name: string)
    ensures Match(".git/**", name) <==> ".git/" <= name
    ensures Match(".github/**", name) <==> ".github/" <= name
    ensures Match(".circleci/**", name) <==> ".circleci/" <= name
    ensures Match(".gitlab/**", name) <==> ".gitlab/" <= name
    ensures Match(".upgradelab/**", name) <==> ".upgradelab/" <= name
    ensures Match("tests/**", name) <==> "tests/" <= name
    ensures Match("test/**", name) <==> "test/" <= name
    ensures Match("benchmarks/verifier/**", name) <==> "benchmarks/verifier/" <= name
    ensures Match("benchmarks/verifiers/**", name) <==> "benchmarks/verifiers/" <= name
  {
    hide Match;
    MatchUnder(".git/", name);
    assert ".git/" + "**" == ".git/**";
    MatchUnder(".github/", name);
    assert ".github/" + "**" == ".github/**";
    MatchUnder(".circleci/", name);
    assert ".circleci/" + "**" == ".circleci/**";
    MatchUnder(".gitlab/", name);
    assert ".gitlab/" + "**" == ".gitlab/**";
    MatchUnder(".upgradelab/", name);
    assert ".upgradelab/" + "**" == ".upgradelab/**";
    MatchUnder("tests/", name);
    assert "tests/" + "**" == "tests/**";
    MatchUnder("test/", name);
    assert "test/" + "**" == "test/**";
    MatchUnder("benchmarks/verifier/", name);
    assert "benchmarks/verifier/" + "**" == "benchmarks/verifier/**";
    MatchUnder("benchmarks/verifiers/", name);
    assert "benchmarks/verifiers/" + "**" == "benchmarks/verifiers/**";
  }

  lemma FilePatterns(name: string)
    ensures Match(".gitlab-ci.yml", name) <==> name == ".gitlab-ci.yml"
    ensures Match(".travis.yml", name) <==> name == ".travis.yml"
    ensures Match("azure-pipelines.yml", name) <==> name == "azure-pipelines.yml"
    ensures Match("Jenkinsfile", name) <==> name == "Jenkinsfile"
    ensures Match("conftest.py", name) <==> name == "conftest.py"
    ensures Match("pytest.ini", name) <==> name == "pytest.ini"
    ensures Match("tox.ini", name) <==> name == "tox.ini"
  {
    hide Match;
    MatchLiteral(".gitlab-ci.yml", name);
    MatchLiteral(".travis.yml", name);
    MatchLiteral("azure-pipelines.yml", name);
    MatchLiteral("Jenkinsfile", name);
    MatchLiteral("conftest.py", name);
    MatchLiteral("pytest.ini", name);
    MatchLiteral("tox.ini", name);
  }

  lemma SuffixPatterns(name: string)
    ensures Match("**/conftest.py", name) <==> EndsWith(name, "/conftest.py")
    ensures Match("*_test.py", name) <==> EndsWith(name, "_test.py")
  {
    hide Match;
    assert "**/conftest.py" == "**" + "/conftest.py";
    MatchSuffix("/conftest.py", name);
    assert "*_test.py" == "*" + "_test.py";
    MatchSuffix("_test.py", name);
  }

  lemma InfixPatterns(name: string)
    ensures Match("test_*.py", name) <==> TestModule(name)
    ensures Match("benchmarks/**/verifier.py", name) <==> "benchmarks/" <= name && EndsWith(name[11..], "/verifier.py")
  {
    hide Match;
    assert "test_*.py" == "test_" + "*" + ".py";
    MatchBetween("test_", ".py", name);
    assert "benchmarks/**/verifier.py" == "benchmarks/" + "**" + "/verifier.py";
    MatchBetween("benchmarks/", "/verifier.py", name);
  }

  predicate DeepTestModule(name: string) {
    exists i :: 0 <= i < |name| && name[i] == '/' && TestModule(name[i + 1..])
  }

  lemma DeepTestModuleMatches(name: string)
    requires DeepTestModule(name)
    ensures Match("**/test_*.py", name)
  {
    hide Match;
    assert "**/test_*.py" == "**" + ("/" + "test_*.py");
    MatchDeep("test_*.py", name);
    var i :| 0 <= i < |name| && name[i] == '/' && TestModule(name[i + 1..]);
    InfixPatterns(name[i + 1..]);
  }

  lemma DeepTestModuleOnly(name: string)
    requires Match("**/test_*.py", name)
    ensures DeepTestModule(name)
  {
    hide Match;
    assert "**/test_*.py" == "**" + ("/" + "test_*.py");
    MatchDeep("test_*.py", name);
    var i :| 0 <= i < |name| && name[i] == '/' && Match("test_*.py", name[i + 1..]);
    InfixPatterns(name[i + 1..]);
  }

  lemma DeepTestSuffix(name: string)
    requires Match("**/*_test.py", name)
    ensures EndsWith(name, "_test.py")
  {
    hide Match;
    assert "**/*_test.py" == "**" + ("/" + "*_test.py");
    MatchDeep("*_test.py", name);
    var i :| 0 <= i < |name| && name[i] == '/' && Match("*_test.py", name[i + 1..]);
    SuffixPatterns(name[i + 1..]);
    EndsWithTail(name, i + 1, "_test.py");
  }

  lemma EndsWithTail(name: string, i: nat, suffix: string)
    requires i <= |name|
    ensures EndsWith(name[i..], suffix) ==> EndsWith(name, suffix)
  {
    if EndsWith(name[i..], suffix) {
      assert name[i..][|name| - i - |suffix|..] == name[|name| - |suffix|..];
    }
  }

  lemma OnlyDefaultsAreProtected(name: string)
    requires Protects(DEFAULT_PATTERNS, name)
    ensures DefaultProtects(name)
  {
    hide Match;
    FolderPatterns(name);
    FilePatterns(name);
    SuffixPatterns(name);
    InfixPatterns(name);
    if Match("**/test_*.py", name) {
      DeepTestModuleOnly(name);
    }
    if Match("**/*_test.py", name) {
      DeepTestSuffix(name);
    }
  }

  lemma FixedFilesAreProtected(name: string)
    requires FixedFile(name)
    ensures Protects(DEFAULT_PATTERNS, name)
  {
    hide Match;
    FilePatterns(name);
    var ps := DEFAULT_PATTERNS;
    assert Match(ps[4], name) || Match(ps[6], name) || Match(ps[7], name) || Match(ps[8], name) || Match(ps[9], name)
      || Match(ps[11], name) || Match(ps[12], name);
  }

  lemma FixedFoldersAreProtected(name: string)
    requires FixedFolder(name)
    ensures Protects(DEFAULT_PATTERNS, name)
  {
    hide Match;
    FolderPatterns(name);
    var ps := DEFAULT_PATTERNS;
    assert Match(ps[0], name) || Match(ps[1], name) || Match(ps[2], name) || Match(ps[3], name) || Match(ps[5], name)
      || Match(ps[13], name) || Match(ps[14], name) || Match(ps[19], name) || Match(ps[20], name);
  }

  lemma StarNamesAreProtected(name: string)
    requires StarName(name)
    ensures Protects(DEFAULT_PATTERNS, name)
  {
    hide Match;
    SuffixPatterns(name);
    InfixPatterns(name);
    if DeepTestModule(name) {
      DeepTestModuleMatches(name);
    }
    var ps := DEFAULT_PATTERNS;
    assert Match(ps[10], name) || Match(ps[15], name) || Match(ps[16], name) || Match(ps[17], name)
           || Match(ps[21], name);
  }

  lemma DefaultsAreProtected(name: string)
    requires DefaultProtects(name)
    ensures Protects(DEFAULT_PATTERNS, name)
  {
    if FixedFile(name) {
      FixedFilesAreProtected(name);
    }
    if FixedFolder(name) {
      FixedFoldersAreProtected(name);
    }
    if StarName(name) {
      StarNamesAreProtected(name);
    }
  }

  /** The default patterns protect exactly these names. */
  lemma DefaultPatternsProtectExactly(name: string)
    ensures Protects(DEFAULT_PATTERNS, name) <==> DefaultProtects(name)
  {
    if DefaultProtects(name) {
      DefaultsAreProtected(name);
    }
    if Protects(DEFAULT_PATTERNS, name) {
      OnlyDefaultsAreProtected(name);
    }
  }

  /** `file` is the last component of `name`. */
  predicate LastComponent(name: string, file: string) {
    name == file ||
    (|name| > |file| && name[|name| - |file|..] == file && name[|name| - |file| - 1] == '/')
  }

  lemma ConftestShows(name: string)
    requires LastComponent(name, "conftest.py")
    ensures name == "conftest.py" || EndsWith(name, "/conftest.py")
  {
    if name != "conftest.py" {
      assert name[|name| - 12..] == [name[|name| - 12]] + name[|name| - 11..];
      assert "/conftest.py" == ['/'] + "conftest.py";
    }
  }

  lemma TestModuleShows(name: string, file: string)
    requires LastComponent(name, file) && TestModule(file)
    ensures TestModule(name) || DeepTestModule(name)
  {
    if name != file {
      assert name[|name| - |file| - 1 + 1..] == file;
    }
  }

  /** At any depth, a path whose last component is conftest.py, a test_*.py module or a *_test.py
      module is protected. */
  lemma TestFilesAreProtected(name: string, file: string)
    requires LastComponent(name, file)
    requires file == "conftest.py" || TestModule(file) || EndsWith(file, "_test.py")
    ensures Protects(DEFAULT_PATTERNS, name)
  {
    hide Match;
    if file == "conftest.py" {
      ConftestShows(name);
    } else if TestModule(file) {
      TestModuleShows(name, file);
    } else {
      assert name[|name| - |file|..] == file;
      EndsWithTail(name, |name| - |file|, "_test.py");
    }
    DefaultsAreProtected(name);
  }

  /** The last component of a joined path is its last part. */
  lemma {:induction false} JoinEndsWithLast(folders: seq<string>, file: string)
    ensures LastComponent(Join(folders + [file]), file)
  {
    if folders != [] {
      JoinEndsWithLast(folders[1..], file);
      assert (folders + [file])[1..] == folders[1..] + [file];
      var tail := Join(folders[1..] + [file]);
      assert Join(folders + [file]) == folders[0] + "/" + tail;
    }
  }

  /** In a path, as a list of components, only the last one matters. */
  lemma TestFilesAreProtectedAnywhere(folders: seq<string>, file: string)
    requires file == "conftest.py" || TestModule(file) || EndsWith(file, "_test.py")
    ensures Protects(DEFAULT_PATTERNS, Join(folders + [file]))
  {
    JoinEndsWithLast(folders, file);
    TestFilesAreProtected(Join(folders + [file]), file);
  }

  /** The star crosses slashes, so every .py file below a folder named test_* is protected. */
  lemma StarsCrossSlashes(middle: string)
    ensures Protects(DEFAULT_PATTERNS, "test_" + middle + ".py")
  {
    var name := "test_" + middle + ".py";
    assert name[5..] == middle + ".py";
    assert (middle + ".py")[|middle|..] == ".py";
    assert TestModule(name);
    DefaultsAreProtected(name);
  }

  /** What a pattern means, from its first character: the end matches the end, a star any run, a question
      mark one character, and any other character itself. */
  lemma PatternRules(c: char, pattern: string, name: string)
    ensures Match("", name) <==> name == ""
    ensures Match("*" + pattern, name) <==> exists i :: 0 <= i <= |name| && Match(pattern, name[i..])
    ensures Match("?" + pattern, name) <==> name != "" && Match(pattern, name[1..])
    ensures c != '*' && c != '?' ==>
              (Match([c] + pattern, name) <==> name != "" && name[0] == c && Match(pattern, name[1..]))
  {
    assert ("?" + pattern)[1..] == pattern && ([c] + pattern)[1..] == pattern;
    MatchStar(pattern, name);
  }
}
