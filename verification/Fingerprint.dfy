/** The source fingerprint: the byte stream fed to the digest, and exactly what it tells apart. */
module Fingerprint {
  import opened Models
  import opened TextOrder
  import opened PatchText

  type Byte = i: int | 0 <= i < 256

  const NUL: Byte := 0

  /** SHA-256 over bytes, injective here. */
  datatype StreamDigest = Sha256Of(stream: seq<Byte>)

  /** The workspace as the fingerprint sees it: regular files, and paths that resolve outside it. */
  datatype Root = Root(files: map<string, seq<Byte>>, outside: set<string>)

  function EncodeChar(c: char): seq<Byte> {
    var n := c as int;
    if n < 0x80 then [n]
    else if n < 0x800 then [0xC0 + n / 64, 0x80 + n % 64]
    else if n < 0x10000 then [0xE0 + n / 4096, 0x80 + n / 64 % 64, 0x80 + n % 64]
    else [0xF0 + n / 262144, 0x80 + n / 4096 % 64, 0x80 + n / 64 % 64, 0x80 + n % 64]
  }

  function Utf8(text: string): seq<Byte> {
    if text == "" then [] else EncodeChar(text[0]) + Utf8(text[1..])
  }

  function Slashed(path: string): string {
    seq(|path|, i requires 0 <= i < |path| => if path[i] == '\\' then '/' else path[i])
  }

  const MISSING := Utf8("<missing>")

  function ContentOf(files: map<string, seq<Byte>>, path: string): Option<seq<Byte>> {
    if path in files then Some(files[path]) else None
  }

  function Shown(content: Option<seq<Byte>>): seq<Byte> {
    if content.Some? then content.value else MISSING
  }

  /** What one path adds to the digest. */
  function EntryBytes(files: map<string, seq<Byte>>, path: string): seq<Byte> {
    Utf8(Slashed(path)) + [NUL] + Shown(ContentOf(files, path)) + [NUL]
  }

  function StreamOf(files: map<string, seq<Byte>>, paths: seq<string>): seq<Byte> {
    if paths == [] then [] else EntryBytes(files, paths[0]) + StreamOf(files, paths[1..])
  }

  ghost function Stream(files: map<string, seq<Byte>>, paths: set<string>): seq<Byte> {
    StreamOf(files, Sorted(paths))
  }

  /** Digests the listed paths as a set, in order; the first one outside the workspace is an error. */
  method FileSetFingerprint(root: Root, relativePaths: seq<string>) returns (r: Result<StreamDigest, string>)
    ensures var paths := set path | path in relativePaths;
      match r
      case Ok(digest) => paths !! root.outside && digest == Sha256Of(Stream(root.files, paths))
      case Err(path) => IsLeast(paths * root.outside, path)
  {
    hide TextLeq, EntryBytes;
    ghost var paths := set path | path in relativePaths;
    var remaining := set path | path in relativePaths;
    var stream := [];
    while remaining != {}
      invariant remaining <= paths && (paths - remaining) !! root.outside
      invariant forall done, other :: done in paths - remaining && other in remaining ==> TextLeq(done, other)
      invariant stream + Stream(root.files, remaining) == Stream(root.files, paths)
      decreases |remaining|
    {
      ghost var least := Least(remaining);
      var path :| path in remaining && forall other | other in remaining :: TextLeq(path, other);
      LeastIsUnique(remaining, path);
      if path in root.outside {
        return Err(path);
      }
      assert Sorted(remaining)[1..] == Sorted(remaining - {path});
      stream := stream + EntryBytes(root.files, path);
      remaining := remaining - {path};
    }
    r := Ok(Sha256Of(stream));
  }

  // UTF-8

  lemma FirstByteTellsTheLength(c: char, d: char)
    ensures |EncodeChar(c)| > 0
    ensures EncodeChar(c)[0] == EncodeChar(d)[0] ==> |EncodeChar(c)| == |EncodeChar(d)|
  {
  }

  lemma CharsAreSeparate(c: char, d: char, s: seq<Byte>, t: seq<Byte>)
    requires EncodeChar(c) + s == EncodeChar(d) + t
    ensures c == d && s == t
  {
    hide EncodeChar;
    FirstByteTellsTheLength(c, d);
    FirstByteTellsTheLength(d, c);
    var (x, y) := (EncodeChar(c), EncodeChar(d));
    assert (x + s)[0] == x[0] && (y + t)[0] == y[0];
    assert (x + s)[..|x|] == x && (y + t)[..|y|] == y;
    assert (x + s)[|x|..] == s && (y + t)[|y|..] == t;
    SameBytesSameChar(c, d);
  }

  /** The encoding is UTF-8 (section 3 of RFC 3629): one to four bytes, told apart by the first, six bits in
      each further one. */
  lemma EncodingIsUtf8(c: char)
    ensures var (n, bytes) := (c as int, EncodeChar(c));
      if n < 128 then bytes == [n]
      else if n < 2048 then |bytes| == 2 && 192 <= bytes[0] < 224 && n == SixBitsOn(bytes[0] - 192, bytes[1])
      else if n < 65536 then
        && |bytes| == 3 && 224 <= bytes[0] < 240
        && n == SixBitsOn(SixBitsOn(bytes[0] - 224, bytes[1]), bytes[2])
      else
        && |bytes| == 4 && 240 <= bytes[0] < 248
        && n == SixBitsOn(SixBitsOn(SixBitsOn(bytes[0] - 240, bytes[1]), bytes[2]), bytes[3])
    ensures forall i :: 1 <= i < |EncodeChar(c)| ==> 128 <= EncodeChar(c)[i] < 192
  {
    var n := c as int;
    SixBits(n);
    SixBits(n / 64);
    SixBits(n / 4096);
  }

  /** The number so far, with six bits more. */
  function SixBitsOn(high: int, byte: int): int {
    64 * high + (byte - 128)
  }

  function FromSixBits(high: int, low: int): int {
    64 * high + low
  }

  lemma SixBits(n: nat)
    ensures n == FromSixBits(n / 64, n % 64)
    ensures n / 4096 == n / 64 / 64 && n / 262144 == n / 4096 / 64
  {
  }

  lemma SameBytesSameChar(c: char, d: char)
    requires EncodeChar(c) == EncodeChar(d)
    ensures c == d
  {
    hide FromSixBits;
    var (x, y) := (EncodeChar(c), EncodeChar(d));
    var (n, m) := (c as int, d as int);
    assert x[0] == y[0] && x[|x| - 1] == y[|y| - 1];
    SixBits(n);
    SixBits(m);
    if n >= 0x800 {
      assert x[|x| - 2] == y[|y| - 2];
      SixBits(n / 64);
      SixBits(m / 64);
    }
    if n >= 0x10000 {
      assert x[1] == y[1];
      SixBits(n / 4096);
      SixBits(m / 4096);
    }
    assert n == m;
  }

  lemma {:induction false} Utf8IsInjective(a: string, b: string)
    requires Utf8(a) == Utf8(b)
    ensures a == b
  {
    if a != "" && b != "" {
      CharsAreSeparate(a[0], b[0], Utf8(a[1..]), Utf8(b[1..]));
      Utf8IsInjective(a[1..], b[1..]);
      assert a == [a[0]] + a[1..] && b == [b[0]] + b[1..];
    }
  }

  /** The policy counts the bytes of this encoding. */
  lemma {:induction false} Utf8SizeIsTheLength(text: string)
    ensures |Utf8(text)| == Utf8Size(text)
  {
    if text != "" {
      Utf8SizeIsTheLength(text[1..]);
    }
  }

  lemma {:induction false} NulOnlyFromNul(text: string)
    requires '\0' !in text
    ensures NUL !in Utf8(text)
  {
    if text != "" {
      NulOnlyFromNul(text[1..]);
      assert NUL !in EncodeChar(text[0]);
    }
  }

  // What the stream tells

  datatype Entry = Entry(path: seq<Byte>, content: Option<seq<Byte>>)

  function FirstNul(bytes: seq<Byte>): (i: nat)
    ensures i <= |bytes|
    ensures forall k :: 0 <= k < i ==> bytes[k] != NUL
    ensures i < |bytes| ==> bytes[i] == NUL
  {
    if bytes == [] || bytes[0] == NUL then 0 else 1 + FirstNul(bytes[1..])
  }

  function Understood(shown: seq<Byte>): Option<seq<Byte>> {
    if shown == MISSING then None else Some(shown)
  }

  /** A field up to a NUL, and what follows the NUL. */
  function Field(stream: seq<Byte>): (r: Option<(seq<Byte>, seq<Byte>)>)
    ensures r.Some? ==> |r.value.1| < |stream|
  {
    var i := FirstNul(stream);
    if i == |stream| then None else Some((stream[..i], stream[i + 1..]))
  }

  /** Reads a stream back: a path up to a NUL, then a content up to a NUL. */
  function Decode(stream: seq<Byte>): seq<Entry>
    decreases |stream|
  {
    match Field(stream)
    case None => []
    case Some((path, rest)) =>
      match Field(rest)
      case None => []
      case Some((shown, more)) => [Entry(path, Understood(shown))] + Decode(more)
  }

  lemma NulEndsTheField(field: seq<Byte>, rest: seq<Byte>)
    requires NUL !in field
    ensures FirstNul(field + [NUL] + rest) == |field|
  {
    var whole := field + [NUL] + rest;
    var i := FirstNul(whole);
    assert whole[|field|] == NUL;
    assert forall k :: 0 <= k < |field| ==> whole[k] == field[k] && field[k] in field;
  }

  lemma FieldsApart(field: seq<Byte>, rest: seq<Byte>)
    requires NUL !in field
    ensures Field(field + [NUL] + rest) == Some((field, rest))
  {
    hide FirstNul;
    var stream := field + [NUL] + rest;
    NulEndsTheField(field, rest);
    assert stream[..|field|] == field && stream[|field| + 1..] == rest;
  }

  lemma DecodeEntry(path: seq<Byte>, shown: seq<Byte>, rest: seq<Byte>)
    requires NUL !in path && NUL !in shown
    ensures Decode(path + [NUL] + shown + [NUL] + rest) == [Entry(path, Understood(shown))] + Decode(rest)
  {
    hide Field, Understood;
    var tail := shown + [NUL] + rest;
    FieldsApart(path, tail);
    FieldsApart(shown, rest);
    assert path + [NUL] + shown + [NUL] + rest == path + [NUL] + tail;
  }

  /** The conditions under which the stream is unambiguous. */
  ghost predicate Plain(files: map<string, seq<Byte>>, paths: set<string>) {
    forall path :: path in paths ==> PlainEntry(files, path)
  }

  predicate PlainEntry(files: map<string, seq<Byte>>, path: string) {
    && '\0' !in path && '\\' !in path
    && (path in files ==> NUL !in files[path] && files[path] != MISSING)
  }

  function EntriesOf(files: map<string, seq<Byte>>, paths: seq<string>): seq<Entry> {
    if paths == [] then [] else [Entry(Utf8(paths[0]), ContentOf(files, paths[0]))] + EntriesOf(files, paths[1..])
  }

  lemma MissingHasNoNul()
    ensures NUL !in MISSING
  {
    NulOnlyFromNul("<missing>");
  }

  /** The decoder inverts the loop. */
  lemma {:induction false} DecodeInvertsTheStream(files: map<string, seq<Byte>>, paths: seq<string>)
    requires forall path :: path in paths ==> PlainEntry(files, path)
    ensures Decode(StreamOf(files, paths)) == EntriesOf(files, paths)
  {
    hide Decode;
    if paths == [] {
      NothingToDecode();
    } else {
      var path := paths[0];
      MissingHasNoNul();
      assert PlainEntry(files, path);
      NulOnlyFromNul(path);
      assert Slashed(path) == path;
      DecodeEntry(Utf8(path), Shown(ContentOf(files, path)), StreamOf(files, paths[1..]));
      DecodeInvertsTheStream(files, paths[1..]);
    }
  }

  lemma NothingToDecode()
    ensures Decode([]) == []
  {
  }

  lemma {:induction false} EntriesTellPathsAndContents(files: map<string, seq<Byte>>, paths: seq<string>,
                                                      files': map<string, seq<Byte>>, paths': seq<string>)
    requires EntriesOf(files, paths) == EntriesOf(files', paths')
    ensures paths == paths'
    ensures forall path :: path in paths ==> ContentOf(files, path) == ContentOf(files', path)
  {
    if paths != [] && paths' != [] {
      assert EntriesOf(files, paths)[0] == EntriesOf(files', paths')[0];
      assert EntriesOf(files, paths)[1..] == EntriesOf(files', paths')[1..];
      Utf8IsInjective(paths[0], paths'[0]);
      EntriesTellPathsAndContents(files, paths[1..], files', paths'[1..]);
      assert paths == [paths[0]] + paths[1..] && paths' == [paths'[0]] + paths'[1..];
    }
  }

  lemma {:induction false} SameContentsSameStream(files: map<string, seq<Byte>>, files': map<string, seq<Byte>>,
                                                 paths: seq<string>)
    requires forall path :: path in paths ==> ContentOf(files, path) == ContentOf(files', path)
    ensures StreamOf(files, paths) == StreamOf(files', paths)
  {
    if paths != [] {
      SameContentsSameStream(files, files', paths[1..]);
    }
  }

  /** Two plain workspaces have one fingerprint exactly when the same paths were asked for and each of
      them has the same content, or is missing, in both. */
  lemma FingerprintsAgreeIff(files: map<string, seq<Byte>>, paths: set<string>,
                             files': map<string, seq<Byte>>, paths': set<string>)
    requires Plain(files, paths) && Plain(files', paths')
    ensures Stream(files, paths) == Stream(files', paths') <==>
              paths == paths' && forall path :: path in paths ==> ContentOf(files, path) == ContentOf(files', path)
  {
    SortedHoldsTheSet(paths);
    SortedHoldsTheSet(paths');
    if Stream(files, paths) == Stream(files', paths') {
      DecodeInvertsTheStream(files, Sorted(paths));
      DecodeInvertsTheStream(files', Sorted(paths'));
      EntriesTellPathsAndContents(files, Sorted(paths), files', Sorted(paths'));
      assert paths == paths';
    }
    if paths == paths' && forall path :: path in paths ==> ContentOf(files, path) == ContentOf(files', path) {
      SameContentsSameStream(files, files', Sorted(paths));
    }
  }

  // What it does not tell

  lemma StreamOfOne(files: map<string, seq<Byte>>, path: string)
    ensures Stream(files, {path}) == EntryBytes(files, path)
  {
    hide TextLeq, EntryBytes;
    TextLeqTotal(path, path);
    LeastIsUnique({path}, path);
    assert {path} - {path} == {};
    assert Sorted({path}) == [path] && [path][1..] == [];
    assert StreamOf(files, [path]) == EntryBytes(files, path) + StreamOf(files, []);
  }

  /** A file that reads "<missing>" looks like a missing file. */
  lemma MissingTextCollides(files: map<string, seq<Byte>>, path: string)
    requires path !in files
    ensures Stream(files, {path}) == Stream(files[path := MISSING], {path})
  {
    StreamOfOne(files, path);
    StreamOfOne(files[path := MISSING], path);
  }

  /** A backslash looks like a slash. */
  lemma BackslashCollides(path: string, content: seq<Byte>)
    requires '\\' in path
    ensures Slashed(path) != path
    ensures Stream(map[path := content], {path}) == Stream(map[Slashed(path) := content], {Slashed(path)})
  {
    var i :| 0 <= i < |path| && path[i] == '\\';
    assert Slashed(path)[i] == '/';
    assert Slashed(Slashed(path)) == Slashed(path);
    StreamOfOne(map[path := content], path);
    StreamOfOne(map[Slashed(path) := content], Slashed(path));
  }

  /** A file with NULs in it looks like two files. */
  lemma NulContentCollides(a: string, b: string, x: seq<Byte>, y: seq<Byte>)
    requires TextLeq(a, b) && a != b
    ensures Stream(map[a := x, b := y], {a, b}) ==
            Stream(map[a := x + [NUL] + Utf8(Slashed(b)) + [NUL] + y], {a})
  {
    hide TextLeq, Slashed, Utf8, EntryBytes;
    var files, whole := map[a := x, b := y], x + [NUL] + Utf8(Slashed(b)) + [NUL] + y;
    LeastOfTwo(a, b);
    assert {a, b} - {a} == {b};
    assert Sorted({a, b})[1..] == Sorted({b});
    assert Stream(files, {a, b}) == EntryBytes(files, a) + Stream(files, {b});
    StreamOfOne(files, b);
    StreamOfOne(map[a := whole], a);
    EntriesMerge(a, b, x, y);
  }

  lemma EntriesMerge(a: string, b: string, x: seq<Byte>, y: seq<Byte>)
    requires a != b
    ensures EntryBytes(map[a := x, b := y], a) + EntryBytes(map[a := x, b := y], b) ==
            EntryBytes(map[a := x + [NUL] + Utf8(Slashed(b)) + [NUL] + y], a)
  {
    hide Slashed, Utf8;
    assert Utf8(Slashed(a)) + [NUL] + x + [NUL] + (Utf8(Slashed(b)) + [NUL] + y + [NUL]) ==
           Utf8(Slashed(a)) + [NUL] + (x + [NUL] + Utf8(Slashed(b)) + [NUL] + y) + [NUL];
  }

  lemma LeastOfTwo(a: string, b: string)
    requires TextLeq(a, b)
    ensures Least({a, b}) == a
  {
    TextLeqTotal(a, a);
    LeastIsUnique({a, b}, a);
  }

  // The stream, spelled out

  /** The bytes of "<missing>". */
  lemma MissingBytes()
    ensures MISSING == [60, 109, 105, 115, 115, 105, 110, 103, 62]
  {
    Utf8Step("<", "missing>");
    Utf8Step("m", "issing>");
    Utf8Step("i", "ssing>");
    Utf8Step("s", "sing>");
    Utf8Step("s", "ing>");
    Utf8Step("i", "ng>");
    Utf8Step("n", "g>");
    Utf8Step("g", ">");
    Utf8Step(">", "");
    assert "<" + "missing>" == "<missing>" && "m" + "issing>" == "missing>" && "i" + "ssing>" == "issing>";
    assert "s" + "sing>" == "ssing>" && "s" + "ing>" == "sing>" && "i" + "ng>" == "ing>" && "n" + "g>" == "ng>";
    assert "g" + ">" == "g>" && ">" + "" == ">";
  }

  lemma {:induction false} Utf8Step(first: string, rest: string)
    requires |first| == 1 && first[0] as int < 128
    ensures Utf8(first + rest) == [first[0] as int] + Utf8(rest)
  {
    assert (first + rest)[1..] == rest;
  }

  /** One path adds itself, a NUL, its content or "<missing>", and a NUL. */
  lemma OneFileStream(files: map<string, seq<Byte>>, path: string)
    requires '\\' !in path
    ensures Stream(files, {path}) ==
            Utf8(path) + [0] +
            (if path in files then files[path] else [60, 109, 105, 115, 115, 105, 110, 103, 62]) + [0]
  {
    hide Utf8;
    StreamOfOne(files, path);
    MissingBytes();
    assert Slashed(path) == path;
  }

  /** Of two paths, the one that comes first in code point order adds its part first. */
  lemma TwoFilesStream(files: map<string, seq<Byte>>, a: string, b: string)
    requires InOrder(a, b) && a != b
    ensures Stream(files, {a, b}) == Stream(files, {a}) + Stream(files, {b})
  {
    hide TextLeq, InOrder, EntryBytes;
    TextLeqMeansInOrder(a, b);
    LeastOfTwo(a, b);
    assert {a, b} - {a} == {b};
    assert Sorted({a, b})[1..] == Sorted({b});
    StreamOfOne(files, a);
  }

  /** A backslash in a path counts as a slash. */
  lemma BackslashIsASlash(a: string, b: string, content: seq<Byte>)
    ensures Stream(map[a + "\\" + b := content], {a + "\\" + b}) ==
            Stream(map[a + "/" + b := content], {a + "/" + b})
  {
    hide Utf8;
    var (p, q) := (a + "\\" + b, a + "/" + b);
    StreamOfOne(map[p := content], p);
    StreamOfOne(map[q := content], q);
    assert Slashed(p) == Slashed(q);
  }
}
