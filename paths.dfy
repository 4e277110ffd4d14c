/** File selection for indexing: which paths are skipped, and which language
    a file's extension names. A path is given by its components, as
    `pathlib.Path.parts` lists them. */
module Paths {
  import opened Base

  /** Directory and file names that are never indexed. A component must equal
      one of them exactly: `.pyc` names a file called `.pyc`, not an extension. */
  const IgnorePatterns: set<string> := {
    ".git", "__pycache__", "node_modules", "venv", ".env",
    ".pyc", ".pyo", ".pyd", ".so", ".dll", ".dylib",
    ".jpg", ".jpeg", ".png", ".gif", ".pdf", ".zip"
  }

  /** `_should_ignore`: some component of the path is an ignored name. */
  function ShouldIgnore(parts: seq<string>): (r: bool)
    ensures r <==> exists k :: 0 <= k < |parts| && parts[k] in IgnorePatterns
    decreases |parts|
  {
    if parts == [] then false
    else parts[0] in IgnorePatterns || ShouldIgnore(parts[1..])
  }

  /** A path is skipped exactly when one of its two halves would be: an
      ignored directory hides everything below it. */
  lemma {:induction false} ShouldIgnoreAppend(a: seq<string>, b: seq<string>)
    ensures ShouldIgnore(a + b) == (ShouldIgnore(a) || ShouldIgnore(b))
    decreases |a|
  {
    if a != [] {
      assert (a + b)[0] == a[0] && (a + b)[1..] == a[1..] + b;
      ShouldIgnoreAppend(a[1..], b);
    } else {
      assert a + b == b;
    }
  }

  /** An ignored name anywhere in the path, at any depth, skips the path. */
  lemma IgnoredAnywhere(above: seq<string>, name: string, below: seq<string>)
    requires name in IgnorePatterns
    ensures ShouldIgnore(above + [name] + below)
  {
    ShouldIgnoreAppend(above + [name], below);
    ShouldIgnoreAppend(above, [name]);
  }

  /** Only whole components count: a file whose name merely ends in an
      ignored extension is kept. */
  lemma KeepsCompiledFileName()
    ensures !ShouldIgnore(["src", "foo.pyc"])
    ensures ShouldIgnore([".git", "config"])
    ensures !ShouldIgnore(["src", "main.py"])
  {
    assert ["src", "foo.pyc"][1..] == ["foo.pyc"];
    assert ["src", "main.py"][1..] == ["main.py"];
  }

  /** `str.rfind(c)`: the position of the last `c`, if any. */
  function LastOf(s: string, c: char): (r: Option<nat>)
    ensures r.Some? ==> r.value < |s| && s[r.value] == c
    ensures r.Some? ==> forall k :: r.value < k < |s| ==> s[k] != c
    ensures r.None? ==> forall k :: 0 <= k < |s| ==> s[k] != c
    decreases |s|
  {
    if s == [] then None
    else if s[|s| - 1] == c then Some(|s| - 1)
    else LastOf(s[..|s| - 1], c)
  }

  /** `PurePath.suffix` of a final component: from its last dot on, unless that
      dot is its first or last character. */
  function Suffix(name: string): string {
    match LastOf(name, '.')
    case None => ""
    case Some(i) => if 0 < i < |name| - 1 then name[i..] else ""
  }

  /** A non-empty suffix is a dot and at least one more character, none of
      them a dot, ending a name that has something before it. */
  lemma SuffixShape(name: string)
    ensures var r := Suffix(name);
      r != "" ==>
        && 2 <= |r| < |name| && r[0] == '.'
        && (forall k :: 1 <= k < |r| ==> r[k] != '.')
        && name == name[..|name| - |r|] + r
  {}

  /** The suffix of `stem.ext` is `.ext` whenever the stem is not empty and the
      extension is a non-empty run without dots. */
  lemma SuffixOfStemExt(stem: string, ext: string)
    requires stem != "" && ext != "" && forall k :: 0 <= k < |ext| ==> ext[k] != '.'
    ensures Suffix(stem + "." + ext) == "." + ext
  {
    var name := stem + "." + ext;
    var i := LastOf(name, '.');
    assert name[|stem|] == '.';
    assert forall k :: |stem| < k < |name| ==> name[k] == ext[k - |stem| - 1];
    assert name[|stem|..] == "." + ext;
  }

  /** No dot after the first character: no suffix, as for `.bashrc`,
      `Makefile` or `archive.`. */
  lemma NoSuffixCases(name: string)
    ensures (forall k :: 1 <= k < |name| ==> name[k] != '.') ==> Suffix(name) == ""
    ensures name != "" && name[|name| - 1] == '.' ==> Suffix(name) == ""
  {}

  /** `PurePath.name`: the last component of a `/`-separated path. */
  function BaseName(path: string): (r: string)
    ensures forall k :: 0 <= k < |r| ==> r[k] != '/'
    ensures |r| <= |path| && path[|path| - |r|..] == r
  {
    match LastOf(path, '/')
    case None => path
    case Some(i) => path[i + 1..]
  }

  /** `PurePath.stem`: the last component without its suffix. */
  function Stem(path: string): string {
    var name := BaseName(path);
    name[..|name| - |Suffix(name)|]
  }

  /** The stem and the suffix put back together give the last component. */
  lemma StemThenSuffix(path: string)
    ensures Stem(path) + Suffix(BaseName(path)) == BaseName(path)
  {
    SuffixShape(BaseName(path));
  }

  /** The stem of `dir/name.pkl` is `name` for a dot-free, slash-free name. */
  lemma StemOfIndexFile(dir: string, name: string)
    requires name != "" && forall k :: 0 <= k < |name| ==> name[k] != '.' && name[k] != '/'
    ensures Stem(dir + "/" + name + ".pkl") == name
  {
    var path := dir + "/" + name + ".pkl";
    assert path[|dir|] == '/';
    assert forall k :: |dir| < k < |path| ==> path[k] != '/';
    assert BaseName(path) == name + ".pkl";
    SuffixOfStemExt(name, "pkl");
    assert name + ".pkl" == name + "." + "pkl";
  }

  function LowerChar(c: char): char {
    if 'A' <= c <= 'Z' then (c as int + 32) as char else c
  }

  /** `str.lower()` on ASCII letters; every other character is kept. */
  function Lower(s: string): (r: string)
    ensures |r| == |s|
  {
    seq(|s|, i requires 0 <= i < |s| => LowerChar(s[i]))
  }

  lemma LowerAppend(a: string, b: string)
    ensures Lower(a + b) == Lower(a) + Lower(b)
  {
    assert forall i :: 0 <= i < |a + b| ==> Lower(a + b)[i] == (Lower(a) + Lower(b))[i];
  }

  /** The extensions the server recognises and their language names. */
  const Languages: map<string, string> := map[
    ".py" := "python", ".js" := "javascript", ".ts" := "typescript",
    ".java" := "java", ".cpp" := "cpp", ".c" := "c", ".go" := "go",
    ".rs" := "rust", ".rb" := "ruby", ".php" := "php", ".cs" := "csharp",
    ".html" := "html", ".css" := "css", ".sql" := "sql"
  ]

  /** `_guess_language` on a final component: the table entry for its lowercased
      suffix, or the empty string. */
  function GuessLanguage(name: string): (lang: string)
    ensures lang == "" || lang in Languages.Values
  {
    var ext := Lower(Suffix(name));
    if ext in Languages then Languages[ext] else ""
  }

  /** `stem.ext` is recognised exactly when `.ext`, lowercased, is in the table;
      then its language is the table's. Case does not matter: `a.PY` is python. */
  lemma GuessLanguageOf(stem: string, ext: string)
    requires stem != "" && ext != "" && forall k :: 0 <= k < |ext| ==> ext[k] != '.'
    ensures var key := "." + Lower(ext);
      && (GuessLanguage(stem + "." + ext) != "" <==> key in Languages)
      && (key in Languages ==> GuessLanguage(stem + "." + ext) == Languages[key])
  {
    SuffixOfStemExt(stem, ext);
    LowerAppend(".", ext);
    assert Lower(".") == ".";
    assert forall k :: k in Languages ==> Languages[k] != "";
  }

  /** A name without a suffix gets no language, whatever it looks like. */
  lemma NoSuffixNoLanguage(name: string)
    requires Suffix(name) == ""
    ensures GuessLanguage(name) == ""
  {
    assert Lower("") == "";
  }

  // ------------------------------------------------------------- joining paths

  predicate NoSlash(s: string) {
    forall k :: 0 <= k < |s| ==> s[k] != '/'
  }

  /** A component pathlib keeps as it is: not empty, not `.`, without a slash. */
  predicate PlainPart(s: string) {
    s != "" && s != "." && NoSlash(s)
  }

  /** `s.split("/")`. */
  function SplitSlash(s: string): (r: seq<string>)
    ensures r != []
    ensures forall k :: 0 <= k < |r| ==> NoSlash(r[k])
    decreases |s|
  {
    if s == [] then [""]
    else
      var rest := SplitSlash(s[1..]);
      if s[0] == '/' then [""] + rest
      else [[s[0]] + rest[0]] + rest[1..]
  }

  /** `"/".join(parts)`. */
  function JoinSlash(parts: seq<string>): string {
    if parts == [] then ""
    else if |parts| == 1 then parts[0]
    else parts[0] + "/" + JoinSlash(parts[1..])
  }

  /** The components pathlib keeps of a split path: empty ones and `.` are
      dropped, `..` is kept. */
  function KeptParts(parts: seq<string>): (r: seq<string>)
    ensures forall k :: 0 <= k < |r| ==> r[k] != "" && r[k] != "." && r[k] in parts
  {
    if parts == [] then []
    else if parts[0] == "" || parts[0] == "." then KeptParts(parts[1..])
    else [parts[0]] + KeptParts(parts[1..])
  }

  /** The root of a POSIX path: `/`, or `//` for exactly two leading slashes. */
  function PathRoot(s: string): string {
    if |s| >= 2 && s[0] == '/' && s[1] == '/' && (|s| == 2 || s[2] != '/') then "//"
    else if |s| >= 1 && s[0] == '/' then "/"
    else ""
  }

  /** A `PurePosixPath` as it is held once parsed: its root and the
      components it keeps. */
  datatype PosixPath = PosixPath(root: string, parts: seq<string>)

  /** `PurePosixPath(s)`. */
  function ParsePath(s: string): PosixPath {
    PosixPath(PathRoot(s), KeptParts(SplitSlash(s)))
  }

  /** `str(p)`: the root, then the components joined by slashes; `.` when
      both are empty. */
  function PathText(p: PosixPath): string {
    if p.root == "" && p.parts == [] then "." else p.root + JoinSlash(p.parts)
  }

  /** `p / name`: the components of `name` follow those of `p`, and a `name`
      with a root replaces `p` altogether. */
  function JoinPath(p: PosixPath, name: string): PosixPath {
    if PathRoot(name) != "" then ParsePath(name)
    else PosixPath(p.root, p.parts + KeptParts(SplitSlash(name)))
  }

  /** A name without a slash is one component. */
  lemma {:induction false} SplitName(a: string)
    requires NoSlash(a)
    ensures SplitSlash(a) == [a]
    decreases |a|
  {
    if a != [] {
      SplitName(a[1..]);
      assert [a[0]] + a[1..] == a;
    }
  }

  /** A slash after a name ends its component. */
  lemma {:induction false} SplitAfterName(a: string, t: string)
    requires NoSlash(a)
    ensures SplitSlash(a + "/" + t) == [a] + SplitSlash(t)
    decreases |a|
  {
    if a == [] {
      assert a + "/" + t == "/" + t;
      assert ("/" + t)[1..] == t;
    } else {
      assert (a + "/" + t)[1..] == a[1..] + "/" + t;
      SplitAfterName(a[1..], t);
      assert [a[0]] + a[1..] == a;
    }
  }

  /** Splitting undoes joining, for components without slashes. */
  lemma {:induction false} SplitJoin(parts: seq<string>)
    requires parts != [] && forall k :: 0 <= k < |parts| ==> NoSlash(parts[k])
    ensures SplitSlash(JoinSlash(parts)) == parts
    decreases |parts|
  {
    if |parts| == 1 {
      SplitName(parts[0]);
    } else {
      SplitJoin(parts[1..]);
      SplitAfterName(parts[0], JoinSlash(parts[1..]));
    }
  }

  /** Two slashes make three components. */
  lemma SplitThree(a: string, b: string, c: string)
    requires NoSlash(a) && NoSlash(b) && NoSlash(c)
    ensures SplitSlash(a + "/" + b + "/" + c) == [a, b, c]
  {
    SplitName(c);
    SplitAfterName(b, c);
    SplitAfterName(a, b + "/" + c);
    assert a + "/" + b + "/" + c == a + "/" + (b + "/" + c);
  }

  /** The components pathlib keeps of `a/b/c`. */
  lemma KeptThree(a: string, b: string, c: string)
    requires NoSlash(a) && NoSlash(b) && NoSlash(c)
    ensures KeptParts(SplitSlash(a + "/" + b + "/" + c)) == KeptName(a) + KeptName(b) + KeptName(c)
  {
    SplitThree(a, b, c);
    KeptPartsAppend([a], [b, c]);
    KeptPartsAppend([b], [c]);
    KeptSingle(a);
    KeptSingle(b);
    KeptSingle(c);
  }

  lemma {:induction false} KeptPlain(parts: seq<string>)
    requires forall k :: 0 <= k < |parts| ==> PlainPart(parts[k])
    ensures KeptParts(parts) == parts
    decreases |parts|
  {
    if parts != [] {
      KeptPlain(parts[1..]);
    }
  }

  /** A joined path starts with its first component. */
  lemma {:induction false} JoinSlashStart(parts: seq<string>)
    requires parts != []
    ensures parts[0] <= JoinSlash(parts)
  {}

  /** Printing a relative path of plain components and parsing the text
      again gives the same path. */
  lemma ParseText(parts: seq<string>)
    requires parts != [] && forall k :: 0 <= k < |parts| ==> PlainPart(parts[k])
    ensures ParsePath(PathText(PosixPath("", parts))) == PosixPath("", parts)
  {
    var text := JoinSlash(parts);
    assert PathText(PosixPath("", parts)) == text;
    JoinSlashStart(parts);
    assert text[0] == parts[0][0] != '/';
    assert PathRoot(text) == "";
    SplitJoin(parts);
    KeptPlain(parts);
  }

  /** The components a slash-free name adds to a path: itself when it is
      plain, none for `.` or an empty name. */
  function KeptName(name: string): seq<string> {
    if PlainPart(name) then [name] else []
  }

  lemma KeptSingle(name: string)
    requires NoSlash(name)
    ensures KeptParts([name]) == KeptName(name)
  {
    assert [name][1..] == [];
    if name != "" && name != "." {
      assert KeptParts([name]) == [name] + KeptParts([]);
    }
  }

  lemma {:induction false} KeptPartsAppend(xs: seq<string>, ys: seq<string>)
    ensures KeptParts(xs + ys) == KeptParts(xs) + KeptParts(ys)
    decreases |xs|
  {
    if xs == [] {
      assert xs + ys == ys;
    } else {
      assert (xs + ys)[0] == xs[0];
      assert (xs + ys)[1..] == xs[1..] + ys;
      KeptPartsAppend(xs[1..], ys);
    }
  }

  /** Joining a slash-free name appends the components it keeps. */
  lemma JoinName(p: PosixPath, name: string)
    requires NoSlash(name)
    ensures JoinPath(p, name) == PosixPath(p.root, p.parts + KeptName(name))
  {
    SplitName(name);
    assert name != [] ==> name[0] != '/';
    assert PathRoot(name) == "";
    KeptSingle(name);
  }

  lemma {:induction false} JoinSlashAppend(parts: seq<string>, name: string)
    requires parts != []
    ensures JoinSlash(parts + [name]) == JoinSlash(parts) + "/" + name
    decreases |parts|
  {
    if |parts| > 1 {
      assert (parts + [name])[1..] == parts[1..] + [name];
      JoinSlashAppend(parts[1..], name);
    }
  }
}

