/** The MCP server's tool calls: reading the arguments, and what `search_code`,
    `get_file` and `update_index` answer. Cloning is `Github.CloneGithubRepo`.
    Reply texts are not modelled; each reply records the facts its text reports. */
module Server {
  import opened Base
  import opened Vectors
  import opened VectorStore
  import opened Embeddings
  import opened Paths
  import opened Github

  /** An argument value: the declared input schema uses strings and one integer. */
  datatype Arg = Text(text: string) | Number(number: int)

  type Arguments = map<string, Arg>

  const TextKeys: set<string> := {"repository_url", "branch", "query", "repository", "file_path", "repo_path"}

  /** The arguments have the types the tool schemas declare. */
  predicate Typed(args: Arguments) {
    && (forall k :: k in TextKeys && k in args ==> args[k].Text?)
    && ("num_results" in args ==> args["num_results"].Number?)
  }

  const ToolNames: set<string> := {"clone_repo", "search_code", "get_file", "update_index"}

  /** The arguments each tool reads with `arguments[key]`, in the order read. */
  function Required(name: string): seq<string> {
    if name == "clone_repo" then ["repository_url"]
    else if name == "search_code" then ["query"]
    else if name == "get_file" then ["file_path", "repository"]
    else if name == "update_index" then ["repo_path"]
    else []
  }

  datatype Request =
    | CloneRepo(url: string, branch: Option<string>)
    | SearchCode(query: string, numResults: int, repository: Option<string>)
    | GetFile(filePath: string, indexName: string)
    | UpdateIndex(repoPath: string)
  {
    function Tool(): string {
      match this
      case CloneRepo(_, _) => "clone_repo"
      case SearchCode(_, _, _) => "search_code"
      case GetFile(_, _) => "get_file"
      case UpdateIndex(_) => "update_index"
    }
  }

  /** What a tool call raises. */
  datatype ToolError =
    | MissingArguments            // ValueError: no arguments, or an empty dict
    | UnknownTool(name: string)   // ValueError
    | MissingArgument(key: string) // KeyError on a required argument
    | MissingField(field: string) // KeyError on a stored metadata record
    | NotUnderRepos(path: string) // ValueError from `relative_to("github_repos")`
    | Embedding(cause: Error)     // re-raised from the embedding service
    | ShapeMismatch               // ValueError from numpy: a stored vector's dimension differs from the query's

  /** What a tool call returns; each alternative is one of the reply texts. */
  datatype Reply =
    | Cloned(clone: Clone)
    | CloneFailed(error: GithubError)
    | NotIndexed(repository: string)
    | NoIndexes
    | NoMatches
    | Results(hits: seq<Hit>)
    | FileFound(record: Meta)
    | FileNotFound(path: string, repository: string)
    | PathMissing(path: string)
    | NoFilesToIndex(repo: string)
    | Indexed(count: nat, repo: string)

  function OptionalText(args: Arguments, key: string): Option<string>
    requires Typed(args) && key in TextKeys
  {
    if key in args then Some(args[key].text) else None
  }

  /** The checks `handle_call_tool` makes before any work: arguments present
      and not empty, a known tool, and its required arguments there. */
  function ReadRequest(name: string, arguments: Option<Arguments>): (r: Result<Request, ToolError>)
    requires arguments.Some? ==> Typed(arguments.value)
    ensures r == Failure(MissingArguments) <==> arguments.None? || arguments.value == map[]
    ensures (r.Failure? && r.error.UnknownTool?) <==>
      (arguments.Some? && arguments.value != map[] && name !in ToolNames)
    ensures r.Success? <==>
      (&& arguments.Some? && arguments.value != map[] && name in ToolNames
       && forall k :: k in Required(name) ==> k in arguments.value)
    ensures r.Failure? && r.error.MissingArgument? ==>
      arguments.Some? && r.error.key in Required(name) && r.error.key !in arguments.value
    ensures r.Success? ==> r.value.Tool() == name
  {
    if arguments.None? || arguments.value == map[] then Failure(MissingArguments)
    else
      var args := arguments.value;
      if name == "clone_repo" then
        if "repository_url" !in args then Failure(MissingArgument("repository_url"))
        else Success(CloneRepo(args["repository_url"].text, OptionalText(args, "branch")))
      else if name == "search_code" then
        if "query" !in args then Failure(MissingArgument("query"))
        else
          var n := if "num_results" in args then args["num_results"].number else 5;
          Success(SearchCode(args["query"].text, n, OptionalText(args, "repository")))
      else if name == "get_file" then
        if "file_path" !in args then Failure(MissingArgument("file_path"))
        else if "repository" !in args then Failure(MissingArgument("repository"))
        else Success(GetFile(args["file_path"].text, args["repository"].text))
      else if name == "update_index" then
        if "repo_path" !in args then Failure(MissingArgument("repo_path"))
        else Success(UpdateIndex(args["repo_path"].text))
      else Failure(UnknownTool(name))
  }

  /** `get_file` reads `file_path` before `repository`: with both missing,
      the error names `file_path`. */
  lemma GetFileReadsPathFirst(args: Arguments)
    requires Typed(args) && args != map[] && "file_path" !in args
    ensures ReadRequest("get_file", Some(args)) == Failure(MissingArgument("file_path"))
  {}

  /** A search asks for five results unless told otherwise, and the optional
      arguments pass through unchanged. */
  lemma SearchDefaults(query: string, args: Arguments)
    requires Typed(args) && "query" in args && args["query"] == Text(query)
    ensures var r := ReadRequest("search_code", Some(args));
      && r.Success?
      && r.value.numResults == (if "num_results" in args then args["num_results"].number else 5)
      && r.value.query == query
      && r.value.repository == (if "repository" in args then Some(args["repository"].text) else None)
  {}

  // ----------------------------------------------------------------- clone_repo

  /** `clone_repo`: clone and report the target directory, or reply with the
      error text when the URL is refused, the target exists or `git` fails.
      `gitSucceeds` stands for the outcome of running `git clone`. */
  method CloneRepoTool(url: string, branch: Option<string>, existing: set<string>, gitSucceeds: bool)
    returns (r: Reply)
    ensures ValidateGithubUrl(url).Failure? ==> r == CloneFailed(InvalidUrl)
    ensures ValidateGithubUrl(url).Success? ==>
      var (owner, repo) := ValidateGithubUrl(url).value;
      var target := RepoDir(owner, repo);
      && (target in existing ==> r == CloneFailed(AlreadyExists(target)))
      && (target !in existing && !gitSucceeds ==> r == CloneFailed(GitFailed))
      && (target !in existing && gitSucceeds ==>
            r == Cloned(Clone(target, ["git", "clone"] + BranchFlag(branch) + [url, target])))
  {
    var c := CloneGithubRepo(url, branch, existing);
    if c.Failure? {
      return CloneFailed(c.error);
    }
    if !gitSucceeds {
      return CloneFailed(GitFailed);
    }
    return Cloned(c.value);
  }

  // ---------------------------------------------------------------- search_code

  /** Python truthiness of an optional string. */
  predicate Truthy(s: Option<string>) {
    s.Some? && s.value != ""
  }

  /** `Path("indices")`. */
  const IndicesDir := PosixPath("", ["indices"])

  /** `indices_dir / f"{repository}.pkl"`, as text: a slash-free name lands
      directly in `indices`, and a name with a root replaces `indices`. */
  function IndexFile(repository: string): (r: string)
    ensures NoSlash(repository) ==> r == "indices" + "/" + repository + ".pkl"
    ensures PathRoot(repository) != "" ==> r == PathText(ParsePath(repository + ".pkl"))
  {
    var name := repository + ".pkl";
    if NoSlash(repository) then
      assert NoSlash(name) && |name| >= 4;
      JoinName(IndicesDir, name);
      JoinSlashAppend(["indices"], name);
      PathText(JoinPath(IndicesDir, name))
    else
      assert PathRoot(repository) != "" ==> name[0] == repository[0] == '/';
      PathText(JoinPath(IndicesDir, name))
  }

  lemma PklNameIsPlain(a: string)
    requires NoSlash(a)
    ensures NoSlash(a + ".pkl") && PlainPart(a + ".pkl")
  {
    assert |a + ".pkl"| >= 4;
  }

  /** pathlib drops a `.` component: `./a` names the index file of `a`. */
  lemma IndexFileDropsDot(a: string)
    requires NoSlash(a)
    ensures IndexFile("./" + a) == IndexFile(a)
  {
    var n := a + ".pkl";
    PklNameIsPlain(a);
    assert "./" + a + ".pkl" == "." + "/" + n;
    SplitAfterName(".", n);
    SplitName(n);
    assert KeptParts([".", n]) == KeptParts([n]) == [n];
    JoinSlashAppend(["indices"], n);
  }

  /** pathlib drops an empty component: `a//b` is `a/b`. */
  lemma IndexFileDropsEmpty(a: string, b: string)
    requires PlainPart(a) && NoSlash(b)
    ensures IndexFile(a + "//" + b) == "indices" + "/" + a + "/" + b + ".pkl"
  {
    var n := b + ".pkl";
    var name := a + "//" + b + ".pkl";
    PklNameIsPlain(b);
    assert !NoSlash(a + "//" + b) by {
      assert (a + "//" + b)[|a|] == '/';
    }
    assert JoinPath(IndicesDir, name) == PosixPath("", ["indices", a, n]) by {
      assert name == a + "/" + "" + "/" + n;
      KeptThree(a, "", n);
      assert KeptName(a) + KeptName("") + KeptName(n) == [a, n];
      assert name[0] == a[0] != '/';
    }
    JoinSlashAppend(["indices"], a);
    JoinSlashAppend(["indices", a], n);
    assert ["indices", a] + [n] == ["indices", a, n];
  }

  /** A name with a root replaces `indices`: `/d/x` reads `/d/x.pkl`. */
  lemma IndexFileOfAbsoluteName(d: string, x: string)
    requires PlainPart(d) && NoSlash(x)
    ensures IndexFile("/" + d + "/" + x) == "/" + d + "/" + x + ".pkl"
  {
    var n := x + ".pkl";
    var name := "/" + d + "/" + x + ".pkl";
    PklNameIsPlain(x);
    assert ("/" + d + "/" + x)[1] == d[0] != '/';
    assert ParsePath(name) == PosixPath("/", [d, n]) by {
      assert name == "" + "/" + d + "/" + n;
      KeptThree("", d, n);
      assert KeptName("") + KeptName(d) + KeptName(n) == [d, n];
      assert PathRoot(name) == "/";
    }
    JoinSlashAppend([d], n);
    assert [d] + [n] == [d, n];
  }

  /** The index files a search reads: the named repository's, or every one listed. */
  function Targets(listing: seq<string>, repository: Option<string>): seq<string> {
    if Truthy(repository) then [IndexFile(repository.value)] else listing
  }

  /** The query's embedding, when the service gives one, is a single
      non-zero vector, and `norm` is the L2 norm. */
  ghost predicate QueryUsable(query: string, provider: Provider, norm: NormFn) {
    var e := GetEmbedding(Single(query), provider);
    IsL2Norm(norm) && (e.Success? ==> e.value.One? && NonZero(e.value.vector))
  }

  /** Some index among `paths` holds an entry. */
  predicate AnyStored(files: map<string, Snapshot>, paths: seq<string>)
    decreases |paths|
  {
    paths != [] &&
      (AnyStored(files, paths[..|paths| - 1]) || Opened(files, Some(paths[|paths| - 1])).embeddings != [])
  }

  lemma {:induction false} AnyStoredIff(files: map<string, Snapshot>, paths: seq<string>)
    ensures AnyStored(files, paths) <==>
      exists j :: 0 <= j < |paths| && Opened(files, Some(paths[j])).embeddings != []
    decreases |paths|
  {
    if paths != [] {
      var init := paths[..|paths| - 1];
      AnyStoredIff(files, init);
      assert forall j :: 0 <= j < |init| ==> init[j] == paths[j];
    }
  }

  lemma AnyStoredExtends(files: map<string, Snapshot>, paths: seq<string>, n: nat)
    requires n <= |paths| && AnyStored(files, paths[..n])
    ensures AnyStored(files, paths)
  {
    AnyStoredIff(files, paths[..n]);
    AnyStoredIff(files, paths);
    var j :| 0 <= j < n && Opened(files, Some(paths[..n][j])).embeddings != [];
    assert paths[..n][j] == paths[j];
  }

  /** Every index's search results, concatenated in index order, or `None`
      when searching one of them raises. */
  function Collect(files: map<string, Snapshot>, paths: seq<string>, v: Vector, norm: NormFn, k: int): Option<seq<Hit>>
    requires forall p :: p in files ==> WellFormed(files[p])
    requires IsL2Norm(norm) && NonZero(v)
    decreases |paths|
  {
    if paths == [] then Some([])
    else
      match Collect(files, paths[..|paths| - 1], v, norm, k)
      case None => None
      case Some(hits) =>
        match HitsIn(files, paths[|paths| - 1], v, norm, k)
        case None => None
        case Some(more) => Some(hits + more)
  }

  /** The search results of the index file at `path`. */
  function HitsIn(files: map<string, Snapshot>, path: string, v: Vector, norm: NormFn, k: int): Option<seq<Hit>>
    requires forall p :: p in files ==> WellFormed(files[p])
    requires IsL2Norm(norm) && NonZero(v)
  {
    OpenedWellFormed(files, Some(path));
    TrySearch(Opened(files, Some(path)), v, norm, k)
  }

  /** Searching one more index: its results are appended, or the search raises. */
  lemma CollectStep(files: map<string, Snapshot>, paths: seq<string>, i: nat, v: Vector, norm: NormFn, k: int)
    requires forall p :: p in files ==> WellFormed(files[p])
    requires IsL2Norm(norm) && NonZero(v) && i < |paths|
    ensures var c, h := Collect(files, paths[..i], v, norm, k), HitsIn(files, paths[i], v, norm, k);
      Collect(files, paths[..i + 1], v, norm, k) == if c.Some? && h.Some? then Some(c.value + h.value) else None
  {
    assert paths[..i + 1][..i] == paths[..i];
  }

  /** One turn of the loop of `CollectHits`: after the store at `paths[i]`
      gives `more` without raising, the loop's invariant holds one index on. */
  lemma CollectAdvance(files: map<string, Snapshot>, paths: seq<string>, i: nat, e: Result<Output, Error>,
                       norm: NormFn, k: int, all: seq<Hit>, more: seq<Hit>)
    requires forall p :: p in files ==> WellFormed(files[p])
    requires i < |paths| && (e.Success? ==> e.value.One? && IsL2Norm(norm) && NonZero(e.value.vector))
    requires AnyStored(files, paths[..i]) ==> e.Success?
    requires !AnyStored(files, paths[..i]) ==> all == []
    requires e.Success? ==> Collect(files, paths[..i], e.value.vector, norm, k) == Some(all)
    requires Opened(files, Some(paths[i])).embeddings == [] ==> more == []
    requires Opened(files, Some(paths[i])).embeddings != [] ==>
      e.Success? && HitsIn(files, paths[i], e.value.vector, norm, k) == Some(more)
    ensures AnyStored(files, paths[..i + 1]) ==> e.Success?
    ensures !AnyStored(files, paths[..i + 1]) ==> all + more == []
    ensures e.Success? ==> Collect(files, paths[..i + 1], e.value.vector, norm, k) == Some(all + more)
  {
    assert paths[..i + 1][..i] == paths[..i];
    if e.Success? {
      CollectStep(files, paths, i, e.value.vector, norm, k);
      OpenedWellFormed(files, Some(paths[i]));
    }
  }

  /** Searching one more index raises exactly when the search so far raised
      or that index holds a vector of another dimension. */
  lemma CollectStepRaises(files: map<string, Snapshot>, paths: seq<string>, i: nat, v: Vector, norm: NormFn, k: int)
    requires forall p :: p in files ==> WellFormed(files[p])
    requires IsL2Norm(norm) && NonZero(v) && i < |paths|
    ensures Collect(files, paths[..i + 1], v, norm, k).None? <==>
      Collect(files, paths[..i], v, norm, k).None? || !Fits(Opened(files, Some(paths[i])), v)
  {
    CollectStep(files, paths, i, v, norm, k);
    OpenedWellFormed(files, Some(paths[i]));
  }

  /** A store at `paths[i]` that raises ends the loop of `CollectHits` with
      the error that the whole search gives. */
  lemma CollectStops(files: map<string, Snapshot>, paths: seq<string>, i: nat, e: Result<Output, Error>,
                     norm: NormFn, k: int, err: ToolError)
    requires forall p :: p in files ==> WellFormed(files[p])
    requires i < |paths| && (e.Success? ==> e.value.One? && IsL2Norm(norm) && NonZero(e.value.vector))
    requires e.Success? ==> Collect(files, paths[..i], e.value.vector, norm, k).Some?
    requires Opened(files, Some(paths[i])).embeddings != []
    requires e.Failure? ==> err == Embedding(e.error)
    requires e.Success? ==> HitsIn(files, paths[i], e.value.vector, norm, k).None? && err == ShapeMismatch
    ensures AnyStored(files, paths)
    ensures e.Success? ==> Collect(files, paths, e.value.vector, norm, k).None?
  {
    assert paths[..i + 1][..i] == paths[..i];
    AnyStoredExtends(files, paths, i + 1);
    if e.Success? {
      CollectStep(files, paths, i, e.value.vector, norm, k);
      CollectRaisesAfter(files, paths, i + 1, e.value.vector, norm, k);
    }
  }

  /** Once searching a prefix of the indexes raises, searching them all does. */
  lemma CollectRaisesAfter(files: map<string, Snapshot>, paths: seq<string>, n: nat, v: Vector, norm: NormFn, k: int)
    requires forall p :: p in files ==> WellFormed(files[p])
    requires IsL2Norm(norm) && NonZero(v)
    requires n <= |paths| && Collect(files, paths[..n], v, norm, k).None?
    ensures Collect(files, paths, v, norm, k).None?
  {
    CollectRaisesIff(files, paths[..n], v, norm, k);
    CollectRaisesIff(files, paths, v, norm, k);
    var p :| p in paths[..n] && !Fits(Opened(files, Some(p)), v);
    assert p in paths;
  }

  /** Only the index files searched decide whether the search raises: it does
      exactly when one of them holds a vector whose dimension differs from the
      query's. Indexes that are not searched play no part. */
  lemma {:induction false} CollectRaisesIff(files: map<string, Snapshot>, paths: seq<string>, v: Vector,
                                            norm: NormFn, k: int)
    requires forall p :: p in files ==> WellFormed(files[p])
    requires IsL2Norm(norm) && NonZero(v)
    ensures Collect(files, paths, v, norm, k).None? <==>
      exists p :: p in paths && !Fits(Opened(files, Some(p)), v)
    decreases |paths|
  {
    if paths != [] {
      var init, last := paths[..|paths| - 1], paths[|paths| - 1];
      CollectRaisesIff(files, init, v, norm, k);
      CollectStepRaises(files, paths, |paths| - 1, v, norm, k);
      assert paths[..|paths|] == paths;
      assert paths == init + [last];
    }
  }

  /** `sorted(..., key=score, reverse=True)` places `h` in front of the first
      entry that does not score higher, so it stays ahead of its equals. */
  function InsertByScore(h: Hit, sorted: seq<Hit>): (r: seq<Hit>)
    ensures |r| == |sorted| + 1
    ensures multiset(r) == multiset(sorted) + multiset{h}
    decreases |sorted|
  {
    if sorted == [] || h.1 >= sorted[0].1 then [h] + sorted
    else
      assert sorted == [sorted[0]] + sorted[1..];
      [sorted[0]] + InsertByScore(h, sorted[1..])
  }

  /** Python's stable `list.sort(key=score, reverse=True)`. */
  function SortByScore(hits: seq<Hit>): (r: seq<Hit>)
    ensures |r| == |hits|
    ensures multiset(r) == multiset(hits)
    decreases |hits|
  {
    if hits == [] then []
    else
      assert hits == [hits[0]] + hits[1..];
      InsertByScore(hits[0], SortByScore(hits[1..]))
  }

  /** Scores never increase along the list. */
  predicate ByScore(hs: seq<Hit>) {
    forall j :: 0 <= j < |hs| - 1 ==> hs[j].1 >= hs[j + 1].1
  }

  lemma {:induction false} InsertKeepsByScore(h: Hit, sorted: seq<Hit>)
    requires ByScore(sorted)
    ensures ByScore(InsertByScore(h, sorted))
    ensures sorted != [] ==> InsertByScore(h, sorted)[0] == h || InsertByScore(h, sorted)[0] == sorted[0]
    decreases |sorted|
  {
    if sorted != [] && h.1 < sorted[0].1 {
      InsertKeepsByScore(h, sorted[1..]);
    }
  }

  lemma {:induction false} SortByScoreSorts(hits: seq<Hit>)
    ensures ByScore(SortByScore(hits))
    decreases |hits|
  {
    if hits != [] {
      SortByScoreSorts(hits[1..]);
      InsertKeepsByScore(hits[0], SortByScore(hits[1..]));
    }
  }

  lemma {:induction false} ByScorePairwise(hs: seq<Hit>, i: nat, j: nat)
    requires ByScore(hs) && i <= j < |hs|
    ensures hs[i].1 >= hs[j].1
    decreases j - i
  {
    if i < j {
      ByScorePairwise(hs, i + 1, j);
    }
  }

  /** The hits that score exactly `s`, in order. */
  function WithScore(hs: seq<Hit>, s: real): seq<Hit>
    decreases |hs|
  {
    if hs == [] then []
    else (if hs[0].1 == s then [hs[0]] else []) + WithScore(hs[1..], s)
  }

  lemma WithScoreCons(x: Hit, xs: seq<Hit>, s: real)
    ensures WithScore([x] + xs, s) == (if x.1 == s then [x] else []) + WithScore(xs, s)
  {
    assert ([x] + xs)[1..] == xs;
  }

  lemma {:induction false} InsertWithScore(h: Hit, sorted: seq<Hit>, s: real)
    ensures WithScore(InsertByScore(h, sorted), s)
      == (if h.1 == s then [h] else []) + WithScore(sorted, s)
    decreases |sorted|
  {
    if sorted == [] || h.1 >= sorted[0].1 {
      WithScoreCons(h, sorted, s);
    } else {
      var rest := InsertByScore(h, sorted[1..]);
      InsertWithScore(h, sorted[1..], s);
      WithScoreCons(sorted[0], rest, s);
      WithScoreCons(sorted[0], sorted[1..], s);
      assert sorted == [sorted[0]] + sorted[1..];
    }
  }

  /** The sort is stable: the hits of any one score keep their order. */
  lemma {:induction false} SortIsStable(hits: seq<Hit>, s: real)
    ensures WithScore(SortByScore(hits), s) == WithScore(hits, s)
    decreases |hits|
  {
    if hits != [] {
      SortIsStable(hits[1..], s);
      InsertWithScore(hits[0], SortByScore(hits[1..]), s);
    }
  }

  /** The three fields a printed record reads (`language` has a default). */
  predicate Printable(m: Meta) {
    "file" in m && "repo" in m && "code" in m
  }

  /** The `KeyError` printing record `m` raises: the first of `file`, `repo`,
      `code` it lacks, in the order the reply text reads them. */
  function MissingKeyOf(m: Meta): (r: Option<string>)
    ensures r.None? <==> Printable(m)
    ensures r.Some? ==> r.value in {"file", "repo", "code"} && r.value !in m
    ensures r == Some("repo") ==> "file" in m
    ensures r == Some("code") ==> "file" in m && "repo" in m
  {
    if "file" !in m then Some("file")
    else if "repo" !in m then Some("repo")
    else if "code" !in m then Some("code")
    else None
  }

  /** The `KeyError` formatting a list of hits raises: the missing key of the
      first hit that cannot be printed, or `None` when every hit can. */
  function FormatError(hits: seq<Hit>): (r: Option<string>)
    ensures r.None? <==> forall k :: 0 <= k < |hits| ==> Printable(hits[k].0)
    ensures r.Some? ==> exists k ::
      && 0 <= k < |hits| && r == MissingKeyOf(hits[k].0)
      && forall j :: 0 <= j < k ==> Printable(hits[j].0)
    decreases |hits|
  {
    if hits == [] then None
    else if !Printable(hits[0].0) then MissingKeyOf(hits[0].0)
    else
      var r := FormatError(hits[1..]);
      assert forall k :: 0 <= k < |hits| - 1 ==> hits[1..][k] == hits[k + 1];
      r
  }

  /** `all_results.sort(...)` then `all_results[:num_results]`. */
  function Merge(hits: seq<Hit>, k: int): seq<Hit> {
    Head(SortByScore(hits), k)
  }

  /** The merged list holds `num_results` hits, counted as a Python slice
      bound, best first. */
  lemma MergeIsSorted(hits: seq<Hit>, k: int)
    ensures |Merge(hits, k)| == SliceIndex(k, |hits|)
    ensures ByScore(Merge(hits, k))
  {
    SortByScoreSorts(hits);
  }

  /** The merged list and the hits it leaves out are, together, exactly the
      collected hits. */
  lemma MergeKeepsAll(hits: seq<Hit>, k: int)
    ensures var out, sorted := Merge(hits, k), SortByScore(hits);
      multiset(hits) == multiset(out) + multiset(sorted[|out|..])
  {
    var out, sorted := Merge(hits, k), SortByScore(hits);
    assert sorted == out + sorted[|out|..];
  }

  lemma ByScoreTail(hs: seq<Hit>, n: nat)
    requires ByScore(hs) && 0 < n <= |hs|
    ensures forall h :: h in hs[n..] ==> h.1 <= hs[n - 1].1
  {
    forall h | h in hs[n..] ensures h.1 <= hs[n - 1].1 {
      var tail := hs[n..];
      var j :| 0 <= j < |tail| && tail[j] == h;
      ByScorePairwise(hs, n - 1, n + j);
    }
  }

  /** Every hit left out scores no higher than the last one kept. */
  lemma MergeDropsLower(hits: seq<Hit>, k: int)
    requires Merge(hits, k) != []
    ensures var out, sorted := Merge(hits, k), SortByScore(hits);
      forall h :: h in sorted[|out|..] ==> h.1 <= out[|out| - 1].1
  {
    var out, sorted := Merge(hits, k), SortByScore(hits);
    SortByScoreSorts(hits);
    ByScoreTail(sorted, |out|);
    assert out[|out| - 1] == sorted[|out| - 1];
  }

  /** `search_code`: read the named index or every listed one, search each
      index that holds entries (embedding the query for each), then merge. */
  method SearchCodeTool(fs: FileSystem, listing: seq<string>, query: string, numResults: int,
                        repository: Option<string>, provider: Provider, norm: NormFn)
    returns (r: Result<Reply, ToolError>)
    requires fs.Valid() && QueryUsable(query, provider, norm)
    ensures Truthy(repository) && IndexFile(repository.value) !in fs.files ==>
      r == Success(NotIndexed(repository.value))
    ensures !(Truthy(repository) && IndexFile(repository.value) !in fs.files) ==>
      var paths := Targets(listing, repository);
      var e := GetEmbedding(Single(query), provider);
      && (paths == [] ==> r == Success(NoIndexes))
      && (paths != [] && !AnyStored(fs.files, paths) ==> r == Success(NoMatches))
      && (AnyStored(fs.files, paths) && e.Failure? ==> r == Failure(Embedding(e.error)))
      && (AnyStored(fs.files, paths) && e.Success? ==>
            var found := Collect(fs.files, paths, e.value.vector, norm, numResults);
            && (found.None? ==> r == Failure(ShapeMismatch))
            && (found.Some? ==>
                  var hits := found.value;
                  var shown := Merge(hits, numResults);
                  && (hits == [] ==> r == Success(NoMatches))
                  && (hits != [] && FormatError(shown).None? ==> r == Success(Results(shown)))
                  && (hits != [] && FormatError(shown).Some? ==> r == Failure(MissingField(FormatError(shown).value)))))
  {
    var paths: seq<string>;
    if Truthy(repository) {
      var file := IndexFile(repository.value);
      if file !in fs.files {
        return Success(NotIndexed(repository.value));
      }
      paths := [file];
    } else {
      paths := listing;
    }
    if paths == [] {
      return Success(NoIndexes);
    }
    var found := CollectHits(fs, paths, query, numResults, provider, norm);
    if found.Failure? {
      return Failure(found.error);
    }
    var all := found.value;
    if all == [] {
      return Success(NoMatches);
    }
    all := SortByScore(all);
    all := Head(all, numResults);
    var missing := FormatError(all);
    if missing.Some? {
      return Failure(MissingField(missing.value));
    }
    return Success(Results(all));
  }

  /** The loop of `search_code` over the index files: every store that holds
      an entry asks for the query's embedding and is searched. A failing
      request raises at the first such store, before any search. */
  method CollectHits(fs: FileSystem, paths: seq<string>, query: string, k: int, provider: Provider, norm: NormFn)
    returns (r: Result<seq<Hit>, ToolError>)
    requires fs.Valid() && QueryUsable(query, provider, norm)
    ensures var e := GetEmbedding(Single(query), provider);
      && (!AnyStored(fs.files, paths) ==> r == Success([]))
      && (AnyStored(fs.files, paths) && e.Failure? ==> r == Failure(Embedding(e.error)))
      && (AnyStored(fs.files, paths) && e.Success? && Collect(fs.files, paths, e.value.vector, norm, k).None? ==>
            r == Failure(ShapeMismatch))
      && (AnyStored(fs.files, paths) && e.Success? && Collect(fs.files, paths, e.value.vector, norm, k).Some? ==>
            r == Success(Collect(fs.files, paths, e.value.vector, norm, k).value))
  {
    ghost var e := GetEmbedding(Single(query), provider);
    var all: seq<Hit> := [];
    var i := 0;
    while i < |paths|
      invariant 0 <= i <= |paths|
      invariant AnyStored(fs.files, paths[..i]) ==> e.Success?
      invariant !AnyStored(fs.files, paths[..i]) ==> all == []
      invariant e.Success? ==> Collect(fs.files, paths[..i], e.value.vector, norm, k) == Some(all)
    {
      var hits := SearchStore(fs, paths[i], query, k, provider, norm);
      if hits.Failure? {
        CollectStops(fs.files, paths, i, e, norm, k, hits.error);
        return Failure(hits.error);
      }
      CollectAdvance(fs.files, paths, i, e, norm, k, all, hits.value);
      all := all + hits.value;
      i := i + 1;
    }
    assert paths[..|paths|] == paths;
    return Success(all);
  }

  /** One index file: `VectorStore(path)`, then, when it holds an entry,
      the query's embedding and the store's search. */
  method SearchStore(fs: FileSystem, path: string, query: string, k: int, provider: Provider, norm: NormFn)
    returns (r: Result<seq<Hit>, ToolError>)
    requires fs.Valid() && QueryUsable(query, provider, norm)
    ensures var e := GetEmbedding(Single(query), provider);
      if Opened(fs.files, Some(path)).embeddings == [] then r == Success([])
      else if e.Failure? then r == Failure(Embedding(e.error))
      else if HitsIn(fs.files, path, e.value.vector, norm, k).None? then r == Failure(ShapeMismatch)
      else r == Success(HitsIn(fs.files, path, e.value.vector, norm, k).value)
  {
    var store := new InMemoryVectorStore(fs, Some(path));
    if store.Size() == 0 {
      return Success([]);
    }
    var q := GetEmbedding(Single(query), provider);
    if q.Failure? {
      return Failure(Embedding(q.error));
    }
    var hits := TrySearch(store.Contents(), q.value.vector, norm, k);
    if hits.None? {
      return Failure(ShapeMismatch);
    }
    return Success(hits.value);
  }

  // ------------------------------------------------------------------- get_file

  /** The record is readable and names some other file. */
  predicate Other(m: Meta, path: string) {
    "file" in m && m["file"] != path
  }

  /** Where the scan of `get_file` stops: the first record that names `path`
      or has no `file` field, or the end. */
  function FirstRecord(ms: seq<Meta>, path: string): (i: nat)
    ensures i <= |ms|
    ensures forall k :: 0 <= k < i ==> Other(ms[k], path)
    ensures i < |ms| ==> !Other(ms[i], path)
    decreases |ms|
  {
    if ms == [] || !Other(ms[0], path) then 0
    else 1 + FirstRecord(ms[1..], path)
  }

  /** The stopping point is unique: any position with only other files before
      it, and the end or a non-other record at it, is `FirstRecord`. */
  lemma FirstRecordUnique(ms: seq<Meta>, path: string, j: nat)
    requires j <= |ms| && forall k :: 0 <= k < j ==> Other(ms[k], path)
    requires j < |ms| ==> !Other(ms[j], path)
    ensures j == FirstRecord(ms, path)
  {}

  /** `get_file`: the first stored record for `file_path`, in store order. */
  method GetFileTool(fs: FileSystem, filePath: string, repository: string) returns (r: Result<Reply, ToolError>)
    requires fs.Valid()
    ensures IndexFile(repository) !in fs.files ==> r == Success(NotIndexed(repository))
    ensures IndexFile(repository) in fs.files ==>
      var ms := fs.files[IndexFile(repository)].metadata;
      var i := FirstRecord(ms, filePath);
      && (i == |ms| ==> r == Success(FileNotFound(filePath, repository)))
      && (i < |ms| && "file" !in ms[i] ==> r == Failure(MissingField("file")))
      && (i < |ms| && "file" in ms[i] ==> ms[i]["file"] == filePath)
      && (i < |ms| && Printable(ms[i]) ==> r == Success(FileFound(ms[i])))
      && (i < |ms| && "file" in ms[i] && !Printable(ms[i]) ==> r == Failure(MissingField(MissingKeyOf(ms[i]).value)))
  {
    var file := IndexFile(repository);
    if file !in fs.files {
      return Success(NotIndexed(repository));
    }
    var store := new InMemoryVectorStore(fs, Some(file));
    var ms := store.metadata;
    var j := 0;
    while j < |ms|
      invariant 0 <= j <= |ms|
      invariant forall k :: 0 <= k < j ==> Other(ms[k], filePath)
    {
      var m := ms[j];
      if "file" !in m {
        FirstRecordUnique(ms, filePath, j);
        return Failure(MissingField("file"));
      }
      if m["file"] == filePath {
        FirstRecordUnique(ms, filePath, j);
        var missing := MissingKeyOf(m);
        if missing.Some? {
          return Failure(MissingField(missing.value));
        }
        return Success(FileFound(m));
      }
      j := j + 1;
    }
    FirstRecordUnique(ms, filePath, j);
    return Success(FileNotFound(filePath, repository));
  }

  /** Finding a record means it is the first one for that file. */
  lemma FoundIsFirst(ms: seq<Meta>, path: string, i: nat)
    requires i < |ms| && "file" in ms[i] && ms[i]["file"] == path
    requires forall k :: 0 <= k < i ==> "file" in ms[k]
    ensures FirstRecord(ms, path) <= i
    ensures FirstRecord(ms, path) < |ms| && ms[FirstRecord(ms, path)]["file"] == path
  {}

  // --------------------------------------------------------------- update_index

  /** The batch size `update_index` leaves at its default. */
  const BatchSize := 32

  /** One path `rglob("*")` yields: the components of the whole path, the
      repository path's own components first, as `_should_ignore` sees them;
      its path relative to the repository; whether it is a file; and its text
      (`None` when reading it raises, which is logged and skipped). */
  datatype Entry = Entry(parts: seq<string>, relative: string, isFile: bool, content: Option<string>)

  /** A file that is indexed: not ignored, and readable. */
  predicate Kept(e: Entry) {
    e.isFile && !ShouldIgnore(e.parts) && e.content.Some?
  }

  function Name(parts: seq<string>): string {
    if parts == [] then "" else parts[|parts| - 1]
  }

  /** `repo_path.relative_to("github_repos")`. */
  function RelativeToRepos(repoPath: string): Result<string, ToolError> {
    if repoPath == "github_repos" then Success(".")
    else if "github_repos/" <= repoPath && |repoPath| > |"github_repos/"| then Success(repoPath[|"github_repos/"|..])
    else Failure(NotUnderRepos(repoPath))
  }

  /** The entries indexed, in listing order. */
  function Indexable(es: seq<Entry>): (r: seq<Entry>)
    ensures |r| <= |es|
    ensures forall e :: e in r ==> e.content.Some?
    decreases |es|
  {
    if es == [] then []
    else
      var init := Indexable(es[..|es| - 1]);
      if Kept(es[|es| - 1]) then init + [es[|es| - 1]] else init
  }

  /** Only readable, non-ignored files of the listing are indexed. */
  lemma {:induction false} IndexableSound(es: seq<Entry>)
    ensures forall e :: e in Indexable(es) ==> Kept(e) && e in es
    decreases |es|
  {
    if es != [] {
      IndexableSound(es[..|es| - 1]);
    }
  }

  /** `_should_ignore` sees the repository's own components too, so a
      repository whose path `base` has an ignored component, such as
      `github_repos/<owner>/venv`, indexes nothing. */
  lemma IgnoredRepositoryIndexesNothing(base: seq<string>, es: seq<Entry>)
    requires ShouldIgnore(base)
    requires forall e :: e in es ==> base <= e.parts
    ensures Indexable(es) == []
  {
    IndexableSound(es);
    forall e | e in es
      ensures ShouldIgnore(e.parts)
    {
      assert e.parts == base + e.parts[|base|..];
      ShouldIgnoreAppend(base, e.parts[|base|..]);
    }
  }

  /** Every readable, non-ignored file of the listing is indexed. */
  lemma {:induction false} IndexableComplete(es: seq<Entry>)
    ensures forall e :: e in es && Kept(e) ==> e in Indexable(es)
    decreases |es|
  {
    if es != [] {
      var init := es[..|es| - 1];
      IndexableComplete(init);
      assert es == init + [es[|es| - 1]];
    }
  }

  /** The texts sent to the embedding service. */
  function Texts(kept: seq<Entry>): (r: seq<string>)
    requires forall e :: e in kept ==> e.content.Some?
    ensures |r| == |kept|
  {
    seq(|kept|, j requires 0 <= j < |kept| => kept[j].content.value)
  }

  /** The metadata record `update_index` builds for one file. */
  function Record(e: Entry, repo: string): Meta
    requires e.content.Some?
  {
    map["file" := e.relative, "repo" := repo, "code" := e.content.value,
        "language" := GuessLanguage(Name(e.parts))]
  }

  /** The metadata records of the indexed files. */
  function Records(kept: seq<Entry>, repo: string): (r: seq<Meta>)
    requires forall e :: e in kept ==> e.content.Some?
    ensures |r| == |kept|
  {
    seq(|kept|, j requires 0 <= j < |kept| => Record(kept[j], repo))
  }

  /** Each record carries the text that was embedded for it, the repository,
      the file's relative path and its language. */
  lemma RecordsDescribeTexts(kept: seq<Entry>, repo: string)
    requires forall e :: e in kept ==> e.content.Some?
    ensures forall j :: 0 <= j < |kept| ==>
      && Records(kept, repo)[j]["code"] == Texts(kept)[j]
      && Records(kept, repo)[j]["repo"] == repo
      && Records(kept, repo)[j]["file"] == kept[j].relative
      && Records(kept, repo)[j]["language"] == GuessLanguage(Name(kept[j].parts))
  {}

  lemma IndexableStep(es: seq<Entry>, i: nat)
    requires i < |es|
    ensures Indexable(es[..i + 1]) == if Kept(es[i]) then Indexable(es[..i]) + [es[i]] else Indexable(es[..i])
  {
    assert es[..i + 1][..i] == es[..i];
  }

  lemma TextsAppend(kept: seq<Entry>, e: Entry, repo: string)
    requires (forall x :: x in kept ==> x.content.Some?) && e.content.Some?
    ensures Texts(kept + [e]) == Texts(kept) + [e.content.value]
    ensures Records(kept + [e], repo) == Records(kept, repo) + [Record(e, repo)]
  {
    assert Texts(kept + [e]) == Texts(kept) + [e.content.value];
    assert Records(kept + [e], repo) == Records(kept, repo) + [Record(e, repo)];
  }

  /** The scan loop of `update_index`: the texts and records of the indexed
      files, in listing order, and how many there are. */
  method ScanFiles(entries: seq<Entry>, rel: string)
    returns (contents: seq<string>, metas: seq<Meta>, count: nat)
    ensures var kept := Indexable(entries);
      contents == Texts(kept) && metas == Records(kept, rel) && count == |kept|
  {
    contents, metas, count := [], [], 0;
    var i := 0;
    while i < |entries|
      invariant 0 <= i <= |entries|
      invariant var kept := Indexable(entries[..i]);
        contents == Texts(kept) && metas == Records(kept, rel) && count == |kept|
    {
      contents, metas, count := ScanEntry(entries, i, rel, contents, metas, count);
      i := i + 1;
    }
    assert entries[..|entries|] == entries;
  }

  /** One pass of the scan loop: a kept file adds its text and its record. */
  method ScanEntry(entries: seq<Entry>, i: nat, rel: string, contents: seq<string>, metas: seq<Meta>, count: nat)
    returns (contents': seq<string>, metas': seq<Meta>, count': nat)
    requires i < |entries|
    requires var kept := Indexable(entries[..i]);
      contents == Texts(kept) && metas == Records(kept, rel) && count == |kept|
    ensures var kept := Indexable(entries[..i + 1]);
      contents' == Texts(kept) && metas' == Records(kept, rel) && count' == |kept|
  {
    var e := entries[i];
    IndexableStep(entries, i);
    if Kept(e) {
      TextsAppend(Indexable(entries[..i]), e, rel);
      return contents + [e.content.value], metas + [Record(e, rel)], count + 1;
    }
    return contents, metas, count;
  }

  /** The normalised vectors `add` stores. */
  function Units(vs: seq<Vector>, norm: NormFn): (r: seq<Vector>)
    requires IsL2Norm(norm) && forall v :: v in vs ==> NonZero(v)
    ensures |r| == |vs| && forall u :: u in r ==> IsUnit(u)
  {
    seq(|vs|, j requires 0 <= j < |vs| => Unit(vs[j], norm))
  }

  /** A store's lists after `add` was called once per pair. */
  function Stored(base: Snapshot, vs: seq<Vector>, ms: seq<Meta>, norm: NormFn): Snapshot
    requires IsL2Norm(norm) && forall v :: v in vs ==> NonZero(v)
  {
    Snapshot(base.embeddings + Units(vs, norm), base.metadata + ms)
  }

  /** The `zip` loop of `update_index`: one `add` per pair; each saves. */
  method AddPairs(store: InMemoryVectorStore, vs: seq<Vector>, ms: seq<Meta>, norm: NormFn)
    requires store.Valid() && Persists(store.picklePath)
    requires IsL2Norm(norm) && |vs| == |ms| && forall v :: v in vs ==> NonZero(v)
    modifies store, store.fs
    ensures store.Valid()
    ensures store.Contents() == Stored(old(store.Contents()), vs, ms, norm)
    ensures vs == [] ==> store.fs.files == old(store.fs.files)
    ensures vs != [] ==> store.fs.files == old(store.fs.files)[store.picklePath.value := store.Contents()]
  {
    ghost var base := store.Contents();
    var j := 0;
    while j < |vs|
      invariant 0 <= j <= |vs|
      invariant store.Valid()
      invariant store.Contents() == Stored(base, vs[..j], ms[..j], norm)
      invariant j == 0 ==> store.fs.files == old(store.fs.files)
      invariant j > 0 ==> store.fs.files == old(store.fs.files)[store.picklePath.value := store.Contents()]
    {
      assert Units(vs[..j + 1], norm) == Units(vs[..j], norm) + [Unit(vs[j], norm)];
      assert ms[..j + 1] == ms[..j] + [ms[j]];
      store.Add(vs[j], norm, ms[j]);
      j := j + 1;
    }
    assert vs[..j] == vs && ms[..j] == ms;
  }

  /** `update_index`: collect the readable, non-ignored files, embed their
      texts in batches, and add the `j`-th vector with the `j`-th record for as
      many pairs as both lists have; the store saves after every addition.
      `dirs` holds the paths that exist. */
  method UpdateIndexTool(fs: FileSystem, repoPath: string, dirs: set<string>, entries: seq<Entry>,
                         provider: Provider, norm: NormFn)
    returns (r: Result<Reply, ToolError>)
    requires fs.Valid() && IsL2Norm(norm) && AnswersNonZero(provider)
    modifies fs
    ensures fs.Valid()
    ensures repoPath !in dirs ==> r == Success(PathMissing(repoPath)) && fs.files == old(fs.files)
    ensures repoPath in dirs && RelativeToRepos(repoPath).Failure? ==>
      r == Failure(RelativeToRepos(repoPath).error) && fs.files == old(fs.files)
    ensures repoPath in dirs && RelativeToRepos(repoPath).Success? ==>
      var rel := RelativeToRepos(repoPath).value;
      var kept := Indexable(entries);
      var pickle := IndexFile(rel);
      && (kept == [] ==> r == Success(NoFilesToIndex(rel)) && fs.files == old(fs.files))
      && (kept != [] ==>
            var e := EmbedAll(Batches(Texts(kept), BatchSize), provider);
            && (e.Failure? ==> r == Failure(Embedding(e.error)) && fs.files == old(fs.files))
            && (e.Success? ==>
                  var n := Min(|e.value|, |kept|);
                  && r == Success(Indexed(|kept|, rel))
                  && (forall v :: v in e.value ==> NonZero(v))
                  && (n == 0 ==> fs.files == old(fs.files))
                  && (n > 0 ==> fs.files == old(fs.files)[pickle :=
                        Stored(Opened(old(fs.files), Some(pickle)), e.value[..n], Records(kept, rel)[..n], norm)])))
  {
    if repoPath !in dirs {
      return Success(PathMissing(repoPath));
    }
    var relative := RelativeToRepos(repoPath);
    if relative.Failure? {
      return Failure(relative.error);
    }
    var rel := relative.value;
    var pickle := IndexFile(rel);
    var store := new InMemoryVectorStore(fs, Some(pickle));
    var contents, metas, count := ScanFiles(entries, rel);
    if contents == [] {
      return Success(NoFilesToIndex(rel));
    }
    var embedded;
    ghost var progress;
    embedded, progress := GetBatchEmbeddings(contents, BatchSize, provider);
    if embedded.Failure? {
      return Failure(Embedding(embedded.error));
    }
    var vs := embedded.value;
    EmbedAllNonZero(Batches(contents, BatchSize), provider);
    var n := Min(|vs|, |metas|);
    AddPairs(store, vs[..n], metas[..n], norm);
    return Success(Indexed(count, rel));
  }

  /** Whatever the service answers, indexing succeeds only if no indexed file
      is blank: one empty file makes `update_index` raise "Empty input". */
  lemma IndexingNeedsNoBlankFile(entries: seq<Entry>, provider: Provider)
    requires EmbedAll(Batches(Texts(Indexable(entries)), BatchSize), provider).Success?
    ensures forall e :: e in Indexable(entries) ==> !IsBlank(e.content.value)
  {
    var kept := Indexable(entries);
    BatchedNeedsNoBlank(Texts(kept), BatchSize, provider);
    forall e | e in kept ensures !IsBlank(e.content.value) {
      var j :| 0 <= j < |kept| && kept[j] == e;
      assert Texts(kept)[j] in Texts(kept);
    }
  }

  /** With a service that embeds each text on its own and no blank file, every
      indexed file is paired with the vector of its own text. */
  lemma IndexingPairsEveryFile(entries: seq<Entry>, provider: Provider, f: string -> Vector)
    requires Pointwise(provider, f)
    requires forall e :: e in Indexable(entries) ==> !IsBlank(e.content.value)
    ensures var kept := Indexable(entries);
      var e := EmbedAll(Batches(Texts(kept), BatchSize), provider);
      && e.Success? && |e.value| == |kept|
      && forall j :: 0 <= j < |kept| ==> e.value[j] == f(kept[j].content.value)
  {
    var kept := Indexable(entries);
    var texts := Texts(kept);
    assert NoneBlank(texts) by {
      forall t | t in texts ensures !IsBlank(t) {
        var j :| 0 <= j < |texts| && texts[j] == t;
        assert kept[j] in kept;
      }
    }
    EmbedAllPointwise(texts, BatchSize, provider, f);
  }
}
