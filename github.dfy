/** Recognising GitHub repository URLs and planning the clone.

    The recogniser is the pair of regular expressions
    `https://github\.com/([^/]+)/([^/]+?)(?:\.git)?/?$` and its `git@github.com:`
    twin, applied with `re.match`, written out by hand: an owner that runs to
    the first slash, then the shortest repository name after which only an
    optional `.git`, an optional `/` and the end of the text (or a final
    newline, which `$` also accepts) remain. */
module Github {
  import opened Base
  import opened Paths

  const HttpsPrefix := "https://github.com/"
  const SshPrefix := "git@github.com:"

  predicate IsGithubPrefix(p: string) {
    p == HttpsPrefix || p == SshPrefix
  }

  /** Why a clone fails: the two `ValueError`s, and `git` exiting with an
      error (`CalledProcessError`). */
  datatype GithubError = InvalidUrl | AlreadyExists(path: string) | GitFailed

  /** What may follow the repository name: `(?:\.git)?/?$`. */
  predicate IsTail(t: string) {
    t == "" || t == "\n" || t == "/" || t == "/\n"
    || t == ".git" || t == ".git\n" || t == ".git/" || t == ".git/\n"
  }

  /** `s.find('/')`, if there is a slash. */
  function FirstSlash(s: string): (r: Option<nat>)
    ensures r.Some? ==> r.value < |s| && s[r.value] == '/' && NoSlash(s[..r.value])
    ensures r.None? ==> NoSlash(s)
    decreases |s|
  {
    if s == [] then None
    else if s[0] == '/' then Some(0)
    else
      match FirstSlash(s[1..])
      case None => None
      case Some(i) =>
        assert s[..i + 1] == [s[0]] + s[1..][..i];
        Some(i + 1)
  }

  /** `rest[..m]` can be the repository group: it is not empty, has no slash,
      and what is left after it is an acceptable tail. */
  predicate RepoSplit(rest: string, m: nat) {
    1 <= m <= |rest| && NoSlash(rest[..m]) && IsTail(rest[m..])
  }

  /** The lazy group `([^/]+?)` trying lengths `n`, `n + 1`, ...: the least
      length from `n` on that splits `rest`, if there is one. */
  function RepoEnd(rest: string, n: nat): (r: Option<nat>)
    requires 1 <= n && n - 1 <= |rest| && NoSlash(rest[..n - 1])
    ensures r.Some? ==> n <= r.value && RepoSplit(rest, r.value)
    ensures r.Some? ==> forall m :: n <= m < r.value ==> !RepoSplit(rest, m)
    ensures r.None? ==> forall m :: n <= m <= |rest| ==> !RepoSplit(rest, m)
    decreases |rest| - n
  {
    if n > |rest| || rest[n - 1] == '/' then
      None
    else
      assert rest[..n] == rest[..n - 1] + [rest[n - 1]];
      if IsTail(rest[n..]) then Some(n) else RepoEnd(rest, n + 1)
  }

  /** One of the two patterns, anchored at the start of `url`. */
  function MatchAfter(url: string, prefix: string): Option<(string, string)> {
    if !(prefix <= url) then None
    else
      var rest := url[|prefix|..];
      match FirstSlash(rest)
      case None => None
      case Some(i) =>
        if i == 0 then None
        else
          var after := rest[i + 1..];
          match RepoEnd(after, 1)
          case None => None
          case Some(m) => Some((rest[..i], after[..m]))
  }

  /** `_validate_github_url`: `(owner, repo)` from the first pattern that
      matches, or `InvalidUrl`. */
  function ValidateGithubUrl(url: string): Result<(string, string), GithubError> {
    match MatchAfter(url, HttpsPrefix)
    case Some(groups) => Success(groups)
    case None =>
      match MatchAfter(url, SshPrefix)
      case Some(groups) => Success(groups)
      case None => Failure(InvalidUrl)
  }

  /** No shorter repository name would leave an acceptable tail. */
  predicate Shortest(repo: string, tail: string) {
    forall m :: 1 <= m < |repo| ==> !IsTail(repo[m..] + tail)
  }

  /** After `prefix`, `url` holds an owner, a slash, the repository name and a
      tail, as the patterns read them. */
  predicate Splits(url: string, prefix: string, owner: string, repo: string, tail: string) {
    && url == prefix + owner + "/" + repo + tail
    && owner != "" && NoSlash(owner)
    && repo != "" && NoSlash(repo)
    && IsTail(tail) && Shortest(repo, tail)
  }

  /** ... after one of the two GitHub prefixes. */
  predicate Spells(url: string, prefix: string, owner: string, repo: string, tail: string) {
    IsGithubPrefix(prefix) && Splits(url, prefix, owner, repo, tail)
  }

  lemma SlashFreePrefix(s: string, m: nat, k: nat)
    requires k <= m <= |s| && NoSlash(s[..m])
    ensures NoSlash(s[..k])
  {
    assert forall j :: 0 <= j < k ==> s[..k][j] == s[..m][j];
  }

  lemma JoinParts(url: string, prefix: string, owner: string, after: string, repo: string, tail: string)
    requires prefix <= url && url[|prefix|..] == owner + "/" + after && after == repo + tail
    ensures url == prefix + owner + "/" + repo + tail
  {
    assert url == prefix + url[|prefix|..];
  }

  /** The least split of `after` leaves a shortest name. */
  lemma LeastSplitIsShortest(after: string, m: nat)
    requires RepoSplit(after, m) && forall k :: 1 <= k < m ==> !RepoSplit(after, k)
    ensures Shortest(after[..m], after[m..])
  {
    var repo, tail := after[..m], after[m..];
    forall k | 1 <= k < |repo| ensures !IsTail(repo[k..] + tail) {
      SlashFreePrefix(after, m, k);
      assert !RepoSplit(after, k);
      assert after[k..] == repo[k..] + tail;
    }
  }

  /** What a successful match reports: the URL spells out the owner and the
      repository it returns. */
  lemma MatchAfterSound(url: string, prefix: string)
    requires MatchAfter(url, prefix).Some?
    ensures var groups := MatchAfter(url, prefix).value;
      Splits(url, prefix, groups.0, groups.1, url[|prefix| + |groups.0| + 1 + |groups.1|..])
  {
    var rest := url[|prefix|..];
    var i := FirstSlash(rest).value;
    var after := rest[i + 1..];
    var m := RepoEnd(after, 1).value;
    var owner, repo, tail := rest[..i], after[..m], after[m..];
    assert rest == owner + "/" + after;
    assert after == repo + tail;
    JoinParts(url, prefix, owner, after, repo, tail);
    LeastSplitIsShortest(after, m);
    assert url[|prefix| + |owner| + 1 + |repo|..] == tail;
  }

  /** The first slash of `owner + "/" + s` follows the owner when the owner has none. */
  lemma FirstSlashAfterOwner(owner: string, s: string)
    requires NoSlash(owner)
    ensures FirstSlash(owner + "/" + s) == Some(|owner|)
  {
    var rest := owner + "/" + s;
    var i := FirstSlash(rest);
    assert rest[|owner|] == '/';
    assert forall k :: 0 <= k < |owner| ==> rest[k] == owner[k];
  }

  /** The lazy name stops exactly at a shortest name. */
  lemma RepoEndAtShortest(repo: string, tail: string)
    requires repo != "" && NoSlash(repo) && IsTail(tail) && Shortest(repo, tail)
    ensures RepoEnd(repo + tail, 1) == Some(|repo|)
  {
    var after := repo + tail;
    assert after[..|repo|] == repo && after[|repo|..] == tail;
    assert RepoSplit(after, |repo|);
    assert forall k :: 1 <= k < |repo| ==> after[k..] == repo[k..] + tail;
  }

  /** A URL that splits so matches, with exactly that owner and name. */
  lemma MatchAfterComplete(url: string, prefix: string, owner: string, repo: string, tail: string)
    requires Splits(url, prefix, owner, repo, tail)
    ensures MatchAfter(url, prefix) == Some((owner, repo))
  {
    var rest := url[|prefix|..];
    assert rest == owner + "/" + (repo + tail);
    FirstSlashAfterOwner(owner, repo + tail);
    assert rest[..|owner|] == owner;
    assert rest[|owner| + 1..] == repo + tail;
    RepoEndAtShortest(repo, tail);
    assert (repo + tail)[..|repo|] == repo;
  }

  /** The two prefixes exclude each other. */
  lemma PrefixesDiffer(url: string)
    ensures !(HttpsPrefix <= url && SshPrefix <= url)
  {
    if HttpsPrefix <= url {
      assert url[0] == 'h';
    }
  }

  /** Every accepted URL spells out the owner and repository returned: one of
      the two prefixes, a non-empty owner and name without slashes, the
      shortest such name, and an optional `.git`, `/` and newline. */
  lemma ValidateSound(url: string) returns (prefix: string, tail: string)
    requires ValidateGithubUrl(url).Success?
    ensures var (owner, repo) := ValidateGithubUrl(url).value;
      Spells(url, prefix, owner, repo, tail)
  {
    if MatchAfter(url, HttpsPrefix).Some? {
      prefix := HttpsPrefix;
    } else {
      prefix := SshPrefix;
    }
    MatchAfterSound(url, prefix);
    var (owner, repo) := MatchAfter(url, prefix).value;
    tail := url[|prefix| + |owner| + 1 + |repo|..];
  }

  /** ... and every URL of that shape is accepted with exactly those parts, so
      the two lemmas together pin the recogniser down. */
  lemma ValidateComplete(url: string, prefix: string, owner: string, repo: string, tail: string)
    requires Spells(url, prefix, owner, repo, tail)
    ensures ValidateGithubUrl(url) == Success((owner, repo))
  {
    MatchAfterComplete(url, prefix, owner, repo, tail);
    if prefix == SshPrefix {
      PrefixesDiffer(url);
    }
  }

  /** Names without dots or newlines round-trip through every accepted form:
      plain, with `.git`, with a trailing slash, over https or ssh. */
  lemma ValidatePlainNames(prefix: string, owner: string, repo: string, tail: string)
    requires IsGithubPrefix(prefix) && IsTail(tail)
    requires owner != "" && NoSlash(owner) && repo != "" && NoSlash(repo)
    requires forall k :: 0 <= k < |repo| ==> repo[k] != '.' && repo[k] != '\n'
    ensures ValidateGithubUrl(prefix + owner + "/" + repo + tail) == Success((owner, repo))
  {
    forall m | 1 <= m < |repo| ensures !IsTail(repo[m..] + tail) {
      assert (repo[m..] + tail)[0] == repo[m];
    }
    ValidateComplete(prefix + owner + "/" + repo + tail, prefix, owner, repo, tail);
  }

  /** The lazy name stops before `.git`: `<prefix>owner/repo.git` names `repo`. */
  lemma DotGitIsNotPartOfTheName(prefix: string)
    requires IsGithubPrefix(prefix)
    ensures ValidateGithubUrl(prefix + "owner" + "/" + "repo" + ".git") == Success(("owner", "repo"))
  {
    var owner, repo := "owner", "repo";
    assert NoSlash(owner) && NoSlash(repo) && IsTail(".git");
    assert forall k :: 0 <= k < |repo| ==> repo[k] != '.' && repo[k] != '\n';
    ValidatePlainNames(prefix, owner, repo, ".git");
  }

  /** A URL that starts with neither prefix is rejected. */
  lemma RejectsOtherUrls(url: string)
    requires !(HttpsPrefix <= url) && !(SshPrefix <= url)
    ensures ValidateGithubUrl(url) == Failure(InvalidUrl)
  {}

  /** `Path("github_repos")`. */
  const ReposDir := PosixPath("", ["github_repos"])

  /** `Path("github_repos") / owner / repo`, as text. */
  function RepoDir(owner: string, repo: string): string {
    PathText(JoinPath(JoinPath(ReposDir, owner), repo))
  }

  /** For slash-free names, as an accepted URL holds, the directory is
      `github_repos` followed by the names pathlib keeps: a `.` is dropped. */
  lemma RepoDirOfNames(owner: string, repo: string)
    requires NoSlash(owner) && NoSlash(repo)
    ensures RepoDir(owner, repo) == PathText(PosixPath("", ["github_repos"] + KeptName(owner) + KeptName(repo)))
    ensures PlainPart(owner) && PlainPart(repo) ==> RepoDir(owner, repo) == "github_repos" + "/" + owner + "/" + repo
  {
    JoinName(ReposDir, owner);
    JoinName(JoinPath(ReposDir, owner), repo);
    if PlainPart(owner) && PlainPart(repo) {
      var parts := ["github_repos", owner, repo];
      assert ["github_repos"] + KeptName(owner) + KeptName(repo) == parts;
      JoinSlashAppend(["github_repos"], owner);
      JoinSlashAppend(["github_repos", owner], repo);
      assert ["github_repos", owner] + [repo] == parts;
    }
  }

  /** Different plain names give different target paths. (`..` is a plain
      name here: `a/..` and `b/..` are different paths for one directory.) */
  lemma RepoDirInjective(o1: string, r1: string, o2: string, r2: string)
    requires PlainPart(o1) && PlainPart(r1) && PlainPart(o2) && PlainPart(r2)
    requires RepoDir(o1, r1) == RepoDir(o2, r2)
    ensures o1 == o2 && r1 == r2
  {
    RepoDirParses(o1, r1);
    RepoDirParses(o2, r2);
  }

  /** Parsing the target path of plain names gives back `github_repos`, the
      owner and the name as its components. */
  lemma RepoDirParses(owner: string, repo: string)
    requires PlainPart(owner) && PlainPart(repo)
    ensures ParsePath(RepoDir(owner, repo)) == PosixPath("", ["github_repos", owner, repo])
  {
    var parts := ["github_repos", owner, repo];
    RepoDirOfNames(owner, repo);
    assert ["github_repos"] + KeptName(owner) + KeptName(repo) == parts;
    assert PlainPart("github_repos");
    assert forall k :: 0 <= k < |parts| ==> PlainPart(parts[k]);
    ParseText(parts);
  }

  /** A bare `.` is an accepted owner or name, and pathlib drops it: the
      repositories `a/.` and `./a` are cloned into the same directory. */
  lemma DotPartsShareADirectory()
    ensures ValidateGithubUrl(HttpsPrefix + "a/.") == Success(("a", "."))
    ensures ValidateGithubUrl(HttpsPrefix + "./a") == Success((".", "a"))
    ensures RepoDir("a", ".") == RepoDir(".", "a") == "github_repos" + "/" + "a"
  {
    DotNamesAccepted();
    RepoDirOfNames("a", ".");
    RepoDirOfNames(".", "a");
    assert KeptName("a") == ["a"] && KeptName(".") == [];
    assert ["github_repos"] + ["a"] + [] == ["github_repos"] + [] + ["a"] == ["github_repos"] + ["a"];
    JoinSlashAppend(["github_repos"], "a");
  }

  lemma DotNamesAccepted()
    ensures ValidateGithubUrl(HttpsPrefix + "a/.") == Success(("a", "."))
    ensures ValidateGithubUrl(HttpsPrefix + "./a") == Success((".", "a"))
  {
    assert HttpsPrefix + "a/." == HttpsPrefix + "a" + "/" + "." + "";
    ValidateComplete(HttpsPrefix + "a/.", HttpsPrefix, "a", ".", "");
    assert HttpsPrefix + "./a" == HttpsPrefix + "." + "/" + "a" + "";
    ValidateComplete(HttpsPrefix + "./a", HttpsPrefix, ".", "a", "");
  }

  /** `..` is an accepted owner, and pathlib keeps it: `https://github.com/../x`
      is cloned to `github_repos/../x`, a directory beside `github_repos`
      rather than inside it. */
  lemma DotDotOwnerLeavesTheReposDirectory()
    ensures ValidateGithubUrl(HttpsPrefix + "../x") == Success(("..", "x"))
    ensures RepoDir("..", "x") == "github_repos" + "/" + ".." + "/" + "x"
  {
    assert HttpsPrefix + "../x" == HttpsPrefix + ".." + "/" + "x" + "";
    ValidateComplete(HttpsPrefix + "../x", HttpsPrefix, "..", "x", "");
    RepoDirOfNames("..", "x");
    assert KeptName("..") == [".."] && KeptName("x") == ["x"];
    JoinSlashAppend(["github_repos"], "..");
    JoinSlashAppend(["github_repos", ".."], "x");
    assert ["github_repos"] + [".."] == ["github_repos", ".."];
  }

  /** The clone a request asks for: the target directory and the `git`
      command line. */
  datatype Clone = Clone(target: string, command: seq<string>)

  /** `-b branch` when a branch is given and not empty. */
  function BranchFlag(branch: Option<string>): seq<string> {
    if branch.Some? && branch.value != "" then ["-b", branch.value] else []
  }

  /** `_clone_github_repo` up to running `git`: validate the URL, refuse an
      existing target, and build the command. `existing` holds the paths that
      exist on disk. */
  method CloneGithubRepo(url: string, branch: Option<string>, existing: set<string>)
    returns (r: Result<Clone, GithubError>)
    ensures ValidateGithubUrl(url).Failure? ==> r == Failure(InvalidUrl)
    ensures ValidateGithubUrl(url).Success? ==>
      var (owner, repo) := ValidateGithubUrl(url).value;
      var target := RepoDir(owner, repo);
      && (target in existing ==> r == Failure(AlreadyExists(target)))
      && (target !in existing ==>
            r == Success(Clone(target, ["git", "clone"] + BranchFlag(branch) + [url, target])))
  {
    var v := ValidateGithubUrl(url);
    if v.Failure? {
      return Failure(v.error);
    }
    var (owner, repo) := v.value;
    var target := RepoDir(owner, repo);
    if target in existing {
      return Failure(AlreadyExists(target));
    }
    var cmd := ["git", "clone"];
    if branch.Some? && branch.value != "" {
      cmd := cmd + ["-b", branch.value];
    }
    assert cmd == ["git", "clone"] + BranchFlag(branch);
    cmd := cmd + [url, target];
    return Success(Clone(target, cmd));
  }

  /** The clone goes to `github_repos/<owner>/<repo>` for the parsed URL, the
      URL is passed to `git` unchanged as the next-to-last argument, and the
      branch appears exactly when one was given. */
  lemma CloneCommandShape(url: string, branch: Option<string>, target: string)
    ensures var cmd := ["git", "clone"] + BranchFlag(branch) + [url, target];
      && cmd[..2] == ["git", "clone"]
      && cmd[|cmd| - 2] == url && cmd[|cmd| - 1] == target
      && (|cmd| == 6 <==> branch.Some? && branch.value != "")
      && (|cmd| == 6 ==> cmd[2] == "-b" && cmd[3] == branch.value)
      && (|cmd| != 6 ==> |cmd| == 4)
  {}
}
