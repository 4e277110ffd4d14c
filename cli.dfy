/** The `search` command of the command-line interface: the argument guard,
    the choice of index files, the file-path filter and the semantic search,
    and the exit status. Console text is not modelled; each printed block is a
    `Section` that records what it reports. */
module Cli {
  import opened Base
  import opened Vectors
  import opened VectorStore
  import opened Embeddings
  import opened Paths
  import opened Server

  /** The status `sys.exit(2)` ends the command with. */
  const Usage := 2

  /** One block of output, for the index whose file stem is `index`. */
  datatype Section =
    | FileMatches(index: string, records: seq<Meta>)
    | NoMatchingFiles(index: string)
    | Semantic(index: string, hits: seq<Hit>)
    | NoSemanticMatches(index: string)

  /** The blocks printed and the exit status. */
  datatype Outcome = Outcome(sections: seq<Section>, status: int)

  function Prepend(printed: seq<Section>, o: Outcome): Outcome {
    Outcome(printed + o.sections, o.status)
  }

  /** Python's `needle in hay` on strings. */
  predicate Contains(hay: string, needle: string)
    decreases |hay|
  {
    needle <= hay || (hay != [] && Contains(hay[1..], needle))
  }

  /** `needle` occurs in `hay` starting at position `i`. */
  predicate OccursAt(hay: string, needle: string, i: int) {
    0 <= i <= |hay| - |needle| && hay[i..i + |needle|] == needle
  }

  /** `in` finds `needle` at some position of `hay`. */
  lemma {:induction false} ContainsIff(hay: string, needle: string)
    ensures Contains(hay, needle) <==> exists i :: OccursAt(hay, needle, i)
    decreases |hay|
  {
    if needle <= hay {
      assert OccursAt(hay, needle, 0);
    } else if hay != [] {
      var tail := hay[1..];
      ContainsIff(tail, needle);
      if Contains(tail, needle) {
        var i :| OccursAt(tail, needle, i);
        assert hay[i + 1..i + 1 + |needle|] == tail[i..i + |needle|];
        assert OccursAt(hay, needle, i + 1);
      }
      if exists i :: OccursAt(hay, needle, i) {
        var i :| OccursAt(hay, needle, i);
        assert i != 0;
        assert tail[i - 1..i - 1 + |needle|] == hay[i..i + |needle|];
        assert OccursAt(tail, needle, i - 1);
      }
    }
  }

  /** The file-mode test: the query, lowercased, occurs in the lowercased path. */
  predicate PathMatches(m: Meta, query: string)
    requires "file" in m
  {
    Contains(Lower(m["file"]), Lower(query))
  }

  /** The file-mode loop over a store's records: the ones whose path matches,
      in store order, or `None` when some record has no `file` field (the
      `KeyError` ends the command). */
  function FileFilter(ms: seq<Meta>, query: string): (r: Option<seq<Meta>>)
    ensures r.Some? <==> forall m :: m in ms ==> "file" in m
    ensures r.Some? ==> forall m :: m in r.value ==> m in ms && "file" in m && PathMatches(m, query)
    decreases |ms|
  {
    if ms == [] then Some([])
    else
      var init := FileFilter(ms[..|ms| - 1], query);
      var m := ms[|ms| - 1];
      assert ms == ms[..|ms| - 1] + [m];
      if init.None? || "file" !in m then None
      else if PathMatches(m, query) then Some(init.value + [m])
      else init
  }

  /** Every matching record is kept. */
  lemma {:induction false} FileFilterComplete(ms: seq<Meta>, query: string)
    requires FileFilter(ms, query).Some?
    ensures forall m :: m in ms && PathMatches(m, query) ==> m in FileFilter(ms, query).value
    decreases |ms|
  {
    if ms != [] {
      var init := ms[..|ms| - 1];
      FileFilterComplete(init, query);
      assert ms == init + [ms[|ms| - 1]];
    }
  }

  /** One record on its own: kept once when its path matches, dropped otherwise. */
  lemma FileFilterOne(m: Meta, query: string)
    requires "file" in m
    ensures FileFilter([m], query) == Some(if PathMatches(m, query) then [m] else [])
  {
    var none: seq<Meta> := [];
    assert [m][..0] == none && none + [m] == [m];
    assert FileFilter([m][..0], query) == Some(none);
  }

  /** The filter works record by record: the matches of two runs of records
      are the first run's matches followed by the second's. With
      `FileFilterOne`, the matches keep store order and occur as often as in
      the store. */
  lemma {:induction false} FileFilterAppend(a: seq<Meta>, b: seq<Meta>, query: string)
    requires FileFilter(a + b, query).Some?
    ensures FileFilter(a, query).Some? && FileFilter(b, query).Some?
    ensures FileFilter(a + b, query).value == FileFilter(a, query).value + FileFilter(b, query).value
    decreases |b|
  {
    if b == [] {
      assert a + b == a;
    } else {
      var init, m := b[..|b| - 1], b[|b| - 1];
      assert (a + b)[..|a + b| - 1] == a + init;
      assert (a + b)[|a + b| - 1] == m;
      assert FileFilter(a + init, query).Some? by {
        assert forall r :: r in a + init ==> r in a + b;
      }
      FileFilterAppend(a, init, query);
    }
  }

  /** The filter loop, as the command runs it. */
  method FindFiles(ms: seq<Meta>, query: string) returns (r: Option<seq<Meta>>)
    ensures r == FileFilter(ms, query)
  {
    var q := Lower(query);
    var matches: seq<Meta> := [];
    var j := 0;
    while j < |ms|
      invariant 0 <= j <= |ms|
      invariant FileFilter(ms[..j], query) == Some(matches)
    {
      assert ms[..j + 1][..j] == ms[..j];
      var m := ms[j];
      if "file" !in m {
        assert forall k :: 0 <= k < j ==> "file" in ms[k] by {
          assert forall k :: 0 <= k < j ==> ms[k] in ms[..j];
        }
        assert FileFilter(ms[..j + 1], query).None?;
        FilterStaysNone(ms, query, j + 1);
        return None;
      }
      if Contains(Lower(m["file"]), q) {
        matches := matches + [m];
      }
      j := j + 1;
    }
    assert ms[..|ms|] == ms;
    return Some(matches);
  }

  /** Once a record without a path is met, the whole filter fails. */
  lemma FilterStaysNone(ms: seq<Meta>, query: string, j: nat)
    requires j <= |ms| && FileFilter(ms[..j], query).None?
    ensures FileFilter(ms, query).None?
  {
    var bad :| bad in ms[..j] && "file" !in bad;
    assert bad in ms;
  }

  /** What searching one index does: print a block and go on, print a block
      and end the command, or raise. */
  datatype Step = Continue(section: Section) | Stop(section: Section) | Fail

  /** File mode on one store: the first `num_results` matches, or "No
      matching files found." and on to the next index. */
  function FileStep(s: Snapshot, name: string, query: string, n: int): Step {
    match FileFilter(s.metadata, query)
    case None => Fail
    case Some(matches) =>
      if matches == [] then Continue(NoMatchingFiles(name))
      else
        var shown := Head(matches, n);
        if forall m :: m in shown ==> Printable(m) then Continue(FileMatches(name, shown)) else Fail
  }

  /** Semantic mode on one store, given the answer `e` to the query's
      embedding request: search with `top_k=num_results`; an empty result
      prints "No matches found." and ends the whole command, and a search that
      raises (a stored vector of another dimension) exits with status 2. */
  function SemanticStep(s: Snapshot, name: string, e: Result<Output, Error>, n: int, norm: NormFn): Step
    requires WellFormed(s)
    requires e.Success? ==> e.value.One? && IsL2Norm(norm) && NonZero(e.value.vector)
  {
    if e.Failure? then Fail
    else
      match TrySearch(s, e.value.vector, norm, n)
      case None => Fail
      case Some(hits) =>
        if hits == [] then Stop(NoSemanticMatches(name))
        else if forall h :: h in hits ==> Printable(h.0) then Continue(Semantic(name, hits))
        else Fail
  }

  /** What the loop needs: well-formed stores and, in semantic mode, a
      non-zero query vector. The embedding service answers the same query the
      same way, so one answer `e` stands for every request. */
  ghost predicate Ready(files: map<string, Snapshot>, e: Result<Output, Error>, fileMode: bool, norm: NormFn) {
    && (forall p :: p in files ==> WellFormed(files[p]))
    && (!fileMode && e.Success? ==> e.value.One? && IsL2Norm(norm) && NonZero(e.value.vector))
  }

  /** The command's own requirement on the disk and the service. */
  ghost predicate QueryReady(files: map<string, Snapshot>, query: string, fileMode: bool, provider: Provider, norm: NormFn) {
    && (forall p :: p in files ==> WellFormed(files[p]))
    && (!fileMode ==> QueryUsable(query, provider, norm))
  }

  /** Searching the index file at `path`. */
  function StepAt(files: map<string, Snapshot>, path: string, query: string, e: Result<Output, Error>, n: int,
                  fileMode: bool, norm: NormFn): Step
    requires Ready(files, e, fileMode, norm)
  {
    var s := Opened(files, Some(path));
    OpenedWellFormed(files, Some(path));
    if fileMode then FileStep(s, Stem(path), query, n)
    else SemanticStep(s, Stem(path), e, n, norm)
  }

  /** What each index file would give, in order. */
  function Steps(files: map<string, Snapshot>, paths: seq<string>, query: string, e: Result<Output, Error>, n: int,
                 fileMode: bool, norm: NormFn): (r: seq<Step>)
    requires Ready(files, e, fileMode, norm)
    ensures |r| == |paths|
    ensures forall j :: 0 <= j < |paths| ==> r[j] == StepAt(files, paths[j], query, e, n, fileMode, norm)
  {
    seq(|paths|, j requires 0 <= j < |paths| => StepAt(files, paths[j], query, e, n, fileMode, norm))
  }

  /** The loop over the index files from the `i`-th on: a block per index
      until one ends the command or raises. */
  function Run(steps: seq<Step>, i: nat): Outcome
    requires i <= |steps|
    decreases |steps| - i
  {
    if i == |steps| then Outcome([], 0)
    else
      match steps[i]
      case Continue(section) => Prepend([section], Run(steps, i + 1))
      case Stop(section) => Outcome([section], 0)
      case Fail => Outcome([], Usage)
  }

  /** The whole command: the guard on `--num-results`, the check that some
      index exists, the named repository's index, then the loop. */
  function SearchOutcome(files: map<string, Snapshot>, listing: seq<string>, query: string, n: int, fileMode: bool,
                         repository: Option<string>, provider: Provider, norm: NormFn): Outcome
    requires QueryReady(files, query, fileMode, provider, norm)
  {
    if n < 1 then Outcome([], Usage)
    else if listing == [] then Outcome([], Usage)
    else if Truthy(repository) && IndexFile(repository.value) !in files then Outcome([], Usage)
    else
      var e := GetEmbedding(Single(query), provider);
      Run(Steps(files, Targets(listing, repository), query, e, n, fileMode, norm), 0)
  }

  /** `search`: `listing` holds the `.pkl` files found at any depth under `indices`. */
  method SearchCommand(fs: FileSystem, listing: seq<string>, query: string, numResults: int, fileMode: bool,
                       repository: Option<string>, provider: Provider, norm: NormFn)
    returns (out: Outcome)
    requires fs.Valid() && (!fileMode ==> QueryUsable(query, provider, norm))
    ensures out == SearchOutcome(fs.files, listing, query, numResults, fileMode, repository, provider, norm)
  {
    if numResults < 1 {
      return Outcome([], Usage);
    }
    if listing == [] {
      return Outcome([], Usage);
    }
    var paths := listing;
    if Truthy(repository) {
      var file := IndexFile(repository.value);
      if file !in fs.files {
        return Outcome([], Usage);
      }
      paths := [file];
    }
    ghost var e := GetEmbedding(Single(query), provider);
    out := SearchEach(fs, paths, query, numResults, fileMode, provider, norm, e, Steps(fs.files, paths, query, e, numResults, fileMode, norm));
  }

  /** The loop of `_search_code` over the chosen index files; `e` is the
      service's answer for the query and `steps` what each file gives. */
  method SearchEach(fs: FileSystem, paths: seq<string>, query: string, n: int, fileMode: bool,
                    provider: Provider, norm: NormFn, ghost e: Result<Output, Error>, ghost steps: seq<Step>)
    returns (out: Outcome)
    requires fs.Valid() && Ready(fs.files, e, fileMode, norm) && e == GetEmbedding(Single(query), provider)
    requires |steps| == |paths|
    requires forall j {:trigger StepAt(fs.files, paths[j], query, e, n, fileMode, norm)} :: 0 <= j < |paths| ==>
      steps[j] == StepAt(fs.files, paths[j], query, e, n, fileMode, norm)
    ensures out == Run(steps, 0)
  {
    var printed: seq<Section> := [];
    var i := 0;
    while i < |paths|
      invariant 0 <= i <= |paths|
      invariant Run(steps, 0) == Prepend(printed, Run(steps, i))
    {
      var step := SearchPath(fs, paths, i, query, n, fileMode, provider, norm, e, steps);
      RunPrinted(steps, i, printed);
      match step
      case Fail =>
        return Outcome(printed, Usage);
      case Stop(section) =>
        return Outcome(printed + [section], 0);
      case Continue(section) =>
        printed := printed + [section];
      i := i + 1;
    }
    return Outcome(printed, 0);
  }

  /** One more step of the loop, after `printed` was printed. */
  lemma RunPrinted(steps: seq<Step>, i: nat, printed: seq<Section>)
    requires i < |steps| && Run(steps, 0) == Prepend(printed, Run(steps, i))
    ensures steps[i].Continue? ==> Run(steps, 0) == Prepend(printed + [steps[i].section], Run(steps, i + 1))
    ensures steps[i].Stop? ==> Run(steps, 0) == Outcome(printed + [steps[i].section], 0)
    ensures steps[i].Fail? ==> Run(steps, 0) == Outcome(printed, Usage)
  {
    if steps[i].Continue? {
      var rest := Run(steps, i + 1);
      assert printed + ([steps[i].section] + rest.sections) == (printed + [steps[i].section]) + rest.sections;
    }
  }

  /** One turn of the loop: open the store saved at `path` and search it. */
  method SearchPath(fs: FileSystem, paths: seq<string>, i: nat, query: string, n: int, fileMode: bool,
                    provider: Provider, norm: NormFn, ghost e: Result<Output, Error>, ghost steps: seq<Step>)
    returns (step: Step)
    requires fs.Valid() && Ready(fs.files, e, fileMode, norm) && e == GetEmbedding(Single(query), provider)
    requires i < |paths| == |steps|
    requires forall j {:trigger StepAt(fs.files, paths[j], query, e, n, fileMode, norm)} :: 0 <= j < |paths| ==>
      steps[j] == StepAt(fs.files, paths[j], query, e, n, fileMode, norm)
    ensures step == steps[i]
  {
    var store := new InMemoryVectorStore(fs, Some(paths[i]));
    step := SearchIndex(store, Stem(paths[i]), query, n, fileMode, provider, norm, e);
  }

  /** The body of the loop over index files, for one opened store. */
  method SearchIndex(store: InMemoryVectorStore, name: string, query: string, n: int, fileMode: bool,
                     provider: Provider, norm: NormFn, ghost e: Result<Output, Error>)
    returns (step: Step)
    requires store.Valid() && store.picklePath.Some?
    requires Ready(store.fs.files, e, fileMode, norm) && e == GetEmbedding(Single(query), provider)
    requires name == Stem(store.picklePath.value)
    requires store.Contents() == Opened(store.fs.files, store.picklePath)
    ensures step == StepAt(store.fs.files, store.picklePath.value, query, e, n, fileMode, norm)
  {
    if fileMode {
      var found := FindFiles(store.metadata, query);
      if found.None? {
        return Fail;
      }
      var matches := found.value;
      if matches == [] {
        return Continue(NoMatchingFiles(name));
      }
      var shown := Head(matches, n);
      if forall m :: m in shown ==> Printable(m) {
        return Continue(FileMatches(name, shown));
      }
      return Fail;
    }
    var answer := GetEmbedding(Single(query), provider);
    if answer.Failure? {
      return Fail;
    }
    var found := TrySearch(store.Contents(), answer.value.vector, norm, n);
    if found.None? {
      return Fail;
    }
    var hits := found.value;
    if hits == [] {
      return Stop(NoSemanticMatches(name));
    }
    if forall h :: h in hits ==> Printable(h.0) {
      return Continue(Semantic(name, hits));
    }
    return Fail;
  }

  // ------------------------------------------------------------------ properties

  /** `--num-results` below one ends the command with status 2 before any
      index is read. */
  lemma NonPositiveCountExits(files: map<string, Snapshot>, listing: seq<string>, query: string, n: int,
                              fileMode: bool, repository: Option<string>, provider: Provider, norm: NormFn)
    requires QueryReady(files, query, fileMode, provider, norm) && n < 1
    ensures SearchOutcome(files, listing, query, n, fileMode, repository, provider, norm) == Outcome([], Usage)
  {}

  /** No index at all ends the command with status 2, even when a repository
      is named. */
  lemma NoIndexExits(files: map<string, Snapshot>, query: string, n: int,
                     fileMode: bool, repository: Option<string>, provider: Provider, norm: NormFn)
    requires QueryReady(files, query, fileMode, provider, norm)
    ensures SearchOutcome(files, [], query, n, fileMode, repository, provider, norm) == Outcome([], Usage)
  {}

  /** A named repository without an index file ends the command with status 2. */
  lemma MissingRepositoryExits(files: map<string, Snapshot>, listing: seq<string>, query: string, n: int,
                               fileMode: bool, repository: string, provider: Provider, norm: NormFn)
    requires QueryReady(files, query, fileMode, provider, norm)
    requires repository != "" && IndexFile(repository) !in files
    ensures SearchOutcome(files, listing, query, n, fileMode, Some(repository), provider, norm) == Outcome([], Usage)
  {}

  /** The file-mode block of an index shows its first `num_results` matches,
      in store order, each of which contains the query, ignoring case. */
  lemma FileMatchesAreFirst(s: Snapshot, name: string, query: string, n: int, records: seq<Meta>)
    requires n >= 1
    requires FileStep(s, name, query, n) == Continue(FileMatches(name, records))
    ensures var all := FileFilter(s.metadata, query).value;
      && records == all[..Min(n, |all|)]
      && 1 <= |records| <= n
      && forall m :: m in records ==> m in s.metadata && PathMatches(m, query)
  {
    var all := FileFilter(s.metadata, query).value;
    assert forall m :: m in records ==> m in all;
  }

  /** Without an index that ends the command, a run that ends with status 0
      printed every index's block, in order. */
  lemma {:induction false} RunWithoutStop(steps: seq<Step>, i: nat)
    requires i <= |steps| && forall j :: i <= j < |steps| ==> !steps[j].Stop?
    ensures var o := Run(steps, i);
      o.status == 0 ==>
        && |o.sections| == |steps| - i
        && forall j :: 0 <= j < |o.sections| ==> steps[i..][j].Continue? && o.sections[j] == steps[i..][j].section
    decreases |steps| - i
  {
    if i < |steps| && steps[i].Continue? {
      RunWithoutStop(steps, i + 1);
      var rest := Run(steps, i + 1);
      var o := Run(steps, i);
      assert o.sections == [steps[i].section] + rest.sections;
      assert forall j :: 0 < j < |steps| - i ==> steps[i..][j] == steps[i + 1..][j - 1];
    }
  }

  /** A file-mode step never ends the command, and its block names the index. */
  lemma FileStepNeverStops(s: Snapshot, name: string, query: string, n: int)
    ensures !FileStep(s, name, query, n).Stop?
    ensures FileStep(s, name, query, n).Continue? ==> FileStep(s, name, query, n).section.index == name
  {}

  /** In file mode the command never stops early: when it ends with status 0,
      it printed one block per index, in order, each named by its file's stem. */
  lemma FileModeCoversEvery(files: map<string, Snapshot>, paths: seq<string>,
                            query: string, e: Result<Output, Error>, n: int, norm: NormFn)
    requires Ready(files, e, true, norm)
    ensures var o := Run(Steps(files, paths, query, e, n, true, norm), 0);
      o.status == 0 ==>
        && |o.sections| == |paths|
        && forall j :: 0 <= j < |paths| ==> o.sections[j].index == Stem(paths[j])
  {
    var steps := Steps(files, paths, query, e, n, true, norm);
    forall j | 0 <= j < |paths|
      ensures !steps[j].Stop? && (steps[j].Continue? ==> steps[j].section.index == Stem(paths[j]))
    {
      OpenedWellFormed(files, Some(paths[j]));
      FileStepNeverStops(Opened(files, Some(paths[j])), Stem(paths[j]), query, n);
    }
    RunWithoutStop(steps, 0);
    assert steps[0..] == steps;
  }

  /** Every block printed comes from a step, every one but the last from a
      step that went on, and the run ends with status 0 when its last block is
      from a step that ended the command. */
  lemma {:induction false} RunEndsAtStop(steps: seq<Step>, i: nat)
    requires i <= |steps|
    ensures var o := Run(steps, i);
      && |o.sections| <= |steps| - i
      && (forall j :: 0 <= j < |o.sections| ==>
            && !steps[i..][j].Fail? && o.sections[j] == steps[i..][j].section
            && (j < |o.sections| - 1 ==> steps[i..][j].Continue?))
      && (o.sections != [] && steps[i..][|o.sections| - 1].Stop? ==> o.status == 0)
    decreases |steps| - i
  {
    if i < |steps| && steps[i].Continue? {
      RunEndsAtStop(steps, i + 1);
      var rest := Run(steps, i + 1);
      var o := Run(steps, i);
      assert o.sections == [steps[i].section] + rest.sections;
      assert forall j :: 0 < j < |steps| - i ==> steps[i..][j] == steps[i + 1..][j - 1];
    }
  }

  /** A semantic step goes on only with matches, and ends the command only
      with "No matches found.". */
  lemma SemanticStepShape(files: map<string, Snapshot>, path: string, query: string,
                          e: Result<Output, Error>, n: int, norm: NormFn)
    requires Ready(files, e, false, norm)
    ensures var step := StepAt(files, path, query, e, n, false, norm);
      && (step.Continue? ==> step.section.Semantic? && step.section.hits != [])
      && (step.Stop? ==> step.section == NoSemanticMatches(Stem(path)))
  {
    var s := Opened(files, Some(path));
    OpenedWellFormed(files, Some(path));
    var step := SemanticStep(s, Stem(path), e, n, norm);
    assert StepAt(files, path, query, e, n, false, norm) == step;
  }

  /** In semantic mode every block but the last shows matches, and a "No
      matches found." block is always the last one printed, with status 0. */
  lemma SemanticStopsAtEmpty(files: map<string, Snapshot>, paths: seq<string>,
                             query: string, e: Result<Output, Error>, n: int, norm: NormFn)
    requires Ready(files, e, false, norm)
    ensures var o := Run(Steps(files, paths, query, e, n, false, norm), 0);
      && |o.sections| <= |paths|
      && (forall j :: 0 <= j < |o.sections| - 1 ==> o.sections[j].Semantic? && o.sections[j].hits != [])
      && (forall j :: 0 <= j < |o.sections| && o.sections[j].NoSemanticMatches? ==>
            j == |o.sections| - 1 && o.status == 0)
  {
    var steps := Steps(files, paths, query, e, n, false, norm);
    forall j | 0 <= j < |paths|
      ensures steps[j].Continue? ==> steps[j].section.Semantic? && steps[j].section.hits != []
      ensures steps[j].Stop? ==> steps[j].section.NoSemanticMatches?
    {
      SemanticStepShape(files, paths[j], query, e, n, norm);
    }
    RunOfSemanticSteps(steps);
  }

  lemma RunOfSemanticSteps(steps: seq<Step>)
    requires forall j :: 0 <= j < |steps| ==>
      && (steps[j].Continue? ==> steps[j].section.Semantic? && steps[j].section.hits != [])
      && (steps[j].Stop? ==> steps[j].section.NoSemanticMatches?)
    ensures var o := Run(steps, 0);
      && |o.sections| <= |steps|
      && (forall j :: 0 <= j < |o.sections| - 1 ==> o.sections[j].Semantic? && o.sections[j].hits != [])
      && (forall j :: 0 <= j < |o.sections| && o.sections[j].NoSemanticMatches? ==>
            j == |o.sections| - 1 && o.status == 0)
  {
    RunEndsAtStop(steps, 0);
    assert steps[0..] == steps;
  }

  /** An index with no entries ends a semantic search there: the indexes after
      it are never searched. */
  lemma EmptyIndexEndsSemanticSearch(files: map<string, Snapshot>, paths: seq<string>, i: nat,
                                     query: string, e: Result<Output, Error>, n: int, norm: NormFn)
    requires i < |paths| && Ready(files, e, false, norm) && e.Success?
    requires Opened(files, Some(paths[i])).embeddings == []
    ensures Run(Steps(files, paths, query, e, n, false, norm), i) == Outcome([NoSemanticMatches(Stem(paths[i]))], 0)
  {}

  /** An index holding a vector of another dimension than the query's makes
      the search raise there: status 2, with the blocks of the indexes before
      it printed and nothing after. */
  lemma MismatchedIndexExits(files: map<string, Snapshot>, paths: seq<string>, i: nat,
                             query: string, e: Result<Output, Error>, n: int, norm: NormFn)
    requires i < |paths| && Ready(files, e, false, norm) && e.Success?
    requires exists v :: v in Opened(files, Some(paths[i])).embeddings && |v| != |e.value.vector|
    ensures Run(Steps(files, paths, query, e, n, false, norm), i) == Outcome([], Usage)
  {
    OpenedWellFormed(files, Some(paths[i]));
  }

  /** A failing embedding request ends a semantic search with status 2 at the
      first index, whatever the indexes hold. */
  lemma EmbeddingFailureExits(files: map<string, Snapshot>, paths: seq<string>,
                              query: string, e: Result<Output, Error>, n: int, norm: NormFn)
    requires paths != [] && Ready(files, e, false, norm) && e.Failure?
    ensures Run(Steps(files, paths, query, e, n, false, norm), 0) == Outcome([], Usage)
  {}
}
