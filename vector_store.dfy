/** The in-memory vector store: parallel lists of unit-normalised embeddings and
    metadata records, brute-force cosine search, and whole-store snapshots on a
    file system shared by every store object. */
module VectorStore {
  import opened Base
  import opened Vectors
  import opened Ranking

  /** A metadata record: the source's dict with string keys such as
      `file`, `repo`, `code` and `language`. */
  type Meta = map<string, string>

  /** One search result: a metadata record and its similarity score. */
  type Hit = (Meta, real)

  /** The pickled pair `(embeddings, metadata)`. */
  datatype Snapshot = Snapshot(embeddings: seq<Vector>, metadata: seq<Meta>)

  const EmptySnapshot := Snapshot([], [])

  /** What the store keeps at rest: equally long parallel lists of unit vectors. */
  predicate WellFormed(s: Snapshot) {
    && |s.embeddings| == |s.metadata|
    && forall e :: e in s.embeddings ==> IsUnit(e)
  }

  /** Files on disk, by path. Only `save` writes a snapshot file, so every
      snapshot found there is well formed. */
  class FileSystem {
    var files: map<string, Snapshot>

    ghost predicate Valid()
      reads this
    {
      forall p :: p in files ==> WellFormed(files[p])
    }

    constructor (files: map<string, Snapshot>)
      requires forall p :: p in files ==> WellFormed(files[p])
      ensures Valid() && this.files == files
    {
      this.files := files;
    }
  }

  /** Python truthiness of `pickle_path`: given and not empty. */
  predicate Persists(path: Option<string>) {
    path.Some? && path.value != ""
  }

  /** The lists a store starts with: the snapshot saved at `path` when there is
      one, otherwise empty lists. */
  function Opened(files: map<string, Snapshot>, path: Option<string>): Snapshot {
    if Persists(path) && path.value in files then files[path.value] else EmptySnapshot
  }

  /** A file system whose snapshots are well formed opens well-formed stores. */
  lemma OpenedWellFormed(files: map<string, Snapshot>, path: Option<string>)
    requires forall p :: p in files ==> WellFormed(files[p])
    ensures WellFormed(Opened(files, path))
  {}

  class InMemoryVectorStore {
    var embeddings: seq<Vector>
    var metadata: seq<Meta>
    const picklePath: Option<string>
    const fs: FileSystem

    function Contents(): Snapshot
      reads this
    {
      Snapshot(embeddings, metadata)
    }

    ghost predicate Valid()
      reads this, fs
    {
      WellFormed(Contents()) && fs.Valid()
    }

    /** `__init__`: start empty, then load the snapshot if the path exists. */
    constructor (fs: FileSystem, picklePath: Option<string>)
      requires fs.Valid()
      ensures Valid() && this.fs == fs && this.picklePath == picklePath
      ensures Contents() == Opened(fs.files, picklePath)
      ensures fs.files == old(fs.files)
    {
      embeddings := [];
      metadata := [];
      this.picklePath := picklePath;
      this.fs := fs;
      new;
      if Persists(picklePath) && picklePath.value in fs.files {
        Load();
      }
    }

    /** `size`: the number of stored entries. */
    function Size(): (n: nat)
      reads this, fs
      requires Valid()
      ensures n == |embeddings| == |metadata|
    {
      |embeddings|
    }

    /** Appends the normalised vector and its record, then saves when a path is set. */
    method Add(embedding: Vector, norm: NormFn, meta: Meta)
      requires Valid() && IsL2Norm(norm) && NonZero(embedding)
      modifies this, fs
      ensures Valid()
      ensures norm(embedding) > 0.0 && IsUnit(Normalize(embedding, norm(embedding)))
      ensures embeddings == old(embeddings) + [Normalize(embedding, norm(embedding))]
      ensures metadata == old(metadata) + [meta]
      ensures Size() == old(|embeddings|) + 1
      ensures Persists(picklePath) ==> fs.files == old(fs.files)[picklePath.value := Contents()]
      ensures !Persists(picklePath) ==> fs.files == old(fs.files)
    {
      NormalizedIsUnit(embedding, norm);
      var normalized := Normalize(embedding, norm(embedding));
      embeddings := embeddings + [normalized];
      metadata := metadata + [meta];
      if Persists(picklePath) {
        Save();
      }
    }

    /** Writes the whole state to the snapshot path, when one is set. */
    method Save()
      requires Valid()
      modifies fs
      ensures Valid()
      ensures Persists(picklePath) ==> fs.files == old(fs.files)[picklePath.value := Contents()]
      ensures !Persists(picklePath) ==> fs.files == old(fs.files)
    {
      if Persists(picklePath) {
        fs.files := fs.files[picklePath.value := Contents()];
      }
    }

    /** Replaces both lists by the saved snapshot, when the path is set and exists. */
    method Load()
      requires fs.Valid()
      modifies this
      ensures fs.Valid()
      ensures Persists(picklePath) && picklePath.value in fs.files ==> Contents() == fs.files[picklePath.value]
      ensures !(Persists(picklePath) && picklePath.value in fs.files) ==> Contents() == old(Contents())
    {
      if Persists(picklePath) && picklePath.value in fs.files {
        var saved := fs.files[picklePath.value];
        embeddings, metadata := saved.embeddings, saved.metadata;
      }
    }

    /** Empties both lists and deletes the snapshot file. */
    method Clear()
      requires Valid()
      modifies this, fs
      ensures Valid()
      ensures Contents() == EmptySnapshot && Size() == 0
      ensures Persists(picklePath) ==> fs.files == old(fs.files) - {picklePath.value}
      ensures !Persists(picklePath) ==> fs.files == old(fs.files)
      ensures Opened(fs.files, picklePath) == EmptySnapshot
    {
      embeddings := [];
      metadata := [];
      if Persists(picklePath) && picklePath.value in fs.files {
        fs.files := fs.files - {picklePath.value};
      }
    }
  }

  /** Every stored vector has the query's dimension, so `numpy.dot` accepts them. */
  predicate Fits(s: Snapshot, query: Vector) {
    forall e :: e in s.embeddings ==> |e| == |query|
  }

  /** What `search` demands of its query when the store is not empty. */
  ghost predicate Searchable(s: Snapshot, query: Vector, norm: NormFn) {
    s.embeddings != [] ==> IsL2Norm(norm) && NonZero(query) && Fits(s, query)
  }

  /** The query divided by its norm. */
  function Unit(query: Vector, norm: NormFn): (u: Vector)
    requires IsL2Norm(norm) && NonZero(query)
    ensures |u| == |query| && IsUnit(u)
  {
    NormalizedIsUnit(query, norm);
    Normalize(query, norm(query))
  }

  /** `np.dot(embeddings_array, query)`: one score per stored vector. */
  function Scores(s: Snapshot, u: Vector): (r: seq<real>)
    requires Fits(s, u)
    ensures |r| == |s.embeddings|
  {
    seq(|s.embeddings|, i requires 0 <= i < |s.embeddings| => Dot(s.embeddings[i], u))
  }

  /** `search`: nothing from an empty store; otherwise the records of the
      `TopIndices` of the cosine scores, paired with their scores, best first. */
  function Search(s: Snapshot, query: Vector, norm: NormFn, topK: int): (r: seq<Hit>)
    requires WellFormed(s) && Searchable(s, query, norm)
    ensures s.embeddings == [] ==> r == []
    ensures |r| == TopCount(topK, |s.embeddings|)
    ensures s.embeddings != [] ==>
      var scores := Scores(s, Unit(query, norm));
      var ix := TopIndices(scores, topK);
      |r| == |ix| && forall j :: 0 <= j < |ix| ==> r[j] == (s.metadata[ix[j]], scores[ix[j]])
    ensures forall j :: 0 <= j < |r| - 1 ==> r[j].1 >= r[j + 1].1
  {
    if s.embeddings == [] then []
    else
      var scores := Scores(s, Unit(query, norm));
      var ix := TopIndices(scores, topK);
      TopIndicesAreTop(scores, topK);
      seq(|ix|, j requires 0 <= j < |ix| => (s.metadata[ix[j]], scores[ix[j]]))
  }

  /** `search` with numpy's own check on the dimensions: `None` stands for the
      ValueError that `np.dot` (or `np.array`, on rows of unequal length)
      raises when a stored vector's dimension differs from the query's. An
      empty store returns before numpy is reached. */
  function TrySearch(s: Snapshot, query: Vector, norm: NormFn, topK: int): (r: Option<seq<Hit>>)
    requires WellFormed(s) && (s.embeddings != [] ==> IsL2Norm(norm) && NonZero(query))
    ensures r.None? <==> exists e :: e in s.embeddings && |e| != |query|
    ensures r.Some? ==> Searchable(s, query, norm) && r.value == Search(s, query, norm, topK)
  {
    if Fits(s, query) then Some(Search(s, query, norm, topK)) else None
  }

  /** The results of a search are a genuine top set: scores never increase down
      the list, each is a cosine in [-1, 1], they come from distinct entries, and
      no entry left out scores above the last one returned. */
  lemma SearchReturnsTopSet(s: Snapshot, query: Vector, norm: NormFn, topK: int)
    requires WellFormed(s) && Searchable(s, query, norm) && s.embeddings != []
    ensures var r := Search(s, query, norm, topK);
      var scores := Scores(s, Unit(query, norm));
      var ix := TopIndices(scores, topK);
      && Distinct(ix)
      && (forall j :: 0 <= j < |r| - 1 ==> r[j].1 >= r[j + 1].1)
      && (forall j :: 0 <= j < |r| ==> -1.0 <= r[j].1 <= 1.0)
      && (forall i :: 0 <= i < |scores| && i !in ix && |r| > 0 ==> scores[i] <= r[|r| - 1].1)
  {
    var r := Search(s, query, norm, topK);
    var u := Unit(query, norm);
    var scores := Scores(s, u);
    var ix := TopIndices(scores, topK);
    TopIndicesAreTop(scores, topK);
    forall j | 0 <= j < |r| ensures -1.0 <= r[j].1 <= 1.0 {
      assert s.embeddings[ix[j]] in s.embeddings;
      CosineBounds(s.embeddings[ix[j]], u);
    }
  }

  /** Searching with a vector that was added returns a first score of exactly 1:
      the stored copy scores 1 and no unit vector scores more. */
  lemma SelfSimilarity(s: Snapshot, v: Vector, norm: NormFn, i: nat, topK: int)
    requires WellFormed(s) && IsL2Norm(norm) && NonZero(v) && Fits(s, v)
    requires i < |s.embeddings| && s.embeddings[i] == Normalize(v, norm(v))
    requires topK >= 1
    ensures |Search(s, v, norm, topK)| >= 1
    ensures Search(s, v, norm, topK)[0].1 == 1.0
  {
    var u := Unit(v, norm);
    var scores := Scores(s, u);
    var ix := TopIndices(scores, topK);
    var r := Search(s, v, norm, topK);
    TopCountCases(topK, |s.embeddings|);
    TopIndicesAreTop(scores, topK);
    assert scores[i] == Dot(u, u) == 1.0;
    assert s.embeddings[ix[0]] in s.embeddings;
    CosineBounds(s.embeddings[ix[0]], u);
    if i in ix {
      var p :| 0 <= p < |ix| && ix[p] == i;
      DescendingPairwise(ix, scores, 0, p);
    }
  }

  /** What two stores opened on one path show: a store that adds an entry and
      saves, and a second store opened afterwards on the same path, hold the
      same lists, ending with the new entry. */
  method PersistenceRoundTrip(fs: FileSystem, path: string, v: Vector, norm: NormFn, m: Meta)
    returns (first: InMemoryVectorStore, second: InMemoryVectorStore)
    requires fs.Valid() && path != "" && IsL2Norm(norm) && NonZero(v)
    modifies fs
    ensures second.Contents() == first.Contents()
    ensures second.metadata == old(Opened(fs.files, Some(path))).metadata + [m]
    ensures second.embeddings == old(Opened(fs.files, Some(path))).embeddings + [Normalize(v, norm(v))]
  {
    first := new InMemoryVectorStore(fs, Some(path));
    first.Add(v, norm, m);
    first.Save();
    second := new InMemoryVectorStore(fs, Some(path));
  }

  /** A cleared store leaves nothing behind: reopening its path starts empty. */
  method ClearThenReopen(fs: FileSystem, path: string, v: Vector, norm: NormFn, m: Meta)
    returns (reopened: InMemoryVectorStore)
    requires fs.Valid() && path != "" && IsL2Norm(norm) && NonZero(v)
    modifies fs
    ensures reopened.Valid()
    ensures reopened.Size() == 0 && reopened.Contents() == EmptySnapshot
    ensures path !in fs.files
  {
    var store := new InMemoryVectorStore(fs, Some(path));
    store.Add(v, norm, m);
    store.Clear();
    reopened := new InMemoryVectorStore(fs, Some(path));
  }
}
