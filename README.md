# code-rag-server, modelled in Dafny

code-rag-server indexes source repositories for retrieval. It keeps the
embedding vectors of files in an in-memory vector store that is pickled to
disk. It exposes four MCP tools (`clone_repo`, `search_code`, `get_file` and
`update_index`) and a `search` command on the command line. This project
models the core of that system and proves properties of the model:

- `vector_store.dfy`: the `InMemoryVectorStore` class.
  - Its parallel lists are fields that `add`, `load` and `clear` update in place.
  - Every store reads and writes snapshots on one shared `FileSystem` object,
    which stands for the pickle files on disk.
  - `search` is a function: it normalises the query, takes cosine scores and
    returns a top-k list.
- `vectors.dfy`, `ranking.dfy`: the arithmetic behind `search`.
  - Dot products and normalisation.
  - `np.argsort(...)[-top_k:][::-1]` as a descending ordering of indices,
    followed by a Python slice.
- `embeddings.dfy`: the embedding client.
  - `get_embedding` validates its input (`str.strip()`), sends the texts and
    unpacks `data[i]["embedding"]`.
  - `get_batch_embeddings` is a loop over batches of 32.
  - The HTTP request is a function parameter (`Provider`).
- `paths.dfy`: `_should_ignore`, `_guess_language` and `Path.stem`, and the
  POSIX path arithmetic behind `Path(...) / name`: a parsed path is a root and
  the components pathlib keeps (empty and `.` components are dropped, `..` is
  kept, a name with a root replaces the base).
- `github.dfy`: `_validate_github_url` and `_clone_github_repo`.
  - The two regular expressions are recognised by hand.
  - Soundness and completeness are proved against a declarative description
    of the accepted URLs.
  - Cloning only computes the target directory and the `git` command line.
- `server.dfy`: `handle_call_tool` and `update_index`.
  - Argument checks.
  - The `clone_repo` reply.
  - The `search_code` loop, and its stable sort and truncation.
  - The first-match lookup of `get_file`.
  - The scan, embed and `zip` pairing of `update_index`.
- `cli.dfy`: the `search` command.
  - The `--num-results` guard and the exit status 2.
  - The choice of index files.
  - File mode: a case-insensitive substring filter that goes on to the next
    index.
  - Semantic mode: returns at the first index with no results.

The model follows what the code does. Four consequences are proved:

- Extension patterns such as `.pyc` in `_should_ignore` only match a path
  component equal to the pattern, so `src/foo.pyc` is indexed
  (`Paths.KeepsCompiledFileName`).
- In the `search` command, an index with no results ends the whole command
  with status 0, even when later indexes would have matched
  (`Cli.EmptyIndexEndsSemanticSearch`).
- `_validate_github_url` accepts `..` as an owner, and pathlib keeps it, so
  `https://github.com/../x` is cloned to `github_repos/../x`, beside
  `github_repos` rather than inside it
  (`Github.DotDotOwnerLeavesTheReposDirectory`).
- `_should_ignore` tests every component of the path `rglob` yields, the
  repository's own included, so a repository cloned under an ignored name
  such as `github_repos/<owner>/venv` indexes no file
  (`Server.IgnoredRepositoryIndexesNothing`).

## Model

All source paths are relative to the repository root.

| member | source | states |
|---|---|---|
| Base.Head | src/code_rag_server/server.py:174 | `xs[:k]` with Python slice bounds: a prefix of `xs` whose length is the clamped slice index (negative `k` counts from the end) |
| Vectors.NormalizedIsUnit | src/code_rag_server/vector_store.py:22 | dividing a non-zero vector by its L2 norm gives a unit vector, and the norm is positive |
| Vectors.DotNormalize | src/code_rag_server/vector_store.py:38-44 | the dot product of two normalised vectors is their dot product divided by both norms |
| Vectors.CosineBounds | src/code_rag_server/vector_store.py:44 | the dot product of two unit vectors lies in [-1, 1] |
| Ranking.Insert | src/code_rag_server/vector_store.py:47 | inserting an index into an ordered list keeps indices in range and adds exactly that index (multiset) |
| Ranking.InsertKeepsTieOrder | src/code_rag_server/vector_store.py:47 | inserting an index lower than every entry keeps the list in numpy's order: higher score first, and the later index first among equal scores |
| Ranking.SortDescending | src/code_rag_server/vector_store.py:47 | the ordering of indices is a permutation of its input |
| Ranking.InsertKeepsOrder | src/code_rag_server/vector_store.py:47 | insertion keeps indices ordered by descending score |
| Ranking.SortDescendingSorts | src/code_rag_server/vector_store.py:47 | the sorted indices are in descending score order, and distinct when the input was |
| Ranking.SortDescendingBreaksTies | src/code_rag_server/vector_store.py:47 | sorting increasing indices leaves equal scores later index first, as a stable ascending `argsort` reversed by `[::-1]` does |
| Ranking.OrderedPairwise | src/code_rag_server/vector_store.py:47 | in that order every entry comes ahead of every later one, not only of its neighbour |
| Ranking.RankedIsPermutation | src/code_rag_server/vector_store.py:47 | `argsort(...)[::-1]` lists every index exactly once, best score first |
| Ranking.TopCountCases | src/code_rag_server/vector_store.py:47 | `[-top_k:]` keeps min(k, n) entries for k >= 1, all n for k = 0, and n+k (at least 0) for negative k |
| Ranking.TopIndicesAreTop | src/code_rag_server/vector_store.py:47 | the kept indices are distinct, in descending order, and no index left out scores above the last one kept |
| Ranking.TopIndicesBreakTies | src/code_rag_server/vector_store.py:47 | among equal scores the later index is listed first, and an index left out that ties with a kept one is an earlier index, as `[-top_k:]` of a stable ascending sort keeps the later ones |
| Ranking.TiesFavourTheLaterIndex | src/code_rag_server/vector_store.py:47 | two equal scores with `top_k=1` give index 1 |
| VectorStore.InMemoryVectorStore.constructor | src/code_rag_server/vector_store.py:10-17 | a new store holds the snapshot saved at a non-empty existing `pickle_path`, and empty lists otherwise; the disk is unchanged |
| VectorStore.InMemoryVectorStore.Size | src/code_rag_server/vector_store.py:71-74 | `size` is the length of both parallel lists |
| VectorStore.InMemoryVectorStore.Add | src/code_rag_server/vector_store.py:19-28 | appends the normalised (unit) vector and the record, size grows by one, and the new lists are saved exactly when `pickle_path` is truthy |
| VectorStore.InMemoryVectorStore.Save | src/code_rag_server/vector_store.py:52-56 | writes the current lists at a truthy `pickle_path`, and leaves the disk unchanged otherwise |
| VectorStore.InMemoryVectorStore.Load | src/code_rag_server/vector_store.py:58-62 | replaces the lists with the saved snapshot when the file exists, and leaves them unchanged otherwise |
| VectorStore.InMemoryVectorStore.Clear | src/code_rag_server/vector_store.py:64-69 | empties both lists, removes the saved file, and a store reopened at that path is empty |
| VectorStore.Unit | src/code_rag_server/vector_store.py:38 | the normalised query has the query's dimension and unit length |
| VectorStore.Scores | src/code_rag_server/vector_store.py:44 | one similarity per stored vector |
| VectorStore.Search | src/code_rag_server/vector_store.py:30-50 | an empty store gives `[]`; otherwise the result has the top-k count of entries, each the record and score of the index chosen by the top-k ordering (best score first, the later entry first among ties), so the scores never increase down the list |
| VectorStore.TrySearch | src/code_rag_server/vector_store.py:34-50 | `search` raises numpy's ValueError exactly when the store is non-empty and some stored vector's dimension differs from the query's; otherwise it gives the ranked results of `VectorStore.Search` |
| VectorStore.SearchReturnsTopSet | src/code_rag_server/vector_store.py:34-50 | results come from distinct entries in non-increasing score order, every score is in [-1, 1], and no omitted entry beats the last result |
| VectorStore.SelfSimilarity | src/code_rag_server/vector_store.py:19-50 | searching for a vector that was added returns at least one result, and the first scores exactly 1 |
| VectorStore.PersistenceRoundTrip | src/code_rag_server/vector_store.py:10-62 | after `add` on a persisted store, a second store opened on the same path sees exactly the same lists, extended by the new pair |
| VectorStore.ClearThenReopen | src/code_rag_server/vector_store.py:64-69 | after `clear`, the file is gone and a reopened store is empty |
| Embeddings.StripEmptyIffBlank | src/code_rag_server/embeddings.py:33-36 | `not t.strip()` holds exactly when every character of `t` is whitespace |
| Embeddings.StripEmptyIffBlankAll | src/code_rag_server/embeddings.py:36 | `any(not t.strip() for t in text)` holds exactly when some text is blank |
| Embeddings.Validate | src/code_rag_server/embeddings.py:31-40 | a string is accepted iff it is not blank and is sent as a one-element list; a list is accepted iff it is non-empty with no blank entry and is sent unchanged; every rejection is "Empty input" |
| Embeddings.UnpackItems | src/code_rag_server/embeddings.py:51 | succeeds iff every item has an `embedding`, returning those vectors in order, and otherwise fails with a KeyError on `embedding` |
| Embeddings.Unpack | src/code_rag_server/embeddings.py:49-51 | succeeds iff the body has `data` and every item in it has an `embedding`, returning exactly those vectors in order; otherwise fails with a KeyError on `data` when that key is missing, else on `embedding` |
| Embeddings.GetEmbeddingOutcomes | src/code_rag_server/embeddings.py:16-59 | blank input raises "Empty input" whatever the service answers; service and unpacking errors are re-raised unchanged; a string yields the first vector (IndexError when there is none) and a list yields the list |
| Embeddings.GetEmbeddingPointwise | src/code_rag_server/embeddings.py:42-52 | with a service that embeds each text independently, a valid string gets its own vector and a valid list gets its vectors in order |
| Embeddings.ManySuccess | src/code_rag_server/embeddings.py:35-40 | a successful list request had a non-empty list with no blank text, and returned a list |
| Embeddings.BatchesPartition | src/code_rag_server/embeddings.py:79-80 | the batches `texts[i:i+batch_size]` are non-empty, at most `batch_size` long, and concatenate to the input |
| Embeddings.BatchesCount | src/code_rag_server/embeddings.py:79 | there are ceil(n / batch_size) batches |
| Embeddings.BatchAt | src/code_rag_server/embeddings.py:79-80 | batch j is `texts[j*size : min((j+1)*size, n)]` |
| Embeddings.GetBatchEmbeddings | src/code_rag_server/embeddings.py:61-93 | empty input raises "Empty input"; otherwise the result is the concatenation of the batch answers, stopping at the first error; the progress counts are the successive values of min(i + batch_size, len(texts)), and the last one equals the number of texts on success |
| Embeddings.ProgressClosedForm | src/code_rag_server/embeddings.py:88-91 | the j-th progress message reports min((j+1)*batch_size, n), and the counts strictly increase |
| Embeddings.EmbedAllPointwise | src/code_rag_server/embeddings.py:61-93 | with an independent-per-text service, batching succeeds iff no text is blank, and it then returns each text's own vector in input order |
| Embeddings.BatchedNeedsNoBlank | src/code_rag_server/embeddings.py:76-91 | whatever the service, a successful batched call had no blank text |
| Embeddings.EmbedAllNonZero | src/code_rag_server/embeddings.py:79-86 | a service that never answers a zero vector gives a batched result free of zero vectors |
| Paths.ShouldIgnore | src/code_rag_server/server.py:287-308 | a path is ignored iff one of its components is exactly one of the seventeen ignored names |
| Paths.ShouldIgnoreAppend | src/code_rag_server/server.py:308 | ignoring a path joined from two parts is ignoring either part |
| Paths.IgnoredAnywhere | src/code_rag_server/server.py:289-308 | an ignored name at any depth makes the whole path ignored |
| Paths.KeepsCompiledFileName | src/code_rag_server/server.py:295-308 | `src/foo.pyc` and `src/main.py` are not ignored; `.git/config` is |
| Paths.SuffixShape | src/code_rag_server/server.py:371 | a non-empty `Path.suffix` is a dot and at least one more character, none of them a dot, ending the name after something else |
| Paths.SuffixOfStemExt | src/code_rag_server/server.py:371 | the suffix of `stem.ext` is `.ext` when `ext` has no dot |
| Paths.NoSuffixCases | src/code_rag_server/server.py:371 | a name with no dot after its first character, or one ending in a dot, has no suffix |
| Paths.BaseName | src/code_rag_server/cli.py:83 | the final path component has no slash and ends the path |
| Paths.StemThenSuffix | src/code_rag_server/cli.py:83 | `stem + suffix` is the file name |
| Paths.StemOfIndexFile | src/code_rag_server/cli.py:72-83 | the stem of `<dir>/<name>.pkl` is `name` when the name has no dot or slash, so the CLI's heading names the repository |
| Paths.GuessLanguage | src/code_rag_server/server.py:353-371 | the answer is `""` or one of the fourteen languages |
| Paths.GuessLanguageOf | src/code_rag_server/server.py:355-371 | a name `stem.ext` maps to the language of the lower-cased `.ext`, or `""` when that extension is not listed |
| Paths.NoSuffixNoLanguage | src/code_rag_server/server.py:371 | a name with no suffix has no language |
| Paths.JoinName | src/code_rag_server/server.py:335-336 | `path / name` for a slash-free name appends the name, or nothing when it is `.` or empty |
| Paths.ParseText | src/code_rag_server/server.py:335-336 | printing a relative path of plain components and parsing the text gives back the same components |
| Paths.KeptThree | src/code_rag_server/server.py:141 | the components pathlib keeps of `a/b/c` are those of `a`, `b` and `c` that are not empty and not `.` |
| Github.RepoEnd | src/code_rag_server/server.py:313 | the lazy `([^/]+?)` ends at the first position after which only a valid tail remains, if there is one |
| Github.MatchAfterSound | src/code_rag_server/server.py:313-317 | a match means the URL is prefix, owner, `/`, the shortest slash-free name and an allowed tail |
| Github.MatchAfterComplete | src/code_rag_server/server.py:313-317 | every URL of that shape matches with exactly that owner and name |
| Github.PrefixesDiffer | src/code_rag_server/server.py:313-322 | no URL starts with both prefixes, so the order in which the two patterns are tried does not matter |
| Github.ValidateSound | src/code_rag_server/server.py:311-328 | an accepted URL spells out the returned owner and repository under one of the two prefixes |
| Github.ValidateComplete | src/code_rag_server/server.py:311-328 | every URL that spells out an owner and repository that way is accepted with exactly those two groups |
| Github.ValidatePlainNames | src/code_rag_server/server.py:313-322 | plain owner and repository names with any allowed tail are returned unchanged |
| Github.DotGitIsNotPartOfTheName | src/code_rag_server/server.py:313-314 | `.../owner/repo.git` gives the repository `repo` |
| Github.RejectsOtherUrls | src/code_rag_server/server.py:323-328 | a URL with neither prefix is rejected |
| Github.RepoDirOfNames | src/code_rag_server/server.py:335-336 | for slash-free names the target is `github_repos` and the names pathlib keeps; for plain names it is `github_repos/owner/repo` |
| Github.RepoDirParses | src/code_rag_server/server.py:335-336 | the target path of plain names parses back to the components `github_repos`, owner, name |
| Github.RepoDirInjective | src/code_rag_server/server.py:335-336 | different pairs of plain names (not empty, not `.`, no slash) give different target path strings; `a/..` and `b/..` are different strings for one directory |
| Github.DotPartsShareADirectory | src/code_rag_server/server.py:335-336 | `https://github.com/a/.` and `https://github.com/./a` are both accepted and both target `github_repos/a`, because `Path` drops a `.` component |
| Github.DotDotOwnerLeavesTheReposDirectory | src/code_rag_server/server.py:335-336 | `https://github.com/../x` is accepted with owner `..` and targets `github_repos/../x`, outside `github_repos` |
| Github.CloneGithubRepo | src/code_rag_server/server.py:331-350 | invalid URLs fail; an existing target fails with "already exists"; otherwise clones into `Path("github_repos") / owner / repo` (a `.` part dropped) with `git clone [-b branch] url target` |
| Github.CloneCommandShape | src/code_rag_server/server.py:343-346 | the command starts `git clone`, ends with the URL and the target, and carries `-b branch` exactly when a non-empty branch is given |
| Server.CloneRepoTool | src/code_rag_server/server.py:115-133 | a refused URL, an existing target or a failing `git` give the error reply; otherwise the reply reports the clone into `Path("github_repos") / owner / repo` and its `git` command |
| Server.ReadRequest | src/code_rag_server/server.py:107-223 | missing or empty arguments raise "Missing arguments"; an unknown tool raises exactly when the arguments are present; the request succeeds iff every required key is present, otherwise the KeyError names a missing required key; a success is a request for the named tool |
| Server.GetFileReadsPathFirst | src/code_rag_server/server.py:188-189 | with `file_path` missing, `get_file` raises on `file_path` even when `repository` is missing too |
| Server.SearchDefaults | src/code_rag_server/server.py:136-138 | `num_results` defaults to 5, and the query and optional repository pass through |
| Server.AnyStoredIff | src/code_rag_server/server.py:162-167 | some listed store is non-empty iff an index among them holds an entry |
| Server.InsertByScore | src/code_rag_server/server.py:173 | inserting a hit adds exactly that hit (multiset) |
| Server.SortByScore | src/code_rag_server/server.py:173 | the sort is a permutation of the hits |
| Server.SortByScoreSorts | src/code_rag_server/server.py:173 | the sorted hits have non-increasing scores |
| Server.InsertWithScore | src/code_rag_server/server.py:173 | an inserted hit goes in front of the hits of equal score already placed, which came later in the collection |
| Server.SortIsStable | src/code_rag_server/server.py:173 | for every score, the hits with that score keep their collection order |
| Server.MergeIsSorted | src/code_rag_server/server.py:173-174 | the merged answer holds `num_results` hits (Python slice bound), best first |
| Server.MergeKeepsAll | src/code_rag_server/server.py:173-174 | the answer plus the hits cut off are exactly the collected hits |
| Server.MergeDropsLower | src/code_rag_server/server.py:173-174 | no hit cut off scores above the last hit kept |
| Server.IndexFile | src/code_rag_server/server.py:141 | `indices_dir / f"{repository}.pkl"` is `indices/<repository>.pkl` for a slash-free name, and the parsed `<repository>.pkl` alone when the name has a root |
| Server.IndexFileDropsDot | src/code_rag_server/server.py:190 | `./a` names the same index file as `a` |
| Server.IndexFileDropsEmpty | src/code_rag_server/server.py:190 | `a//b` names `indices/a/b.pkl` |
| Server.IndexFileOfAbsoluteName | src/code_rag_server/cli.py:73 | `/d/x` names `/d/x.pkl`, outside `indices` |
| Server.SearchCodeTool | src/code_rag_server/server.py:135-185 | a named, unindexed repository gives "not indexed"; no index files gives "No indexes found"; no stored entry gives "No matches found."; an embedding error is raised; a searched index holding a vector of another dimension than the query's raises numpy's ValueError; otherwise the merged top `num_results` of all per-index results, or the KeyError of the first merged hit whose record lacks `file`, `repo` or `code` |
| Server.MissingKeyOf | src/code_rag_server/server.py:178-182 | formatting a record fails exactly when it lacks `file`, `repo` or `code`, naming a missing key, and the first missing in that reading order |
| Server.FormatError | src/code_rag_server/server.py:176-183 | formatting the hits fails exactly when some record cannot be printed, with the missing key of the first such record |
| Server.CollectHits | src/code_rag_server/server.py:161-167 | the loop yields the per-index results in index order, asks for the embedding (and so may raise) only when some store is non-empty, and raises numpy's ValueError when a searched store holds a vector of another dimension |
| Server.CollectRaisesIff | src/code_rag_server/server.py:161-166 | searching the index files raises exactly when one of the files searched holds a vector whose dimension differs from the query's; files that are not searched play no part |
| Server.SearchStore | src/code_rag_server/server.py:163-166 | an empty store is skipped; otherwise the embedding's error, numpy's ValueError when the store holds a vector of another dimension, or the store's search with `top_k=num_results` |
| Server.FirstRecord | src/code_rag_server/server.py:201-202 | the index of the first record that lacks `file` or names the path, and `len` when there is none |
| Server.FirstRecordUnique | src/code_rag_server/server.py:201-202 | any position with those two properties is that first index |
| Server.GetFileTool | src/code_rag_server/server.py:187-217 | an unindexed repository gives "not indexed"; otherwise the first record for the path (or the KeyError on its missing `repo` or `code`), a KeyError on a record without `file` met earlier, or "not found" |
| Server.FoundIsFirst | src/code_rag_server/server.py:201-210 | the record returned names the path and comes no later than any record for it |
| Server.Indexable | src/code_rag_server/server.py:246-261 | the indexed entries are no more than the listed ones, and all were readable |
| Server.IndexableSound | src/code_rag_server/server.py:247-249 | only listed, readable, non-ignored files are indexed |
| Server.IndexableComplete | src/code_rag_server/server.py:246-261 | every listed, readable, non-ignored file is indexed |
| Server.IgnoredRepositoryIndexesNothing | src/code_rag_server/server.py:246-247 | when the repository's own path has an ignored component, no file under it is indexed |
| Server.RecordsDescribeTexts | src/code_rag_server/server.py:250-258 | record j has the embedded text as `code`, the relative repository as `repo`, the file's relative path and its guessed language |
| Server.ScanFiles | src/code_rag_server/server.py:241-261 | the scan loop returns the texts and records of exactly the indexed entries, in listing order, and their count |
| Server.ScanEntry | src/code_rag_server/server.py:247-259 | one iteration appends the entry's text and record iff it is kept |
| Server.Units | src/code_rag_server/vector_store.py:22 | each added vector is stored as a unit vector, one per input |
| Server.AddPairs | src/code_rag_server/server.py:270-273 | one `add` per pair appends the normalised vectors and the records, and the file holds the new lists |
| Server.UpdateIndexTool | src/code_rag_server/server.py:226-284 | a missing path gives "does not exist"; a path outside `github_repos` raises; no indexed file gives "No files to index"; an embedding error is raised; otherwise the first min(#vectors, #files) pairs are added to `indices/<rel>.pkl` and the reply counts every indexed file |
| Server.IndexingNeedsNoBlankFile | src/code_rag_server/server.py:242-267 | a successful `update_index` had no blank indexed file |
| Server.IndexingPairsEveryFile | src/code_rag_server/server.py:263-273 | with an independent-per-text service and no blank file, every indexed file is paired with its own text's vector |
| Cli.ContainsIff | src/code_rag_server/cli.py:92 | `needle in hay` iff the needle occurs at some position of the hay |
| Cli.FileFilter | src/code_rag_server/cli.py:90-93 | defined iff every record has `file` (KeyError otherwise); the matches are records of the store whose lower-cased path contains the lower-cased query |
| Cli.FileFilterComplete | src/code_rag_server/cli.py:90-93 | every matching record of the store is among the matches |
| Cli.FileFilterOne | src/code_rag_server/cli.py:90-93 | a single record with a path is kept once when it matches and dropped otherwise |
| Cli.FileFilterAppend | src/code_rag_server/cli.py:90-93 | the matches of two runs of records are the first run's followed by the second's, so the matches keep store order and multiplicity |
| Cli.FindFiles | src/code_rag_server/cli.py:90-93 | the loop computes the filter, including the KeyError |
| Cli.FilterStaysNone | src/code_rag_server/cli.py:91-92 | once a record without `file` is met, the filter raises |
| Cli.Steps | src/code_rag_server/cli.py:82-86 | one step per index file, each the search of that file's store |
| Cli.SearchCommand | src/code_rag_server/cli.py:40-123 | the command's printed blocks and exit status are those of the `search` specification function |
| Cli.SearchEach | src/code_rag_server/cli.py:82-123 | the loop prints each index's block until one ends the command or raises |
| Cli.RunPrinted | src/code_rag_server/cli.py:82-123 | after a block is printed, going on, returning or raising gives the outcome of the remaining loop |
| Cli.SearchPath | src/code_rag_server/cli.py:82-86 | opening the i-th index file and searching it gives that file's step |
| Cli.SearchIndex | src/code_rag_server/cli.py:83-123 | file or semantic search of one opened store gives the step the specification assigns to it |
| Cli.NonPositiveCountExits | src/code_rag_server/cli.py:50-55 | `--num-results` below 1 exits with status 2 and prints no block |
| Cli.NoIndexExits | src/code_rag_server/cli.py:66-68 | no index file exits with status 2 |
| Cli.MissingRepositoryExits | src/code_rag_server/cli.py:72-76 | a named repository without an index exits with status 2 |
| Cli.FileMatchesAreFirst | src/code_rag_server/cli.py:88-105 | a file-mode block shows the first `num_results` matches, in store order, each a matching record of the store |
| Cli.FileStepNeverStops | src/code_rag_server/cli.py:95-97 | a file-mode index never ends the command, and its block names the index |
| Cli.RunWithoutStop | src/code_rag_server/cli.py:82-123 | with no index that ends the command, a run with status 0 printed every index's block in order |
| Cli.FileModeCoversEvery | src/code_rag_server/cli.py:88-105 | in file mode a run with status 0 prints one block per index file, in order, each headed by the file's stem |
| Cli.RunEndsAtStop | src/code_rag_server/cli.py:112-114 | every printed block comes, in order, from a step that did not raise; all but the last went on; when the last comes from a stopping step, the status is 0 |
| Cli.SemanticStepShape | src/code_rag_server/cli.py:107-123 | a semantic index that goes on shows a non-empty result list, and one that stops says "No matches found." |
| Cli.SemanticStopsAtEmpty | src/code_rag_server/cli.py:107-114 | in semantic mode every block but the last shows matches, and "No matches found." is only ever the last block, with status 0 |
| Cli.RunOfSemanticSteps | src/code_rag_server/cli.py:112-114 | the same for any sequence of steps of that shape |
| Cli.MismatchedIndexExits | src/code_rag_server/cli.py:109-110 | an index holding a vector of another dimension than the query's makes the semantic search raise there, which exits with status 2 |
| Cli.EmptyIndexEndsSemanticSearch | src/code_rag_server/cli.py:110-114 | an empty index ends the semantic search there with "No matches found." and status 0, whatever the later indexes hold |
| Cli.EmbeddingFailureExits | src/code_rag_server/cli.py:56-58 | an embedding error in semantic mode exits with status 2 before any block is printed |

## Left out

- Console text, progress bars and log messages are not modelled. Each reply or
  printed block is a datatype value recording the facts its text reports.
- The HTTP request to the embedding endpoint, the 30-second timeout and the
  model name are out of scope. The request is the `Provider` parameter, a
  function from the sent texts to the decoded body or a transport error.
- `numpy.linalg.norm` is a foreign call. It is a parameter whose ghost
  property says it is the Euclidean length. Floating point is modelled as
  exact reals.
- `git clone` (the subprocess), `mkdir`, reading files and globbing are left
  out.
  - Existing paths are a `set<string>` parameter.
  - The files `rglob` lists come in as `Entry` values; an unreadable file has
    no content.
  - `glob("**/*.pkl")` is a listing parameter.
- `pathlib` is reduced to what the core uses on POSIX paths: parsing into a
  root and components, joining with `/`, printing, `parts`, the final
  component, `stem` and `suffix`. Symbolic links and `..` are not resolved,
  as pathlib does not resolve them either; Windows paths are left out.
- `relative_to("github_repos")` is modelled on plain strings, without
  normalisation.
- Unicode case folding is reduced to ASCII `lower()`. `str.strip()`
  whitespace is reduced to the ASCII whitespace characters.
- The MCP transport, `handle_list_tools` and `main` are left out.
  - `handle_call_tool` is modelled as `Server.ReadRequest`, which does the
    argument checks, followed by the tool methods.
  - For `clone_repo`, `Server.CloneRepoTool` turns the `ValueError`s of
    `Github.CloneGithubRepo` and a failing `git` (a boolean parameter) into
    the error reply.
- The `index` command of the command-line interface, and its asyncio
  wrapper, are left out.
- Server.ReadRequest: requires the arguments to have the types the tool
  schemas declare. Python would fail later on a wrongly typed value.
- VectorStore.Search: requires, for a non-empty store, a non-zero query with
  the stored dimension. `VectorStore.TrySearch` adds numpy's ValueError for a
  stored vector of another dimension, and the server and the command search
  through it. A zero query is still excluded: numpy would return NaN scores,
  whose order the model does not capture.
- Server.SearchCodeTool: requires the service's answer for the query, when it
  succeeds, to be one non-zero vector (`QueryUsable`), for the NaN reason
  above. This is required even when no index holds an entry and the query is
  never embedded.
- Cli.SearchCommand: requires the same of the query in semantic mode.
- VectorStore.Search: breaks ties between equal scores as `np.argsort` does on
  short arrays, which its default sort orders by insertion sort, stably: the
  later entry first. That default sort is not stable in general; on larger
  arrays, or with numpy's vectorised sort kernels, the order among equal scores
  may differ from the model's.
- VectorStore.InMemoryVectorStore.constructor: assumes the pickle files were
  written by `save`, so every snapshot on disk has lists of one length and
  unit vectors (`FileSystem.Valid`). `load` unpickles without
  checks; a malformed file would make `search`, `get_file` and the `search`
  command raise or pair records with the wrong scores. `Server.SearchCodeTool`,
  `Server.GetFileTool` and `Cli.SearchCommand` inherit this assumption.
- VectorStore.InMemoryVectorStore.Add: requires a non-zero embedding, because
  numpy would store NaNs for a zero one.
  - `Server.UpdateIndexTool` requires the same of the service's answers
    (`AnswersNonZero`).
- Server.UpdateIndexTool: the batch size is fixed at the default 32.
- Cli.SearchCommand: models the query's embedding as one answer `e`.
  - `_search_code` asks for it again for every index, and gets the same answer
    from a service that is a function of its input.
  - The embedding call, and its possible failure, still happen per index in
    `Cli.SearchIndex`.
- Cli.SearchCommand: when a record lacks a key while a block is being
  printed, the model drops that block's partial text and keeps only the exit
  status 2 and the earlier blocks.
