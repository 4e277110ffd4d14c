/** The embedding client: input validation, unpacking of the service's JSON
    response, and the batching loop. The HTTP request itself is a parameter. */
module Embeddings {
  import opened Base
  import opened Vectors

  /** Why `get_embedding` raises. Every error is logged and re-raised unchanged. */
  datatype Error =
    | EmptyInput               // ValueError("Empty input")
    | Transport(reason: string) // httpx.HTTPError from the request or its status
    | MissingKey(key: string)   // KeyError while unpacking the response
    | NoVectors                 // IndexError: `embeddings[0]` of an empty response

  /** One entry of the response's `data` list, keeping its list-valued fields. */
  type Item = map<string, Vector>

  /** The decoded JSON response body, keeping its list-valued fields. */
  type Body = map<string, seq<Item>>

  /** The POST to the embeddings endpoint: the `input` list sent, and the decoded
      body or the transport error that comes back. */
  type Provider = seq<string> -> Result<Body, Error>

  /** `get_embedding` takes one string or a list of strings. */
  datatype Input = Single(text: string) | Many(texts: seq<string>)

  /** ... and returns one vector or a list of vectors accordingly. */
  datatype Output = One(vector: Vector) | All(vectors: seq<Vector>)

  /** The ASCII characters `str.strip()` removes. */
  predicate IsSpace(c: char) {
    c == ' ' || c == '\t' || c == '\n' || c == '\r' || ('\U{000B}' <= c <= '\U{000C}')
      || ('\U{001C}' <= c <= '\U{001F}')
  }

  function TrimLeft(s: string): string {
    if s != [] && IsSpace(s[0]) then TrimLeft(s[1..]) else s
  }

  function TrimRight(s: string): string {
    if s != [] && IsSpace(s[|s| - 1]) then TrimRight(s[..|s| - 1]) else s
  }

  /** Python's `s.strip()`. */
  function Strip(s: string): string {
    TrimRight(TrimLeft(s))
  }

  /** Every character is whitespace (the empty string included). */
  predicate IsBlank(s: string) {
    forall i :: 0 <= i < |s| ==> IsSpace(s[i])
  }

  lemma {:induction false} TrimLeftEmpty(s: string)
    ensures TrimLeft(s) == "" <==> IsBlank(s)
    ensures TrimLeft(s) != "" ==> !IsSpace(TrimLeft(s)[0])
    decreases |s|
  {
    if s != [] && IsSpace(s[0]) {
      TrimLeftEmpty(s[1..]);
      assert IsBlank(s) <==> IsBlank(s[1..]) by {
        if IsBlank(s[1..]) {
          forall i | 0 <= i < |s| ensures IsSpace(s[i]) {
            if i > 0 { assert s[i] == s[1..][i - 1]; }
          }
        }
      }
    }
  }

  lemma {:induction false} TrimRightKeepsHead(s: string)
    requires s != [] && !IsSpace(s[0])
    ensures TrimRight(s) != ""
    decreases |s|
  {
    if IsSpace(s[|s| - 1]) {
      TrimRightKeepsHead(s[..|s| - 1]);
    }
  }

  /** `not s.strip()` holds exactly for the blank strings. */
  lemma StripEmptyIffBlank(s: string)
    ensures Strip(s) == "" <==> IsBlank(s)
  {
    TrimLeftEmpty(s);
    if TrimLeft(s) != "" {
      TrimRightKeepsHead(TrimLeft(s));
    }
  }

  lemma StripEmptyIffBlankAll(ts: seq<string>)
    ensures (exists t :: t in ts && Strip(t) == "") <==> exists t :: t in ts && IsBlank(t)
  {
    forall t | t in ts { StripEmptyIffBlank(t); }
  }

  /** The input check before any request: the texts to send, or `EmptyInput`. */
  function Validate(input: Input): (r: Result<seq<string>, Error>)
    ensures r.Failure? ==> r.error == EmptyInput
    ensures input.Single? ==> (r.Success? <==> !IsBlank(input.text))
    ensures input.Single? && r.Success? ==> r.value == [input.text]
    ensures input.Many? ==> (r.Success? <==> input.texts != [] && forall t :: t in input.texts ==> !IsBlank(t))
    ensures input.Many? && r.Success? ==> r.value == input.texts
  {
    match input
    case Single(t) =>
      StripEmptyIffBlank(t);
      if Strip(t) == "" then Failure(EmptyInput) else Success([t])
    case Many(ts) =>
      StripEmptyIffBlankAll(ts);
      if ts == [] || exists t :: t in ts && Strip(t) == "" then Failure(EmptyInput) else Success(ts)
  }

  /** `[item["embedding"] for item in items]`, raising at the first item without one. */
  function UnpackItems(items: seq<Item>): (r: Result<seq<Vector>, Error>)
    ensures r.Success? <==> forall k :: 0 <= k < |items| ==> "embedding" in items[k]
    ensures r.Failure? ==> r.error == MissingKey("embedding")
    ensures r.Success? ==>
      (|r.value| == |items| && forall k :: 0 <= k < |items| ==> r.value[k] == items[k]["embedding"])
    decreases |items|
  {
    if items == [] then Success([])
    else if "embedding" !in items[0] then Failure(MissingKey("embedding"))
    else
      match UnpackItems(items[1..])
      case Failure(e) => Failure(e)
      case Success(rest) => Success([items[0]["embedding"]] + rest)
  }

  /** Unpacks `data["data"]`; a body without `data` raises `KeyError`. */
  function Unpack(body: Body): (r: Result<seq<Vector>, Error>)
    ensures r.Success? <==>
      "data" in body && forall k :: 0 <= k < |body["data"]| ==> "embedding" in body["data"][k]
    ensures r.Success? ==>
      && |r.value| == |body["data"]|
      && forall k :: 0 <= k < |r.value| ==> r.value[k] == body["data"][k]["embedding"]
    ensures r.Failure? ==> r.error == MissingKey(if "data" !in body then "data" else "embedding")
  {
    if "data" !in body then Failure(MissingKey("data")) else UnpackItems(body["data"])
  }

  /** `get_embedding`: validate, send the texts, unpack the vectors, and return
      the first one for a single string or all of them for a list. */
  function GetEmbedding(input: Input, provider: Provider): Result<Output, Error> {
    match Validate(input)
    case Failure(e) => Failure(e)
    case Success(texts) =>
      match provider(texts)
      case Failure(e) => Failure(e)
      case Success(body) =>
        match Unpack(body)
        case Failure(e) => Failure(e)
        case Success(vectors) =>
          if input.Single? then
            if vectors == [] then Failure(NoVectors) else Success(One(vectors[0]))
          else Success(All(vectors))
  }

  /** What `get_embedding` raises: `EmptyInput` for blank input whatever the
      provider would answer, and otherwise the provider's or the unpacking's
      error unchanged; a single string is sent as a one-element list. On success
      a string yields one vector and a list yields a list. */
  lemma GetEmbeddingOutcomes(input: Input, provider: Provider)
    ensures var r := GetEmbedding(input, provider);
      && (input.Single? && IsBlank(input.text) ==> r == Failure(EmptyInput))
      && (input.Many? && (input.texts == [] || exists t :: t in input.texts && IsBlank(t)) ==> r == Failure(EmptyInput))
      && (input.Single? && !IsBlank(input.text) && provider([input.text]).Failure? ==>
            r == Failure(provider([input.text]).error))
      && (input.Single? && !IsBlank(input.text) && provider([input.text]).Success? ==>
            var u := Unpack(provider([input.text]).value);
            r == if u.Failure? then Failure(u.error) else if u.value == [] then Failure(NoVectors) else Success(One(u.value[0])))
      && (Validate(input).Success? && input.Many? && provider(input.texts).Failure? ==>
            r == Failure(provider(input.texts).error))
      && (Validate(input).Success? && input.Many? && provider(input.texts).Success? ==>
            var u := Unpack(provider(input.texts).value);
            r == if u.Failure? then Failure(u.error) else Success(All(u.value)))
  {}

  /** A provider that answers every request with one vector per text, in order,
      the vector for text `t` being `f(t)`. */
  ghost predicate Pointwise(provider: Provider, f: string -> Vector) {
    forall texts: seq<string> :: provider(texts) == Success(Respond(texts, f))
  }

  /** `f` applied to each text, in order. */
  function Apply(f: string -> Vector, texts: seq<string>): (r: seq<Vector>)
    ensures |r| == |texts|
  {
    seq(|texts|, k requires 0 <= k < |texts| => f(texts[k]))
  }

  lemma ApplyAppend(f: string -> Vector, a: seq<string>, b: seq<string>)
    ensures Apply(f, a + b) == Apply(f, a) + Apply(f, b)
  {
    assert forall k :: 0 <= k < |a + b| ==> Apply(f, a + b)[k] == (Apply(f, a) + Apply(f, b))[k];
  }

  /** The body such a provider returns. */
  function Respond(texts: seq<string>, f: string -> Vector): Body {
    map["data" := seq(|texts|, k requires 0 <= k < |texts| => map["embedding" := f(texts[k])])]
  }

  /** With a pointwise provider, a single string yields its own vector, and a
      valid list yields the vectors of its texts in order. */
  lemma GetEmbeddingPointwise(input: Input, provider: Provider, f: string -> Vector)
    requires Pointwise(provider, f) && Validate(input).Success?
    ensures input.Single? ==> GetEmbedding(input, provider) == Success(One(f(input.text)))
    ensures input.Many? ==>
      GetEmbedding(input, provider) == Success(All(Apply(f, input.texts)))
  {
    var texts := Validate(input).value;
    var vs := UnpackItems(Respond(texts, f)["data"]);
    assert vs.Success?;
    if input.Many? {
      assert vs.value == Apply(f, input.texts);
    } else {
      assert vs.value[0] == f(input.text);
    }
  }

  /** `[texts[i:i + size] for i in range(start, len(texts), size)]`. */
  function BatchesFrom<T>(texts: seq<T>, start: nat, size: nat): seq<seq<T>>
    requires size >= 1
    decreases |texts| - start
  {
    if start >= |texts| then []
    else [texts[start..Min(start + size, |texts|)]] + BatchesFrom(texts, start + size, size)
  }

  /** The batches `get_batch_embeddings` sends: `texts[i:i + size]` for `i` in
      `range(0, len(texts), size)`. */
  function Batches<T>(texts: seq<T>, size: nat): seq<seq<T>>
    requires size >= 1
  {
    BatchesFrom(texts, 0, size)
  }

  lemma {:induction false} BatchesFromSizes<T>(texts: seq<T>, start: nat, size: nat)
    requires size >= 1
    ensures forall b :: b in BatchesFrom(texts, start, size) ==> 1 <= |b| <= size
    decreases |texts| - start
  {
    if start < |texts| {
      var later := BatchesFrom(texts, start + size, size);
      BatchesFromSizes(texts, start + size, size);
      assert BatchesFrom(texts, start, size) == [texts[start..Min(start + size, |texts|)]] + later;
    }
  }

  lemma {:induction false} BatchesFromFlatten<T>(texts: seq<T>, start: nat, size: nat)
    requires size >= 1 && start <= |texts|
    ensures Flatten(BatchesFrom(texts, start, size)) == texts[start..]
    decreases |texts| - start
  {
    if start < |texts| {
      var end := Min(start + size, |texts|);
      var batch, later := texts[start..end], BatchesFrom(texts, start + size, size);
      var all := [batch] + later;
      assert all[0] == batch && all[1..] == later;
      if start + size < |texts| {
        BatchesFromFlatten(texts, start + size, size);
      } else {
        assert later == [] && texts[end..] == [];
      }
      assert texts[start..] == batch + texts[end..];
    }
  }

  /** Every batch holds between one and `size` texts, and the batches
      concatenate to the input. */
  lemma BatchesPartition<T>(texts: seq<T>, size: nat)
    requires size >= 1
    ensures forall b :: b in Batches(texts, size) ==> 1 <= |b| <= size
    ensures Flatten(Batches(texts, size)) == texts
  {
    BatchesFromSizes(texts, 0, size);
    BatchesFromFlatten(texts, 0, size);
    assert texts[0..] == texts;
  }

  lemma {:induction false} BatchesFromCount<T>(texts: seq<T>, start: nat, size: nat)
    requires size >= 1 && start <= |texts|
    ensures |texts| - start <= |BatchesFrom(texts, start, size)| * size < |texts| - start + size
    decreases |texts| - start
  {
    if start < |texts| {
      var c := |BatchesFrom(texts, start + size, size)|;
      if start + size < |texts| {
        BatchesFromCount(texts, start + size, size);
      }
      MulStep(c, size);
    }
  }

  /** There are `ceil(n / size)` batches: the least count whose batches of
      `size` cover all `n` texts. */
  lemma BatchesCount<T>(texts: seq<T>, size: nat)
    requires size >= 1
    ensures |texts| <= |Batches(texts, size)| * size < |texts| + size
  {
    BatchesFromCount(texts, 0, size);
  }

  /** `j * size`: where the `j`-th batch starts, one batch after another. */
  function Offset(j: nat, size: nat): nat {
    if j == 0 then 0 else Offset(j - 1, size) + size
  }

  lemma {:induction false} OffsetIsProduct(j: nat, size: nat)
    ensures Offset(j, size) == j * size
  {
    if j > 0 {
      OffsetIsProduct(j - 1, size);
      MulStep(j - 1, size);
    }
  }

  lemma MulStep(k: nat, size: nat)
    ensures (k + 1) * size == k * size + size
  {}

  lemma {:induction false} BatchFromAt<T>(texts: seq<T>, start: nat, size: nat, j: nat)
    requires size >= 1 && j < |BatchesFrom(texts, start, size)|
    ensures start + Offset(j, size) < |texts|
    ensures BatchesFrom(texts, start, size)[j]
      == texts[start + Offset(j, size)..Min(start + Offset(j + 1, size), |texts|)]
    decreases j
  {
    var later := BatchesFrom(texts, start + size, size);
    assert BatchesFrom(texts, start, size)[1..] == later;
    if j > 0 {
      BatchFromAt(texts, start + size, size, j - 1);
    }
  }

  /** The `j`-th batch is `texts[j * size:(j + 1) * size]`, and starts inside the list. */
  lemma BatchAt<T>(texts: seq<T>, size: nat, j: nat)
    requires size >= 1 && j < |Batches(texts, size)|
    ensures j * size < |texts|
    ensures Batches(texts, size)[j] == texts[j * size..Min((j + 1) * size, |texts|)]
  {
    BatchFromAt(texts, 0, size, j);
    OffsetIsProduct(j, size);
    OffsetIsProduct(j + 1, size);
  }

  /** The embedding requests for a list of batches, concatenated in batch order
      until the first one that fails. */
  function EmbedAll(batches: seq<seq<string>>, provider: Provider): Result<seq<Vector>, Error> {
    if batches == [] then Success([])
    else
      match GetEmbedding(Many(batches[0]), provider)
      case Failure(e) => Failure(e)
      case Success(out) => Then(Extension(out), EmbedAll(batches[1..], provider))
  }

  /** What one batch adds to the output: its list of vectors, or the single
      vector wrapped in a list. */
  function Extension(out: Output): seq<Vector> {
    if out.All? then out.vectors else [out.vector]
  }

  /** `vs` followed by the result of the remaining requests. */
  function Then(vs: seq<Vector>, rest: Result<seq<Vector>, Error>): Result<seq<Vector>, Error> {
    match rest
    case Failure(e) => Failure(e)
    case Success(more) => Success(vs + more)
  }

  lemma ThenNil(rest: Result<seq<Vector>, Error>)
    ensures Then([], rest) == rest
  {
    if rest.Success? {
      assert [] + rest.value == rest.value;
    }
  }

  lemma ThenAssoc(a: seq<Vector>, b: seq<Vector>, rest: Result<seq<Vector>, Error>)
    ensures Then(a, Then(b, rest)) == Then(a + b, rest)
  {
    if rest.Success? {
      assert a + (b + rest.value) == (a + b) + rest.value;
    }
  }

  /** The counts logged after each batch of `size` out of `n` texts, in the
      order logged: each is the previous one plus `size`, capped at `n`. */
  predicate ProgressSteps(progress: seq<nat>, size: nat, n: nat) {
    && (progress != [] ==> progress[0] == Min(size, n))
    && forall j :: 0 <= j < |progress| - 1 ==>
         progress[j] < n && progress[j + 1] == Min(progress[j] + size, n)
  }

  lemma ProgressStepsAppend(progress: seq<nat>, next: nat, size: nat, n: nat)
    requires ProgressSteps(progress, size, n)
    requires progress == [] ==> next == Min(size, n)
    requires progress != [] ==> progress[|progress| - 1] < n && next == Min(progress[|progress| - 1] + size, n)
    ensures ProgressSteps(progress + [next], size, n)
  {
    var p := progress + [next];
    forall j | 0 <= j < |p| - 1 ensures p[j] < n && p[j + 1] == Min(p[j] + size, n) {
      if j < |progress| - 1 { assert p[j] == progress[j] && p[j + 1] == progress[j + 1]; }
    }
  }

  /** Such a log holds `min((j + 1) * size, n)` at position `j` and rises strictly. */
  lemma {:induction false} ProgressClosedForm(progress: seq<nat>, size: nat, n: nat)
    requires size >= 1 && ProgressSteps(progress, size, n)
    ensures forall j :: 0 <= j < |progress| ==> progress[j] == Min((j + 1) * size, n)
    ensures forall j :: 0 <= j < |progress| - 1 ==> progress[j] < progress[j + 1]
    decreases |progress|
  {
    if |progress| > 1 {
      var k := |progress| - 1;
      var prev := progress[..k];
      assert ProgressSteps(prev, size, n) by {
        forall j | 0 <= j < k - 1 ensures prev[j] < n && prev[j + 1] == Min(prev[j] + size, n) {
          assert prev[j] == progress[j] && prev[j + 1] == progress[j + 1];
        }
      }
      ProgressClosedForm(prev, size, n);
      MulStep(k, size);
      forall j | 0 <= j < |progress| ensures progress[j] == Min((j + 1) * size, n) {
        if j < k { assert progress[j] == prev[j]; } else { assert progress[k - 1] == prev[k - 1]; }
      }
    }
  }

  /** `get_batch_embeddings`: rejects an empty list, then embeds
      `texts[i:i + batchSize]` for `i` in `range(0, n, batchSize)`, extending the
      output with each batch's vectors; the first failing batch's error is
      raised. `progress` holds the counts logged after each batch. */
  method GetBatchEmbeddings(texts: seq<string>, batchSize: int, provider: Provider)
    returns (r: Result<seq<Vector>, Error>, ghost progress: seq<nat>)
    requires batchSize >= 1
    ensures texts == [] ==> r == Failure(EmptyInput)
    ensures texts != [] ==> r == EmbedAll(Batches(texts, batchSize), provider)
    ensures ProgressSteps(progress, batchSize, |texts|)
    ensures r.Success? && texts != [] ==> progress != [] && progress[|progress| - 1] == |texts|
  {
    progress := [];
    if texts == [] {
      return Failure(EmptyInput), progress;
    }
    var n := |texts|;
    var all: seq<Vector> := [];
    var i := 0;
    ThenNil(EmbedAll(Batches(texts, batchSize), provider));
    while i < n
      invariant 0 <= i
      invariant progress == [] ==> i == 0
      invariant progress != [] ==> progress[|progress| - 1] == Min(i, n)
      invariant ProgressSteps(progress, batchSize, n)
      invariant EmbedAll(Batches(texts, batchSize), provider)
        == Then(all, EmbedAll(BatchesFrom(texts, i, batchSize), provider))
      decreases n - i
    {
      var end := Min(i + batchSize, n);
      var batch := texts[i..end];
      ghost var later := BatchesFrom(texts, i + batchSize, batchSize);
      assert BatchesFrom(texts, i, batchSize) == [batch] + later;
      assert ([batch] + later)[0] == batch && ([batch] + later)[1..] == later;
      var out := GetEmbedding(Many(batch), provider);
      if out.Failure? {
        return Failure(out.error), progress;
      }
      var vs := Extension(out.value);
      ThenAssoc(all, vs, EmbedAll(later, provider));
      all := all + vs;
      ProgressStepsAppend(progress, end, batchSize, n);
      progress := progress + [end];
      i := i + batchSize;
    }
    r := Success(all);
    assert all + [] == all;
  }

  /** `EmbedAll` on a first batch and the rest. */
  lemma EmbedAllCons(batch: seq<string>, later: seq<seq<string>>, provider: Provider)
    ensures var out := GetEmbedding(Many(batch), provider);
      && (out.Failure? ==> EmbedAll([batch] + later, provider) == Failure(out.error))
      && (out.Success? ==> EmbedAll([batch] + later, provider) == Then(Extension(out.value), EmbedAll(later, provider)))
  {
    assert ([batch] + later)[0] == batch && ([batch] + later)[1..] == later;
  }

  /** Every text of `batch` has characters other than whitespace. */
  predicate NoneBlank(batch: seq<string>) {
    forall t :: t in batch ==> !IsBlank(t)
  }

  /** What `get_embedding` returns for a list under a pointwise provider. */
  function Expected(batch: seq<string>, f: string -> Vector): Result<Output, Error> {
    if batch != [] && NoneBlank(batch) then Success(All(Apply(f, batch))) else Failure(EmptyInput)
  }

  /** Under a pointwise provider each list yields its texts' vectors, or
      `EmptyInput` when it is empty or one of its texts is blank. */
  lemma BatchPointwise(provider: Provider, f: string -> Vector)
    requires Pointwise(provider, f)
    ensures forall batch :: GetEmbedding(Many(batch), provider) == Expected(batch, f)
  {
    forall batch ensures GetEmbedding(Many(batch), provider) == Expected(batch, f) {
      if batch != [] && NoneBlank(batch) {
        GetEmbeddingPointwise(Many(batch), provider, f);
      }
    }
  }

  /** The texts from `start` on are the batch `texts[start:end]` and the texts after it. */
  lemma SplitAt(texts: seq<string>, start: nat, end: nat, f: string -> Vector)
    requires start <= end <= |texts|
    ensures texts[start..] == texts[start..end] + texts[end..]
    ensures Apply(f, texts[start..]) == Apply(f, texts[start..end]) + Apply(f, texts[end..])
    ensures NoneBlank(texts[start..]) <==> NoneBlank(texts[start..end]) && NoneBlank(texts[end..])
  {
    assert texts[start..] == texts[start..end] + texts[end..];
    ApplyAppend(f, texts[start..end], texts[end..]);
    NoneBlankSplit(texts, start, end);
  }

  lemma NoneBlankSplit(texts: seq<string>, start: nat, end: nat)
    requires start <= end <= |texts|
    ensures NoneBlank(texts[start..]) <==> NoneBlank(texts[start..end]) && NoneBlank(texts[end..])
  {
    assert texts[start..] == texts[start..end] + texts[end..];
  }

  lemma {:induction false} EmbedFromPointwise(texts: seq<string>, start: nat, size: nat, provider: Provider, f: string -> Vector)
    requires size >= 1 && start <= |texts|
    requires forall batch :: GetEmbedding(Many(batch), provider) == Expected(batch, f)
    ensures EmbedAll(BatchesFrom(texts, start, size), provider).Success? <==> NoneBlank(texts[start..])
    ensures EmbedAll(BatchesFrom(texts, start, size), provider).Success? ==>
      EmbedAll(BatchesFrom(texts, start, size), provider).value == Apply(f, texts[start..])
    decreases |texts| - start
  {
    if start < |texts| {
      var end := Min(start + size, |texts|);
      var batch, later := texts[start..end], BatchesFrom(texts, start + size, size);
      assert BatchesFrom(texts, start, size) == [batch] + later;
      EmbedAllCons(batch, later, provider);
      SplitAt(texts, start, end, f);
      var whole, rest := EmbedAll([batch] + later, provider), EmbedAll(later, provider);
      if start + size < |texts| {
        assert end == start + size;
        EmbedFromPointwise(texts, end, size, provider, f);
      } else {
        assert later == [] && texts[end..] == [];
        assert rest == Success([]) && Apply(f, texts[end..]) == [];
      }
      assert GetEmbedding(Many(batch), provider) == Expected(batch, f);
      if NoneBlank(batch) {
        assert whole == Then(Apply(f, batch), rest);
      } else {
        assert whole == Failure(EmptyInput);
      }
    }
  }

  /** With a pointwise provider the batched embedding succeeds exactly when no
      text is blank, and then yields one vector per text, in input order. */
  lemma EmbedAllPointwise(texts: seq<string>, size: nat, provider: Provider, f: string -> Vector)
    requires size >= 1 && Pointwise(provider, f)
    ensures EmbedAll(Batches(texts, size), provider).Success? <==> NoneBlank(texts)
    ensures EmbedAll(Batches(texts, size), provider).Success? ==>
      EmbedAll(Batches(texts, size), provider).value == Apply(f, texts)
  {
    BatchPointwise(provider, f);
    EmbedFromPointwise(texts, 0, size, provider, f);
    assert texts[0..] == texts;
  }

  /** For any provider, a successful `get_embedding` on a list had a non-empty
      list without blank texts, and answered with a list of vectors. */
  lemma ManySuccess(batch: seq<string>, provider: Provider)
    requires GetEmbedding(Many(batch), provider).Success?
    ensures batch != [] && NoneBlank(batch)
    ensures GetEmbedding(Many(batch), provider).value.All?
  {}

  /** Whatever the provider answers, the batched requests succeed only when
      no text is blank: one blank text fails the whole call. */
  lemma {:induction false} EmbedAllNeedsNoBlank(texts: seq<string>, start: nat, size: nat, provider: Provider)
    requires size >= 1 && start <= |texts|
    requires EmbedAll(BatchesFrom(texts, start, size), provider).Success?
    ensures NoneBlank(texts[start..])
    decreases |texts| - start
  {
    if start < |texts| {
      var end := Min(start + size, |texts|);
      var batch, later := texts[start..end], BatchesFrom(texts, start + size, size);
      assert BatchesFrom(texts, start, size) == [batch] + later;
      EmbedAllCons(batch, later, provider);
      assert GetEmbedding(Many(batch), provider).Success?;
      ManySuccess(batch, provider);
      assert EmbedAll(later, provider).Success?;
      NoneBlankSplit(texts, start, end);
      if start + size < |texts| {
        assert end == start + size;
        EmbedAllNeedsNoBlank(texts, end, size, provider);
      } else {
        assert texts[end..] == [];
      }
    }
  }

  lemma BatchedNeedsNoBlank(texts: seq<string>, size: nat, provider: Provider)
    requires size >= 1 && EmbedAll(Batches(texts, size), provider).Success?
    ensures NoneBlank(texts)
  {
    EmbedAllNeedsNoBlank(texts, 0, size, provider);
    assert texts[0..] == texts;
  }

  /** The provider never answers with a zero vector. */
  ghost predicate AnswersNonZero(provider: Provider) {
    forall texts, item ::
      (&& provider(texts).Success? && "data" in provider(texts).value
       && item in provider(texts).value["data"] && "embedding" in item)
      ==> NonZero(item["embedding"])
  }

  /** ... so neither does `get_embedding` on a list. */
  lemma ManyNonZero(batch: seq<string>, provider: Provider)
    requires AnswersNonZero(provider) && GetEmbedding(Many(batch), provider).Success?
    ensures forall v :: v in Extension(GetEmbedding(Many(batch), provider).value) ==> NonZero(v)
  {
    var body := provider(batch).value;
    var items := body["data"];
    var vs := UnpackItems(items).value;
    forall v | v in vs ensures NonZero(v) {
      var k :| 0 <= k < |vs| && vs[k] == v;
      assert items[k] in items;
    }
  }

  /** ... nor the batched requests. */
  lemma {:induction false} EmbedAllNonZero(batches: seq<seq<string>>, provider: Provider)
    requires AnswersNonZero(provider) && EmbedAll(batches, provider).Success?
    ensures forall v :: v in EmbedAll(batches, provider).value ==> NonZero(v)
    decreases |batches|
  {
    if batches != [] {
      ManyNonZero(batches[0], provider);
      EmbedAllNonZero(batches[1..], provider);
    }
  }
}
