/**
 * core/utils/vector/vector_logic.py: one flat FAISS index and the parallel list of chunk texts
 * per index name, stored as two artifacts under one parent (a local directory or a GCS blob
 * prefix).  The nearest-neighbour computation is FAISS's: it enters as `ranking`, the stored
 * positions in order of increasing distance, of which a search of `k` neighbours sees the first
 * `k`, padded with -1.
 */
module VectorStore {
  import opened Wrappers
  import opened Strings
  import opened Storage

  // ---------------------------------------------------------------- key derivation

  /** The common parent of the two artifacts of `name`: `GS_FAISS_PREFIX + name` on GCS,
      `BASE_DIR/faiss_data/name` on disk. */
  function ArtifactDir(s: Settings, name: string): string {
    if s.useGcs then s.gcsPrefix + name else LocalRoot(s) + "/" + name
  }

  function LocalRoot(s: Settings): string {
    s.baseDir + "/faiss_data"
  }

  /** `_get_vector_store_paths(name, use_gcs)`: the index key and the chunk-list key. */
  function VectorStorePaths(name: string, s: Settings): (paths: (string, string)) {
    (ArtifactDir(s, name) + "/" + name + ".faiss", ArtifactDir(s, name) + "/" + name + ".pkl")
  }

  function FaissKey(s: Settings, name: string): string {
    VectorStorePaths(name, s).0
  }

  function PickleKey(s: Settings, name: string): string {
    VectorStorePaths(name, s).1
  }

  lemma TwinInjective(d: string, a: string, b: string, ext: string)
    requires d + a + "/" + a + ext == d + b + "/" + b + ext
    ensures a == b
  {
    var x := d + a + "/" + a + ext;
    assert |a| == |b|;
    assert x[|d|..|d| + |a|] == a;
    assert (d + b + "/" + b + ext)[|d|..|d| + |b|] == b;
  }

  /** Both artifacts of a name sit directly under its parent, with the file names `name.faiss`
      and `name.pkl`; an index key is never a chunk-list key, and distinct names never share a
      key, on either backend. */
  lemma KeysAreDistinct(s: Settings, a: string, b: string)
    ensures var dir := ArtifactDir(s, a);
      && FaissKey(s, a) == dir + "/" + a + ".faiss"
      && PickleKey(s, a) == dir + "/" + a + ".pkl"
    ensures FaissKey(s, a) != PickleKey(s, b)
    ensures FaissKey(s, a) == FaissKey(s, b) ==> a == b
    ensures PickleKey(s, a) == PickleKey(s, b) ==> a == b
  {
    var fa, pb := FaissKey(s, a), PickleKey(s, b);
    assert fa[|fa| - 1] == 's' && pb[|pb| - 1] == 'l';
    var root := if s.useGcs then s.gcsPrefix else LocalRoot(s) + "/";
    assert ArtifactDir(s, a) == root + a && ArtifactDir(s, b) == root + b;
    if FaissKey(s, a) == FaissKey(s, b) {
      assert root + a + "/" + a + ".faiss" == root + b + "/" + b + ".faiss";
      TwinInjective(root, a, b, ".faiss");
    }
    if PickleKey(s, a) == PickleKey(s, b) {
      assert root + a + "/" + a + ".pkl" == root + b + "/" + b + ".pkl";
      TwinInjective(root, a, b, ".pkl");
    }
  }

  /** With `GS_FAISS_PREFIX` unset, the GCS keys of `name` are `faiss_indices/name/name.faiss`
      and `faiss_indices/name/name.pkl`. */
  lemma DefaultGcsKeys(s: Settings, name: string)
    requires s.useGcs && s.gcsPrefix == DefaultGcsPrefix
    ensures FaissKey(s, name) == "faiss_indices/" + name + "/" + name + ".faiss"
    ensures PickleKey(s, name) == "faiss_indices/" + name + "/" + name + ".pkl"
    ensures StartsWith(FaissKey(s, name), DefaultGcsPrefix) && StartsWith(PickleKey(s, name), DefaultGcsPrefix)
  {
  }

  // ---------------------------------------------------------------- embed_and_store

  /** A Python value passed as a chunk; only strings are accepted. */
  datatype PyValue = PyStr(s: string) | PyOther

  /** The `chunks` argument: a list, or anything else. */
  datatype ChunksArg = PyList(items: seq<PyValue>) | NotAList

  /** What goes wrong while storing, if anything: `model.encode` raises, or the `written`-th
      artifact write or upload raises after `written` of them succeeded. */
  datatype StoreFault = NoStoreFault | EncodeRaises(msg: string) | WriteRaises(written: nat, msg: string)

  datatype StoreOutcome =
    | RejectedChunks   // not a list of strings: prints an error, returns None
    | NoChunks         // an empty list: prints a warning, returns None
    | Persisted        // both artifacts written
    | Raised(msg: string)

  const MissingBucketError: string := "GS_BUCKET_NAME must be set in settings for GCS operations."

  predicate AllStrings(items: seq<PyValue>) {
    forall i :: 0 <= i < |items| ==> items[i].PyStr?
  }

  function Texts(items: seq<PyValue>): (texts: seq<string>)
    requires AllStrings(items)
    ensures |texts| == |items| && forall i :: 0 <= i < |items| ==> texts[i] == items[i].s
  {
    if items == [] then [] else [items[0].s] + Texts(items[1..])
  }

  /** What `embed_and_store(chunks, name, model)` returns or raises. */
  function EmbedOutcome(s: Settings, chunks: ChunksArg, fault: StoreFault): StoreOutcome {
    match chunks
    case NotAList => RejectedChunks
    case PyList(items) =>
      if !AllStrings(items) then RejectedChunks
      else if items == [] then NoChunks
      else if fault.EncodeRaises? then Raised(fault.msg)
      else if s.useGcs && s.bucketName == "" then Raised(MissingBucketError)
      else if fault.WriteRaises? && fault.written < 2 then Raised(fault.msg)
      else Persisted
  }

  /** Whether the call gets as far as writing artifacts. */
  predicate ReachesWrites(s: Settings, chunks: ChunksArg, fault: StoreFault) {
    var o := EmbedOutcome(s, chunks, fault);
    o.Persisted? || (o.Raised? && fault.WriteRaises? && o.msg == fault.msg && !(s.useGcs && s.bucketName == ""))
  }

  /** The store after `embed_and_store`: the local parent directory is created, then the index
      (one vector per chunk) and the chunk list are written, or as many of them as succeed. */
  function EmbedState(st: StoreState, s: Settings, chunks: ChunksArg, name: string, fault: StoreFault): StoreState
  {
    if !ReachesWrites(s, chunks, fault) then st
    else
      var texts := Texts(chunks.items);
      var written := if fault.WriteRaises? && fault.written < 2 then fault.written else 2;
      var dirs := if s.useGcs then st.dirs else st.dirs + {LocalRoot(s), ArtifactDir(s, name)};
      var f1 := if written >= 1 then st.files[FaissKey(s, name) := FaissIndex(|texts|)] else st.files;
      var f2 := if written >= 2 then f1[PickleKey(s, name) := ChunkPickle(texts)] else f1;
      StoreState(f2, dirs)
  }

  method EmbedAndStore(store: Store, s: Settings, chunks: ChunksArg, name: string, fault: StoreFault)
    returns (outcome: StoreOutcome)
    modifies store
    ensures outcome == EmbedOutcome(s, chunks, fault)
    ensures store.State() == EmbedState(old(store.State()), s, chunks, name, fault)
  {
    if chunks.NotAList? || !AllStrings(chunks.items) {
      return RejectedChunks;
    }
    if chunks.items == [] {
      return NoChunks;
    }
    if fault.EncodeRaises? {
      return Raised(fault.msg);
    }
    var texts := Texts(chunks.items);
    var index := FaissIndex(|texts|);
    if s.useGcs {
      if s.bucketName == "" {
        return Raised(MissingBucketError);
      }
    } else {
      store.MakeDirs({LocalRoot(s), ArtifactDir(s, name)});
    }
    if fault.WriteRaises? && fault.written == 0 {
      return Raised(fault.msg);
    }
    store.Write(FaissKey(s, name), index);
    if fault.WriteRaises? && fault.written == 1 {
      return Raised(fault.msg);
    }
    store.Write(PickleKey(s, name), ChunkPickle(texts));
    outcome := Persisted;
  }

  /** The guards: anything but a non-empty list of strings writes nothing and raises nothing. */
  lemma EmbedGuards(st: StoreState, s: Settings, chunks: ChunksArg, name: string, fault: StoreFault)
    requires chunks.NotAList? || !AllStrings(chunks.items) || chunks.items == []
    ensures EmbedState(st, s, chunks, name, fault) == st
    ensures EmbedOutcome(s, chunks, fault) == if chunks.PyList? && AllStrings(chunks.items)
      then NoChunks else RejectedChunks
  {
  }

  /** A successful store persists exactly the given chunks, one vector per chunk, under the
      name's two keys, and touches no other key; on GCS a missing bucket raises instead. */
  lemma EmbedPersistsChunks(st: StoreState, s: Settings, items: seq<PyValue>, name: string, fault: StoreFault)
    requires AllStrings(items) && items != []
    ensures var o, st' := EmbedOutcome(s, PyList(items), fault), EmbedState(st, s, PyList(items), name, fault);
      && (o == Persisted ==>
            && st'.files == st.files[FaissKey(s, name) := FaissIndex(|items|)][PickleKey(s, name) := ChunkPickle(Texts(items))]
            && Texts(items) == seq(|items|, i requires 0 <= i < |items| => items[i].s))
      && (s.useGcs && s.bucketName == "" && !fault.EncodeRaises? ==> o == Raised(MissingBucketError) && st' == st)
  {
  }

  // ---------------------------------------------------------------- search_similar_chunks

  const NoBucketSentinel: string := "Error retrieving knowledge base."
  const GcsNotFoundSentinel: string := "Knowledge base not found or error accessing cloud storage."
  const LocalNotFoundSentinel: string := "Knowledge base not found or not embedded."
  const LoadErrorSentinel: string := "Error processing knowledge base data."
  const NoDataSentinel: string := "No data in knowledge base."
  const EmptyIndexSentinel: string := "Knowledge base is empty."
  const NoResultsSentinel: string := "No relevant results found."

  predicate IsSentinel(x: string) {
    x in {NoBucketSentinel, GcsNotFoundSentinel, LocalNotFoundSentinel, LoadErrorSentinel,
          NoDataSentinel, EmptyIndexSentinel, NoResultsSentinel}
  }

  /** What goes wrong during a search, if anything: a GCS download raises, or reading the index
      or unpickling the texts raises (both caught and answered with a sentinel); or, outside any
      `try`, encoding the query (`model.encode`) or FAISS's `index.search` raises with `msg`. */
  datatype ReadFault = NoReadFault | DownloadFails | LoadFails
                     | EncodeRaises(msg: string) | IndexSearchRaises(msg: string)

  function Min(a: nat, b: nat): nat {
    if a <= b then a else b
  }

  /** FAISS's `index.search(q, k)[1][0]`: the first `k` entries of `ranking`, padded with -1 when
      there are fewer. */
  function FaissNeighbours(ranking: seq<int>, k: nat): (ids: seq<int>)
  {
    seq(k, i requires 0 <= i < k => if i < |ranking| then ranking[i] else -1)
  }

  /** `[texts[i] for i in ids if i >= 0 and i < len(texts)]`. */
  function Collect(texts: seq<string>, ids: seq<int>): (r: seq<string>)
    ensures |r| <= |ids|
    ensures forall x :: x in r ==> x in texts
  {
    if ids == [] then []
    else (if 0 <= ids[0] < |texts| then [texts[ids[0]]] else []) + Collect(texts, ids[1..])
  }

  /** The filter keeps neighbour order: it distributes over concatenation, so it is fixed by
      what it does to each single neighbour. */
  lemma {:induction false} CollectAppend(texts: seq<string>, a: seq<int>, b: seq<int>)
    ensures Collect(texts, a + b) == Collect(texts, a) + Collect(texts, b)
  {
    if a == [] {
      assert a + b == b;
    } else {
      assert (a + b)[0] == a[0];
      assert (a + b)[1..] == a[1..] + b;
      CollectAppend(texts, a[1..], b);
    }
  }

  lemma CollectSingle(texts: seq<string>, i: int)
    ensures Collect(texts, [i]) == if 0 <= i < |texts| then [texts[i]] else []
  {
  }

  /** The part of a search after the artifacts are loaded. */
  function Retrieve(texts: seq<string>, ntotal: nat, topK: nat, ranking: seq<int>): seq<string> {
    if texts == [] then [NoDataSentinel]
    else if ntotal == 0 then [EmptyIndexSentinel]
    else
      var results := Collect(texts, FaissNeighbours(ranking, Min(topK, ntotal)));
      if results == [] then [NoResultsSentinel] else results
  }

  /** Whether both artifacts can be fetched and read. */
  predicate Loadable(st: StoreState, s: Settings, name: string, fault: ReadFault) {
    var fk, pk := FaissKey(s, name), PickleKey(s, name);
    && !(s.useGcs && s.bucketName == "")
    && fk in st.files && pk in st.files
    && !(s.useGcs && fault == DownloadFails)
    && fault != LoadFails
    && st.files[fk].FaissIndex? && st.files[pk].ChunkPickle?
  }

  /** Whether the search gets past loading to an exception it does not catch: the query is
      encoded once the chunk list is known to be non-empty, and FAISS is searched once the index
      is known to be non-empty. */
  predicate Raises(st: StoreState, s: Settings, name: string, fault: ReadFault) {
    && Loadable(st, s, name, fault)
    && st.files[PickleKey(s, name)].texts != []
    && (fault.EncodeRaises? || (fault.IndexSearchRaises? && st.files[FaissKey(s, name)].ntotal > 0))
  }

  /** `search_similar_chunks(query, name, model, top_k)`; callers pass `top_k=3` or the
      default 1, and FAISS rejects `k = 0`.  `Err(msg)` is an exception escaping to the caller. */
  function Search(st: StoreState, s: Settings, name: string, topK: nat, ranking: seq<int>, fault: ReadFault): Result<seq<string>>
    requires topK >= 1
  {
    var fk, pk := FaissKey(s, name), PickleKey(s, name);
    if s.useGcs && s.bucketName == "" then Ok([NoBucketSentinel])
    else if s.useGcs && (fk !in st.files || pk !in st.files || fault == DownloadFails) then Ok([GcsNotFoundSentinel])
    else if !s.useGcs && (fk !in st.files || pk !in st.files) then Ok([LocalNotFoundSentinel])
    else if fault == LoadFails || !st.files[fk].FaissIndex? || !st.files[pk].ChunkPickle? then Ok([LoadErrorSentinel])
    else if st.files[pk].texts != [] && fault.EncodeRaises? then Err(fault.msg)
    else if st.files[pk].texts != [] && st.files[fk].ntotal > 0 && fault.IndexSearchRaises? then Err(fault.msg)
    else Ok(Retrieve(st.files[pk].texts, st.files[fk].ntotal, topK, ranking))
  }

  /** A search raises exactly when it gets past loading to a failing encode or FAISS search;
      otherwise it never returns an empty list: it is either results or one sentinel string, and
      missing artifacts give the not-found sentinel of the backend rather than an error. */
  lemma SearchNeverEmpty(st: StoreState, s: Settings, name: string, topK: nat, ranking: seq<int>, fault: ReadFault)
    requires topK >= 1
    ensures var r := Search(st, s, name, topK, ranking, fault);
      && (r.Err? <==> Raises(st, s, name, fault))
      && (r.Err? ==> r.error == fault.msg)
      && (r.Ok? ==> r.value != [])
      && (!Loadable(st, s, name, fault) ==> r.Ok? && |r.value| == 1 && IsSentinel(r.value[0]))
      && (var fk, pk := FaissKey(s, name), PickleKey(s, name);
          !(s.useGcs && s.bucketName == "") && (fk !in st.files || pk !in st.files) ==>
            r == Ok([if s.useGcs then GcsNotFoundSentinel else LocalNotFoundSentinel]))
  {
  }

  /** When the artifacts load, the result is the sentinel for no data, for an empty index or for
      no usable neighbour, or at most `min(top_k, ntotal)` stored chunks: those of the first
      `min(top_k, ntotal)` neighbours that index the chunk list, in neighbour order. */
  lemma SearchReturnsStoredChunks(st: StoreState, s: Settings, name: string, topK: nat, ranking: seq<int>, fault: ReadFault)
    requires topK >= 1 && Loadable(st, s, name, fault) && !Raises(st, s, name, fault)
    ensures var r := Search(st, s, name, topK, ranking, fault);
      var texts, ntotal := st.files[PickleKey(s, name)].texts, st.files[FaissKey(s, name)].ntotal;
      var k := Min(topK, ntotal);
      || (texts == [] && r == Ok([NoDataSentinel]))
      || (texts != [] && ntotal == 0 && r == Ok([EmptyIndexSentinel]))
      || (texts != [] && ntotal > 0 && Collect(texts, FaissNeighbours(ranking, k)) == [] && r == Ok([NoResultsSentinel]))
      || (&& r == Ok(Collect(texts, FaissNeighbours(ranking, k)))
          && 0 < |r.value| <= k && k <= topK && k <= ntotal
          && forall x :: x in r.value ==> x in texts)
  {
  }

  /** A search right after a successful store reads back the stored chunks: the best-ranked
      neighbour's chunk comes first (the identity round trip of a query equal to a chunk). */
  lemma StoreThenSearch(st: StoreState, s: Settings, items: seq<PyValue>, name: string, topK: nat, ranking: seq<int>)
    requires AllStrings(items) && items != [] && topK >= 1
    requires EmbedOutcome(s, PyList(items), NoStoreFault) == Persisted
    requires |ranking| >= 1 && 0 <= ranking[0] < |items|
    ensures var r := Search(EmbedState(st, s, PyList(items), name, NoStoreFault), s, name, topK, ranking, NoReadFault);
      r.Ok? && r.value != [] && r.value[0] == items[ranking[0]].s
  {
    var st' := EmbedState(st, s, PyList(items), name, NoStoreFault);
    KeysAreDistinct(s, name, name);
    var texts := Texts(items);
    assert st'.files[PickleKey(s, name)] == ChunkPickle(texts);
    assert st'.files[FaissKey(s, name)] == FaissIndex(|items|);
    var k := Min(topK, |items|);
    var ids := FaissNeighbours(ranking, k);
    assert ids == [ids[0]] + ids[1..];
    CollectAppend(texts, [ids[0]], ids[1..]);
  }

  /** A search right after storing a single chunk returns exactly that chunk when FAISS ranks
      its vector first. */
  lemma StoreOneThenSearch(st: StoreState, s: Settings, text: string, name: string, topK: nat, ranking: seq<int>)
    requires topK >= 1 && !(s.useGcs && s.bucketName == "")
    requires |ranking| >= 1 && ranking[0] == 0
    ensures Search(EmbedState(st, s, PyList([PyStr(text)]), name, NoStoreFault), s, name, topK, ranking, NoReadFault) == Ok([text])
  {
    var items := [PyStr(text)];
    var st' := EmbedState(st, s, PyList(items), name, NoStoreFault);
    StoreThenSearch(st, s, items, name, topK, ranking);
    KeysAreDistinct(s, name, name);
    assert st'.files[FaissKey(s, name)] == FaissIndex(1);
    assert Texts(items) == [text];
    assert Loadable(st', s, name, NoReadFault);
    SearchReturnsStoredChunks(st', s, name, topK, ranking, NoReadFault);
  }

  // ---------------------------------------------------------------- delete_vector_store

  /** The store after `delete_vector_store(name)`: without a bucket on GCS nothing is removed;
      otherwise each artifact that exists is removed unless removing it fails (`failing`), and
      locally the parent directory is removed when it exists and is then empty. */
  function DeleteState(st: StoreState, s: Settings, name: string, failing: set<string>): StoreState {
    var keys := {FaissKey(s, name), PickleKey(s, name)} - failing;
    if s.useGcs then
      if s.bucketName == "" then st else StoreState(st.files - keys, st.dirs)
    else
      var files := st.files - keys;
      var d := ArtifactDir(s, name);
      var removeDir := d in st.dirs && DirIsEmpty(StoreState(files, st.dirs), d) && d !in failing;
      StoreState(files, if removeDir then st.dirs - {d} else st.dirs)
  }

  method Delete(store: Store, s: Settings, name: string, failing: set<string>)
    modifies store
    ensures store.State() == DeleteState(old(store.State()), s, name, failing)
  {
    if s.useGcs && s.bucketName == "" {
      return;
    }
    var keys := [FaissKey(s, name), PickleKey(s, name)];
    for i := 0 to |keys|
      invariant store.dirs == old(store.dirs)
      invariant store.files == old(store.files) - (set j | 0 <= j < i && keys[j] !in failing :: keys[j])
    {
      if keys[i] in store.files && keys[i] !in failing {
        store.Remove(keys[i]);
      }
    }
    var removed := set j | 0 <= j < 2 && keys[j] !in failing :: keys[j];
    assert keys[0] !in failing ==> keys[0] in removed;
    assert keys[1] !in failing ==> keys[1] in removed;
    assert removed == {FaissKey(s, name), PickleKey(s, name)} - failing;
    if !s.useGcs {
      var d := ArtifactDir(s, name);
      if d in store.dirs && DirIsEmpty(store.State(), d) && d !in failing {
        store.RemoveDir(d);
      }
    }
  }

  /** Delete is idempotent: a second call after an unfailing one changes nothing. */
  lemma DeleteIdempotent(st: StoreState, s: Settings, name: string)
    ensures var once := DeleteState(st, s, name, {});
      DeleteState(once, s, name, {}) == once
  {
    var keys := {FaissKey(s, name), PickleKey(s, name)};
    var once := DeleteState(st, s, name, {});
    if !(s.useGcs && s.bucketName == "") {
      assert once.files - keys == once.files;
    }
  }

  /** Delete removes the name's two artifacts (unless removing one fails) and nothing else;
      with no bucket on GCS it removes nothing. */
  lemma DeleteRemovesOnlyArtifacts(st: StoreState, s: Settings, name: string, failing: set<string>)
    ensures var r := DeleteState(st, s, name, failing);
      var fk, pk := FaissKey(s, name), PickleKey(s, name);
      && (s.useGcs && s.bucketName == "" ==> r == st)
      && (forall k :: k in st.files && k != fk && k != pk ==> k in r.files && r.files[k] == st.files[k])
      && (forall k :: k in r.files ==> k in st.files && r.files[k] == st.files[k])
      && (!(s.useGcs && s.bucketName == "") ==> (fk !in failing ==> fk !in r.files) && (pk !in failing ==> pk !in r.files))
      && r.dirs <= st.dirs && st.dirs - r.dirs <= {ArtifactDir(s, name)}
  {
  }

  /** After a delete, a search for the same name finds nothing and says so, without raising
      whatever the fault: it stops before the query is encoded. */
  lemma DeleteThenSearch(st: StoreState, s: Settings, name: string, topK: nat, ranking: seq<int>, fault: ReadFault)
    requires topK >= 1
    ensures var r := Search(DeleteState(st, s, name, {}), s, name, topK, ranking, fault);
      r == Ok([if !s.useGcs then LocalNotFoundSentinel
            else if s.bucketName == "" then NoBucketSentinel
            else GcsNotFoundSentinel])
  {
  }
}
