/**
 * core/utils/vector_logic.py, the older vector store: both artifacts sit directly in the local
 * directory `vectorstore`, as `name.index` and `name.pkl`; nothing is caught, so every failure
 * raises to the caller.
 */
module LegacyVectorStore {
  import opened Wrappers
  import opened Storage
  import VectorStore

  const VectorDir: string := "vectorstore"

  function IndexKey(name: string): string {
    VectorDir + "/" + name + ".index"
  }

  function TextKey(name: string): string {
    VectorDir + "/" + name + ".pkl"
  }

  /** Both artifacts sit directly in `vectorstore` under the name itself; distinct names never
      share a key, an index key is never a text key, and no key of this scheme is an index key
      of the newer one (those end in `.faiss`). */
  lemma LegacyKeys(a: string, b: string, s: Settings, c: string)
    ensures IndexKey(a)[..|VectorDir| + 1] == VectorDir + "/" && TextKey(a)[..|VectorDir| + 1] == VectorDir + "/"
    ensures IndexKey(a) != TextKey(b)
    ensures IndexKey(a) == IndexKey(b) ==> a == b
    ensures TextKey(a) == TextKey(b) ==> a == b
    ensures IndexKey(a) != VectorStore.FaissKey(s, c)
  {
    var ia, tb, fc := IndexKey(a), TextKey(b), VectorStore.FaissKey(s, c);
    assert ia[|ia| - 1] == 'x' && tb[|tb| - 1] == 'l' && fc[|fc| - 1] == 's';
    if IndexKey(a) == IndexKey(b) {
      assert |a| == |b|;
      assert IndexKey(a)[12..12 + |a|] == a;
      assert IndexKey(b)[12..12 + |b|] == b;
    }
    if TextKey(a) == TextKey(b) {
      assert |a| == |b|;
      assert TextKey(a)[12..12 + |a|] == a;
      assert TextKey(b)[12..12 + |b|] == b;
    }
  }

  // ---------------------------------------------------------------- embed_and_store

  /** What goes wrong, if anything: `model.encode` raises, or the `written`-th artifact write
      raises after `written` of them succeeded. */
  datatype StoreFault = NoStoreFault | EncodeRaises(msg: string) | WriteRaises(written: nat, msg: string)

  /** `embeddings.shape[1]` on the one-dimensional array an empty list encodes to. */
  const EmptyTextsError: string := "tuple index out of range"

  /** `embed_and_store(texts, name, model)`: `True`, or the exception it raises. */
  function EmbedOutcome(texts: seq<string>, fault: StoreFault): Result<bool> {
    if fault.EncodeRaises? then Err(fault.msg)
    else if texts == [] then Err(EmptyTextsError)
    else if fault.WriteRaises? && fault.written < 2 then Err(fault.msg)
    else Ok(true)
  }

  /** The store afterwards: `vectorstore` exists, and the index and the texts are written, or as
      many of them as succeed. */
  function EmbedState(st: StoreState, texts: seq<string>, name: string, fault: StoreFault): StoreState {
    var dirs := st.dirs + {VectorDir};
    if fault.EncodeRaises? || texts == [] then StoreState(st.files, dirs)
    else
      var written := if fault.WriteRaises? && fault.written < 2 then fault.written else 2;
      var f1 := if written >= 1 then st.files[IndexKey(name) := FaissIndex(|texts|)] else st.files;
      var f2 := if written >= 2 then f1[TextKey(name) := ChunkPickle(texts)] else f1;
      StoreState(f2, dirs)
  }

  method EmbedAndStore(store: Store, texts: seq<string>, name: string, fault: StoreFault)
    returns (outcome: Result<bool>)
    modifies store
    ensures outcome == EmbedOutcome(texts, fault)
    ensures store.State() == EmbedState(old(store.State()), texts, name, fault)
  {
    if VectorDir !in store.dirs {
      store.MakeDirs({VectorDir});
    }
    if fault.EncodeRaises? {
      return Err(fault.msg);
    }
    if texts == [] {
      return Err(EmptyTextsError);
    }
    var index := FaissIndex(|texts|);
    if fault.WriteRaises? && fault.written == 0 {
      return Err(fault.msg);
    }
    store.Write(IndexKey(name), index);
    if fault.WriteRaises? && fault.written == 1 {
      return Err(fault.msg);
    }
    store.Write(TextKey(name), ChunkPickle(texts));
    outcome := Ok(true);
  }

  /** A store that returns `True` has created `vectorstore` and saved the texts verbatim, one
      vector per text, under the name's two keys, and nothing else. */
  lemma EmbedPersistsTexts(st: StoreState, texts: seq<string>, name: string, fault: StoreFault)
    requires EmbedOutcome(texts, fault) == Ok(true)
    ensures var st' := EmbedState(st, texts, name, fault);
      && VectorDir in st'.dirs
      && st'.files == st.files[IndexKey(name) := FaissIndex(|texts|)][TextKey(name) := ChunkPickle(texts)]
      && st'.files[TextKey(name)].texts == texts
      && texts != []
  {
    LegacyKeys(name, name, Settings(false, "", "", ""), name);
  }

  // ---------------------------------------------------------------- search_similar_chunks

  const NotFoundSentinel: string := "Vector index or associated texts not found."

  /** Python's `IndexError` for a list index out of range. */
  const ListIndexError: string := "list index out of range"

  /** `texts[i]` with Python's negative indexing. */
  function PyIndex(texts: seq<string>, i: int): string
    requires -|texts| <= i < |texts|
  {
    if i < 0 then texts[|texts| + i] else texts[i]
  }

  /** `[texts[i] for i in ids if i < len(texts)]`: no lower bound, so a negative id counts from
      the end, and one below `-len(texts)` raises. */
  function LegacyCollect(texts: seq<string>, ids: seq<int>): (r: Result<seq<string>>)
    ensures r.Ok? ==> |r.value| <= |ids| && forall x :: x in r.value ==> x in texts
  {
    if ids == [] then Ok([])
    else
      var i := ids[0];
      var rest := LegacyCollect(texts, ids[1..]);
      if i >= |texts| then rest
      else if i < -|texts| then Err(ListIndexError)
      else if rest.Err? then rest
      else Ok([PyIndex(texts, i)] + rest.value)
  }

  /** `search_similar_chunks(query, name, model, top_k)`: `top_k` goes to FAISS unclamped, so
      for `top_k > ntotal` the neighbour list is padded with -1.  Nothing after the existence
      check is guarded: reading either artifact, encoding the query or FAISS's search raising
      (`loadFault`) escapes to the caller. */
  function Search(st: StoreState, name: string, topK: nat, ranking: seq<int>, loadFault: Option<string>): Result<seq<string>>
    requires topK >= 1
  {
    var ik, tk := IndexKey(name), TextKey(name);
    if ik !in st.files || tk !in st.files then Ok([NotFoundSentinel])
    else if loadFault.Some? then Err(loadFault.value)
    else if !st.files[tk].ChunkPickle? then Err(ListIndexError)
    else LegacyCollect(st.files[tk].texts, VectorStore.FaissNeighbours(ranking, topK))
  }

  /** Either missing artifact gives the one sentinel, without raising. */
  lemma MissingArtifactSentinel(st: StoreState, name: string, topK: nat, ranking: seq<int>, loadFault: Option<string>)
    requires topK >= 1
    ensures IndexKey(name) !in st.files || TextKey(name) !in st.files ==>
      Search(st, name, topK, ranking, loadFault) == Ok([NotFoundSentinel])
  {
  }

  /** On neighbours that all index the list, the legacy filter and the newer one agree. */
  lemma {:induction false} LegacyAgreesOnValidIds(texts: seq<string>, ids: seq<int>)
    requires forall k :: 0 <= k < |ids| ==> 0 <= ids[k]
    ensures LegacyCollect(texts, ids) == Ok(VectorStore.Collect(texts, ids))
  {
    if ids != [] {
      assert forall k :: 0 <= k < |ids| - 1 ==> ids[1..][k] == ids[k + 1];
      LegacyAgreesOnValidIds(texts, ids[1..]);
      var rest := VectorStore.Collect(texts, ids[1..]);
      if ids[0] < |texts| {
        assert VectorStore.Collect(texts, ids) == [texts[ids[0]]] + rest;
        assert LegacyCollect(texts, ids).value == [PyIndex(texts, ids[0])] + rest;
      } else {
        assert VectorStore.Collect(texts, ids) == [] + rest == rest;
      }
    }
  }

  /** There is no sentinel for "no results": when every neighbour lies beyond the text list,
      the search returns the empty list. */
  lemma {:induction false} LegacyMayReturnEmpty(texts: seq<string>, ids: seq<int>)
    requires forall k :: 0 <= k < |ids| ==> ids[k] >= |texts|
    ensures LegacyCollect(texts, ids) == Ok([])
  {
    if ids != [] {
      assert forall k :: 0 <= k < |ids| - 1 ==> ids[1..][k] == ids[k + 1];
      LegacyMayReturnEmpty(texts, ids[1..]);
      assert ids[0] >= |texts|;
      assert LegacyCollect(texts, ids) == LegacyCollect(texts, ids[1..]);
    }
  }

  /** Each -1 that pads the neighbour list adds the last text to the result once more, where
      the newer filter drops it. */
  lemma {:induction false} PaddingRepeatsLastText(texts: seq<string>, ids: seq<int>)
    requires texts != [] && LegacyCollect(texts, ids).Ok?
    ensures LegacyCollect(texts, ids + [-1]) == Ok(LegacyCollect(texts, ids).value + [texts[|texts| - 1]])
    ensures VectorStore.Collect(texts, ids + [-1]) == VectorStore.Collect(texts, ids)
  {
    VectorStore.CollectAppend(texts, ids, [-1]);
    if ids == [] {
      assert ids + [-1] == [-1];
      var r := LegacyCollect(texts, [-1]);
      assert LegacyCollect(texts, [-1][1..]) == Ok([]);
      assert r.value == [PyIndex(texts, -1)] + [];
      assert r.value == [texts[|texts| - 1]];
      assert VectorStore.Collect(texts, [-1]) == [] + VectorStore.Collect(texts, [-1][1..]) == [];
      assert LegacyCollect(texts, ids).value + [texts[|texts| - 1]] == [texts[|texts| - 1]];
      assert VectorStore.Collect(texts, ids) == [];
    } else {
      var padded := ids + [-1];
      assert padded[0] == ids[0];
      assert padded[1..] == ids[1..] + [-1];
      assert LegacyCollect(texts, ids[1..]).Ok?;
      PaddingRepeatsLastText(texts, ids[1..]);
      var tail := LegacyCollect(texts, ids[1..]).value;
      if ids[0] < |texts| {
        var head := [PyIndex(texts, ids[0])];
        assert LegacyCollect(texts, ids).value == head + tail;
        assert LegacyCollect(texts, padded).value == head + (tail + [texts[|texts| - 1]]);
        assert head + (tail + [texts[|texts| - 1]]) == (head + tail) + [texts[|texts| - 1]];
      }
    }
  }

  /** The concrete case: two stored texts, FAISS ranking the second first, `top_k = 3`.  The
      legacy search returns the second text twice; the newer search clamps `k` to 2 and returns
      each text once. */
  lemma PaddedSearchDuplicates()
    ensures var st := StoreState(map[IndexKey("kb_1") := FaissIndex(2), TextKey("kb_1") := ChunkPickle(["a", "b"])], {VectorDir});
      Search(st, "kb_1", 3, [1, 0], None) == Ok(["b", "a", "b"])
    ensures VectorStore.Retrieve(["a", "b"], 2, 3, [1, 0]) == ["b", "a"]
  {
    var st := StoreState(map[IndexKey("kb_1") := FaissIndex(2), TextKey("kb_1") := ChunkPickle(["a", "b"])], {VectorDir});
    LegacyKeys("kb_1", "kb_1", Settings(false, "", "", ""), "kb_1");
    var ids := VectorStore.FaissNeighbours([1, 0], 3);
    assert ids == [1, 0, -1];
    assert ids[1..] == [0, -1] && ids[2..] == [-1] && ids[3..] == [];
    assert st.files[TextKey("kb_1")] == ChunkPickle(["a", "b"]);
    var texts := ["a", "b"];
    var r3, r2, r1 := LegacyCollect(texts, ids[2..]), LegacyCollect(texts, ids[1..]), LegacyCollect(texts, ids);
    assert LegacyCollect(texts, ids[3..]) == Ok([]);
    assert r3.value == [PyIndex(texts, -1)] + [] == ["b"];
    assert r2.value == [PyIndex(texts, 0)] + ["b"] == ["a", "b"];
    assert r1.value == [PyIndex(texts, 1)] + ["a", "b"] == ["b", "a", "b"];
    var k := VectorStore.FaissNeighbours([1, 0], 2);
    assert k == [1, 0] && k[1..] == [0] && k[2..] == [];
    assert VectorStore.Collect(["a", "b"], [0]) == ["a"];
    assert VectorStore.Collect(["a", "b"], k) == ["b", "a"];
  }
}
