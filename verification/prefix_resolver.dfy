/** Resolving a prompt's prefix hashes against the live cached row, in place. */
module PrefixResolver {
  import opened Wrappers
  import opened PrefixHashes
  import opened PrefixCache
  import opened PerRequestStores

  const PREFIX_HASH_KEY := "prefix_hashes"

  predicate HasRow(data: Rows, rid: string) {
    rid in data && PREFIX_HASH_KEY in data[rid] && data[rid][PREFIX_HASH_KEY].Cached?
  }

  function RowAt(data: Rows, rid: string): Checkpoint
    requires HasRow(data, rid)
  {
    data[rid][PREFIX_HASH_KEY].checkpoint
  }

  ghost function Checkpoints(data: Rows): set<Checkpoint> {
    set rid | rid in data && HasRow(data, rid) :: RowAt(data, rid)
  }

  /** Only checkpoints are stored under the key, and each request has its own. */
  ghost predicate Separate(data: Rows) {
    && (forall rid | rid in data && PREFIX_HASH_KEY in data[rid] :: HasRow(data, rid))
    && (forall a, b | HasRow(data, a) && HasRow(data, b) && a != b :: RowAt(data, a) != RowAt(data, b))
  }

  /** The cache as the model sees it. */
  ghost function CacheRows(data: Rows): (m: map<string, Row>)
    reads Checkpoints(data)
    ensures forall rid :: rid in m <==> HasRow(data, rid)
    ensures forall rid | rid in m :: m[rid] == RowAt(data, rid).View()
  {
    map rid | rid in data && HasRow(data, rid) :: RowAt(data, rid).View()
  }

  ghost function Cache(blockSize: Option<int>, data: Rows): CacheState
    reads Checkpoints(data)
  {
    CacheState(blockSize, CacheRows(data))
  }

  /** The answer is the cache's answer, and the table afterwards is the cache's next state,
      less what was evicted to make room. */
  method ResolvePrefixHashes(h: BlockHasher, prompt: Prompt, rid: string, blockSize: Option<int>, store: PerRequestStore)
    returns (r: Answer, ghost gone: set<string>)
    requires store.Valid() && Separate(store.data)
    modifies store, Checkpoints(store.data)
    ensures store.Valid() && Separate(store.data)
    ensures r == AnswerTo(h, old(Cache(blockSize, store.data)), rid, prompt)
    ensures MayGo(old(store.data), rid, gone, store.maxSize)
    ensures Cache(blockSize, store.data)
            == Step(h, Step(h, old(Cache(blockSize, store.data)), Ask(rid, prompt)), Evict(gone))
    ensures OthersKept(old(store.data), store.data)
  {
    NothingWritten(store.data, rid, store.maxSize);
    hide Separate, Extended, Recompute, OthersKept, MayGo;
    gone := {};
    ghost var before := Cache(blockSize, store.data);
    if blockSize.None? || blockSize.value <= 0 {
      assert before.rows - gone == before.rows;
      return Ok([]), gone;
    }
    var size := blockSize.value;
    var cached := if rid != "" then store.Get(rid, PREFIX_HASH_KEY) else None;
    AskMeans(h, before, rid, prompt);
    hide Step, AnswerTo;
    if cached.Some? {
      LiveRow(store.data, rid);
      if |prompt| / size >= |RowAt(store.data, rid).hashStrs| {
        r := ExtendCached(h, prompt, size, rid, store);
        hide CacheRows;
        EvictMeans(h, Step(h, before, Ask(rid, prompt)), gone);
        assert CacheRows(store.data) - gone == CacheRows(store.data);
        return r, gone;
      }
    }
    assert Resolved(h, size, CachedRow(before, rid), prompt) == Recompute(h, size, prompt);
    hide CacheRows;
    r, gone := StoreFresh(h, prompt, size, rid, store);
    EvictMeans(h, Step(h, before, Ask(rid, prompt)), gone);
    assert before.rows - {} == before.rows;
  }

  /** A hit: the live row is extended where it is, so nothing is written back. */
  method ExtendCached(h: BlockHasher, prompt: Prompt, size: nat, rid: string, store: PerRequestStore) returns (r: Answer)
    requires 0 < size && Separate(store.data) && HasRow(store.data, rid)
    requires |RowAt(store.data, rid).hashStrs| <= |prompt| / size
    modifies RowAt(store.data, rid)
    ensures match Extended(h, size, old(RowAt(store.data, rid).View()), prompt)
            case Err(e) => r == Err(e) && CacheRows(store.data) == old(CacheRows(store.data))
            case Ok(v) => r == Ok(v.hashes) && CacheRows(store.data) == old(CacheRows(store.data))[rid := v]
  {
    LiveRow(store.data, rid);
    hide Separate, Extended;
    r := ExtendRow(h, prompt, size, RowAt(store.data, rid));
  }

  lemma AskMeans(h: BlockHasher, s: CacheState, rid: string, prompt: Prompt)
    requires SizeKnown(s.blockSize)
    ensures var r := Resolved(h, s.blockSize.value, CachedRow(s, rid), prompt);
            && AnswerTo(h, s, rid, prompt) == (if r.Ok? then Ok(r.value.hashes) else Err(r.error))
            && Step(h, s, Ask(rid, prompt)) == (if r.Ok? && rid != "" then s.(rows := s.rows[rid := r.value]) else s)
  {
  }

  lemma EvictMeans(h: BlockHasher, s: CacheState, gone: set<string>)
    ensures Step(h, s, Evict(gone)) == s.(rows := s.rows - gone)
  {
  }

  lemma LiveRow(data: Rows, rid: string)
    requires Separate(data) && rid in data && PREFIX_HASH_KEY in data[rid]
    ensures HasRow(data, rid) && RowAt(data, rid) in Checkpoints(data)
    ensures forall q | HasRow(data, q) && q != rid :: RowAt(data, q) != RowAt(data, rid)
  {
  }

  /** The live row grows in place. */
  method ExtendRow(h: BlockHasher, prompt: Prompt, size: nat, row: Checkpoint) returns (r: Answer)
    requires 0 < size && |row.hashStrs| <= |prompt| / size
    modifies row
    ensures match Extended(h, size, old(row.View()), prompt)
            case Err(e) => r == Err(e) && row.View() == old(row.View())
            case Ok(v) => r == Ok(v.hashes) && row.View() == v
  {
    var tail := HashIncrementally(h, prompt, size, row.parentHash, |row.hashStrs|);
    if tail.Err? {
      return Err(tail.error);
    }
    row.hashStrs := row.hashStrs + Texts(h, tail.value.0);
    row.parentHash := tail.value.1;
    return Ok(row.hashStrs);
  }

  /** A miss or a shrunk prompt: hash everything and store a new row. */
  method StoreFresh(h: BlockHasher, prompt: Prompt, size: nat, rid: string, store: PerRequestStore)
    returns (r: Answer, ghost gone: set<string>)
    requires 0 < size && store.Valid() && Separate(store.data)
    modifies store
    ensures store.Valid() && Separate(store.data)
    ensures MayGo(old(store.data), rid, gone, store.maxSize)
    ensures match Recompute(h, size, prompt)
            case Err(e) => r == Err(e) && gone == {} && CacheRows(store.data) == old(CacheRows(store.data))
            case Ok(row) =>
              && r == Ok(row.hashes)
              && CacheRows(store.data)
                 == (if rid == "" then old(CacheRows(store.data)) else old(CacheRows(store.data))[rid := row]) - gone
    ensures OthersKept(old(store.data), store.data)
  {
    NothingWritten(store.data, rid, store.maxSize);
    hide Separate, CacheRows, OthersKept, MayGo, Recompute;
    gone := {};
    var whole := HashAll(h, prompt, size);
    assert CacheRows(store.data) == old(CacheRows(store.data));
    if whole.Err? {
      return Err(whole.error), gone;
    }
    var hashes := whole.value.hashes;
    if rid != "" {
      var row := new Checkpoint(hashes, whole.value.parent);
      gone := StoreRow(rid, row, store);
    } else {
      assert CacheRows(store.data) - gone == CacheRows(store.data);
    }
    return Ok(hashes), gone;
  }

  method HashAll(h: BlockHasher, prompt: Prompt, size: nat) returns (r: Result<Row>)
    requires 0 < size
    ensures r == Recompute(h, size, prompt)
  {
    hide PacksFrom, Chain, Extension, BlockAt, Texts;
    var whole := HashIncrementally(h, prompt, size, 0, 0);
    FromZero(h, prompt, size, |prompt| / size);
    if whole.Err? {
      return Err(whole.error);
    }
    return Ok(Row(Texts(h, whole.value.0), whole.value.1));
  }

  /** Put a new checkpoint under the request's id. */
  method StoreRow(rid: string, row: Checkpoint, store: PerRequestStore) returns (ghost gone: set<string>)
    requires store.Valid() && Separate(store.data) && row !in Checkpoints(store.data)
    modifies store
    ensures store.Valid() && Separate(store.data) && OthersKept(old(store.data), store.data)
    ensures MayGo(old(store.data), rid, gone, store.maxSize)
    ensures CacheRows(store.data) == old(CacheRows(store.data))[rid := old(row.View())] - gone
  {
    hide Separate, OthersKept, FieldsOf, MayGo;
    ghost var before := store.data;
    gone := store.Set(rid, PREFIX_HASH_KEY, Cached(row));
    assert rid !in gone by {
      assert MayGo(before, rid, gone, store.maxSize);
    }
    StoredSeparate(before, rid, row, gone);
    StoredOthers(before, rid, row, gone);
    StoredViews(before, rid, row, gone);
    assert CacheRows(before) == old(CacheRows(store.data));
  }

  function Stored(before: Rows, rid: string, row: Checkpoint, gone: set<string>): Rows {
    (before - gone)[rid := FieldsOf(before, rid)[PREFIX_HASH_KEY := Cached(row)]]
  }

  lemma StoredRows(before: Rows, rid: string, row: Checkpoint, gone: set<string>)
    ensures var after := Stored(before, rid, row, gone);
            && HasRow(after, rid) && RowAt(after, rid) == row
            && (forall q | q != rid :: HasRow(after, q) <==> q !in gone && HasRow(before, q))
            && (forall q | q != rid && HasRow(after, q) :: RowAt(after, q) == RowAt(before, q))
  {
  }

  lemma StoredViews(before: Rows, rid: string, row: Checkpoint, gone: set<string>)
    requires rid !in gone
    ensures CacheRows(Stored(before, rid, row, gone)) == CacheRows(before)[rid := row.View()] - gone
  {
    StoredRows(before, rid, row, gone);
    hide HasRow, RowAt, Checkpoint.View, Stored;
  }

  lemma StoredSeparate(before: Rows, rid: string, row: Checkpoint, gone: set<string>)
    requires Separate(before) && row !in Checkpoints(before)
    ensures Separate(Stored(before, rid, row, gone))
  {
    var after := Stored(before, rid, row, gone);
    forall q | q in after && PREFIX_HASH_KEY in after[q] ensures HasRow(after, q) {
      if q != rid {
        assert after[q] == before[q];
      }
    }
    StoredRows(before, rid, row, gone);
    forall q | HasRow(before, q) ensures RowAt(before, q) != row {
      assert RowAt(before, q) in Checkpoints(before);
    }
    hide HasRow, RowAt, Stored;
  }

  /** What is stored under other keys stays. */
  predicate OthersKept(before: Rows, after: Rows) {
    forall q | q in after :: after[q] - {PREFIX_HASH_KEY} == FieldsOf(before, q) - {PREFIX_HASH_KEY}
  }

  lemma NothingWritten(data: Rows, rid: string, maxSize: nat)
    ensures OthersKept(data, data) && MayGo(data, rid, {}, maxSize)
  {
  }

  lemma StoredOthers(before: Rows, rid: string, row: Checkpoint, gone: set<string>)
    ensures OthersKept(before, Stored(before, rid, row, gone))
  {
    var fields := FieldsOf(before, rid);
    assert fields[PREFIX_HASH_KEY := Cached(row)] - {PREFIX_HASH_KEY} == fields - {PREFIX_HASH_KEY};
  }

  lemma {:induction false} FromZero(h: BlockHasher, prompt: Prompt, size: nat, n: nat)
    requires 0 < size && n <= |prompt| / size
    ensures Extension(h, prompt, size, 0, 0, n) == Chain(h, prompt, size, n)
  {
    ContinuingIsStartingOver(h, prompt, size, 0, n);
    assert Chain(h, prompt, size, 0) == [];
  }
}
