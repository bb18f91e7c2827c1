/** The per-request prefix-hash cache: each turn hashes only the blocks appended since the last one. */
module PrefixCache {
  import opened Wrappers
  import opened PrefixHashes

  /** A cached chain and its head. */
  datatype Row = Row(hashes: seq<string>, parent: Digest)

  datatype CacheState = CacheState(blockSize: Option<int>, rows: map<string, Row>)

  type Answer = Result<seq<string>>

  function Texts(h: BlockHasher, hashes: seq<Digest>): (r: seq<string>)
    ensures |r| == |hashes|
    ensures forall i | 0 <= i < |hashes| :: r[i] == h.text(hashes[i])
  {
    seq(|hashes|, i requires 0 <= i < |hashes| => h.text(hashes[i]))
  }

  /** Hash every full block of the prompt, using no cache. */
  function Recompute(h: BlockHasher, size: nat, prompt: Prompt): Result<Row>
    requires 0 < size
  {
    if !PacksFrom(prompt, size, 0) then Err(PackFailed)
    else
      var chain := Chain(h, prompt, size, |prompt| / size);
      Ok(Row(Texts(h, chain), Head(chain, 0)))
  }

  predicate SizeKnown(size: Option<int>) {
    size.Some? && size.value > 0
  }

  /** What a caller without a cache would be told. */
  function FromScratch(h: BlockHasher, size: Option<int>, prompt: Prompt): Answer {
    if !SizeKnown(size) then Ok([])
    else match Recompute(h, size.value, prompt)
         case Err(e) => Err(e)
         case Ok(row) => Ok(row.hashes)
  }

  /** Extend a cached row by the prompt's further blocks. */
  function Extended(h: BlockHasher, size: nat, row: Row, prompt: Prompt): Result<Row>
    requires 0 < size && |row.hashes| <= |prompt| / size
  {
    if !PacksFrom(prompt, size, |row.hashes|) then Err(PackFailed)
    else
      var tail := Extension(h, prompt, size, row.parent, |row.hashes|, |prompt| / size);
      Ok(Row(row.hashes + Texts(h, tail), Head(tail, row.parent)))
  }

  /** The row a prompt is answered from. An empty request id is never cached. */
  function Resolved(h: BlockHasher, size: nat, cached: Option<Row>, prompt: Prompt): Result<Row>
    requires 0 < size
  {
    if cached.Some? && |cached.value.hashes| <= |prompt| / size then Extended(h, size, cached.value, prompt)
    else Recompute(h, size, prompt)
  }

  function CachedRow(s: CacheState, rid: string): Option<Row> {
    if rid != "" && rid in s.rows then Some(s.rows[rid]) else None
  }

  datatype Event =
    | Learn(size: int)
    | Ask(rid: string, prompt: Prompt)
    | Evict(gone: set<string>)

  function AnswerTo(h: BlockHasher, s: CacheState, rid: string, prompt: Prompt): Answer {
    if !SizeKnown(s.blockSize) then Ok([])
    else match Resolved(h, s.blockSize.value, CachedRow(s, rid), prompt)
         case Err(e) => Err(e)
         case Ok(row) => Ok(row.hashes)
  }

  function Step(h: BlockHasher, s: CacheState, e: Event): CacheState {
    match e
    case Learn(size) => if s.blockSize.None? then s.(blockSize := Some(size)) else s
    case Evict(gone) => s.(rows := s.rows - gone)
    case Ask(rid, prompt) =>
      if !SizeKnown(s.blockSize) || rid == "" then s
      else match Resolved(h, s.blockSize.value, CachedRow(s, rid), prompt)
           case Err(_) => s
           case Ok(row) => s.(rows := s.rows[rid := row])
  }

  function Run(h: BlockHasher, events: seq<Event>): CacheState {
    if events == [] then CacheState(None, map[])
    else Step(h, Run(h, events[..|events| - 1]), events[|events| - 1])
  }

  /** The prompt each request id was last answered for, evicted since or not. */
  function Asked(h: BlockHasher, events: seq<Event>): map<string, Prompt> {
    if events == [] then map[]
    else
      var before := events[..|events| - 1];
      var e := events[|events| - 1];
      if e.Ask? && e.rid != "" && SizeKnown(Run(h, before).blockSize) && AnswerTo(h, Run(h, before), e.rid, e.prompt).Ok? then
        Asked(h, before)[e.rid := e.prompt]
      else Asked(h, before)
  }

  /** The ids answered for and not evicted since. An error neither adds one nor loses one. */
  function Live(h: BlockHasher, events: seq<Event>): set<string> {
    if events == [] then {}
    else
      var before := events[..|events| - 1];
      match events[|events| - 1]
      case Learn(_) => Live(h, before)
      case Evict(gone) => Live(h, before) - gone
      case Ask(rid, prompt) =>
        if rid != "" && SizeKnown(Run(h, before).blockSize) && AnswerTo(h, Run(h, before), rid, prompt).Ok? then
          Live(h, before) + {rid}
        else Live(h, before)
  }

  /** In every run exactly these ids are cached. */
  lemma {:induction false} LiveIdsAreCached(h: BlockHasher, events: seq<Event>)
    ensures Run(h, events).rows.Keys == Live(h, events)
    decreases |events|
  {
    hide Resolved;
    if events != [] {
      LiveIdsAreCached(h, events[..|events| - 1]);
    }
  }

  /** From one turn to the next a prompt keeps its full blocks or loses some of them. */
  predicate Keeps(size: nat, before: Prompt, after: Prompt)
    requires 0 < size
  {
    || |after| / size < |before| / size
    || forall i: nat | i < |before| / size :: BlockAt(after, size, i) == BlockAt(before, size, i)
  }

  /** A prompt asked for under a cached id keeps the blocks of the id's last prompt, unless a token in a
      later block cannot be packed, which is an error either way. */
  predicate AskKeeps(h: BlockHasher, events: seq<Event>, e: Event) {
    var s := Run(h, events);
    e.Ask? && SizeKnown(s.blockSize) && CachedRow(s, e.rid).Some? && e.rid in Asked(h, events) ==>
      var size, before := s.blockSize.value, Asked(h, events)[e.rid];
      Keeps(size, before, e.prompt) || !PacksFrom(e.prompt, size, |before| / size)
  }

  predicate Disciplined(h: BlockHasher, events: seq<Event>) {
    forall i | 0 <= i < |events| :: AskKeeps(h, events[..i], events[i])
  }

  lemma DisciplinedPrefix(h: BlockHasher, events: seq<Event>)
    requires events != [] && Disciplined(h, events)
    ensures Disciplined(h, events[..|events| - 1])
    ensures AskKeeps(h, events[..|events| - 1], events[|events| - 1])
  {
    var before := events[..|events| - 1];
    forall i | 0 <= i < |before| ensures AskKeeps(h, before[..i], before[i]) {
      assert before[..i] == events[..i];
    }
  }

  // ------------------------------------------------------- laws of every run, disciplined or not

  /** Once learned, the block size never changes. */
  lemma {:induction false} BlockSizeIsFinal(h: BlockHasher, events: seq<Event>, more: seq<Event>)
    requires Run(h, events).blockSize.Some?
    ensures Run(h, events + more).blockSize == Run(h, events).blockSize
    decreases |more|
  {
    if more == [] {
      assert events + more == events;
    } else {
      BlockSizeIsFinal(h, events, more[..|more| - 1]);
      assert (events + more)[..|events + more| - 1] == events + more[..|more| - 1];
    }
  }

  ghost predicate HeadCached(h: BlockHasher, row: Row) {
    if row.hashes == [] then row.parent == 0 else row.hashes[|row.hashes| - 1] == h.text(row.parent)
  }

  /** A cached parent hash is always the hash listed last, or 0 when none is listed. */
  lemma {:induction false} ParentIsLastHash(h: BlockHasher, events: seq<Event>, rid: string)
    requires rid in Run(h, events).rows
    ensures HeadCached(h, Run(h, events).rows[rid])
    decreases |events|
  {
    var before := events[..|events| - 1];
    if rid in Run(h, before).rows {
      ParentIsLastHash(h, before, rid);
    }
  }

  // --------------------------------------------------------------- the cache is transparent

  /** A row that is exactly what its prompt hashes to. */
  ghost predicate RowOf(h: BlockHasher, size: nat, row: Row, prompt: Prompt)
    requires 0 < size
  {
    Recompute(h, size, prompt) == Ok(row)
  }

  lemma TextsAppend(h: BlockHasher, a: seq<Digest>, b: seq<Digest>)
    ensures Texts(h, a + b) == Texts(h, a) + Texts(h, b)
  {
  }

  /** Extending the row of a prompt whose blocks are kept is recomputing. */
  lemma ExtendingRecomputes(h: BlockHasher, size: nat, row: Row, before: Prompt, after: Prompt)
    requires 0 < size && RowOf(h, size, row, before)
    requires |before| / size <= |after| / size
    requires forall i: nat | i < |before| / size :: BlockAt(after, size, i) == BlockAt(before, size, i)
    ensures Extended(h, size, row, after) == Recompute(h, size, after)
  {
    var n, m := |before| / size, |after| / size;
    assert PacksFrom(before, size, 0) && |row.hashes| == n;
    ChainOfPrefix(h, after, before, size, n);
    ContinuingIsStartingOver(h, after, size, n, m);
    TextsAppend(h, Chain(h, after, size, n), Extension(h, after, size, row.parent, n, m));
    assert PacksFrom(after, size, 0) <==> PacksFrom(after, size, n) by {
      if PacksFrom(after, size, n) {
        forall i: nat | i < m ensures Packs(BlockAt(after, size, i)) {
          if i < n {
            assert Packs(BlockAt(before, size, i));
          }
        }
      }
    }
  }

  lemma KeptRowRecomputes(h: BlockHasher, size: nat, cached: Option<Row>, before: Prompt, after: Prompt)
    requires 0 < size
    requires cached.Some? ==> RowOf(h, size, cached.value, before) && Keeps(size, before, after)
    ensures Resolved(h, size, cached, after) == Recompute(h, size, after)
  {
    if cached.Some? && |cached.value.hashes| <= |after| / size {
      ExtendingRecomputes(h, size, cached.value, before, after);
    }
  }

  lemma UnpackableFails(h: BlockHasher, size: nat, cached: Option<Row>, before: Prompt, after: Prompt)
    requires 0 < size && cached.Some? && RowOf(h, size, cached.value, before)
    requires !PacksFrom(after, size, |before| / size)
    ensures Resolved(h, size, cached, after) == Recompute(h, size, after) == Err(PackFailed)
  {
    hide BlockAt, Chain, Extension, Texts;
    var i: nat :| |before| / size <= i < |after| / size && !Packs(BlockAt(after, size, i));
    assert !PacksFrom(after, size, 0);
    assert |cached.value.hashes| == |before| / size;
  }

  /** An ask that meets the discipline is answered as if there were no cache. */
  lemma KeptIsRecomputed(h: BlockHasher, events: seq<Event>, e: Event)
    requires e.Ask? && SizeKnown(Run(h, events).blockSize)
    requires RowsCurrent(h, events) && AskKeeps(h, events, e)
    ensures var s := Run(h, events);
            Resolved(h, s.blockSize.value, CachedRow(s, e.rid), e.prompt) == Recompute(h, s.blockSize.value, e.prompt)
  {
    hide Resolved, Recompute, Keeps, PacksFrom, Run, Asked;
    var s := Run(h, events);
    var cached := CachedRow(s, e.rid);
    if cached.Some? {
      var before := Asked(h, events)[e.rid];
      if Keeps(s.blockSize.value, before, e.prompt) {
        KeptRowRecomputes(h, s.blockSize.value, cached, before, e.prompt);
      } else {
        UnpackableFails(h, s.blockSize.value, cached, before, e.prompt);
      }
    } else {
      KeptRowRecomputes(h, s.blockSize.value, cached, [], e.prompt);
    }
  }

  /** Every cached row is the row of the prompt its id was last asked with. */
  ghost predicate RowsOf(h: BlockHasher, s: CacheState, asked: map<string, Prompt>) {
    forall rid | rid in s.rows ::
      SizeKnown(s.blockSize) && rid in asked && RowOf(h, s.blockSize.value, s.rows[rid], asked[rid])
  }

  ghost predicate RowsCurrent(h: BlockHasher, events: seq<Event>) {
    RowsOf(h, Run(h, events), Asked(h, events))
  }

  predicate Asks(s: CacheState, e: Event) {
    e.Ask? && e.rid != "" && SizeKnown(s.blockSize)
  }

  lemma RowsAfterAsk(h: BlockHasher, s: CacheState, asked: map<string, Prompt>, e: Event)
    requires RowsOf(h, s, asked) && Asks(s, e)
    requires Resolved(h, s.blockSize.value, CachedRow(s, e.rid), e.prompt) == Recompute(h, s.blockSize.value, e.prompt)
    ensures RowsOf(h, Step(h, s, e), if AnswerTo(h, s, e.rid, e.prompt).Ok? then asked[e.rid := e.prompt] else asked)
  {
    hide Resolved, Recompute;
  }

  lemma RowsAfterOther(h: BlockHasher, s: CacheState, asked: map<string, Prompt>, e: Event)
    requires RowsOf(h, s, asked) && !Asks(s, e)
    ensures RowsOf(h, Step(h, s, e), asked)
  {
    hide Resolved, Recompute;
  }

  /** Disciplined runs keep the rows current. */
  lemma {:induction false} RowsAreCurrent(h: BlockHasher, events: seq<Event>)
    requires Disciplined(h, events)
    ensures RowsCurrent(h, events)
    decreases |events|
  {
    hide Resolved, Recompute, Disciplined, AskKeeps, RowsOf, Step, AnswerTo;
    if events == [] {
      NothingCached(h);
    } else {
      var before, e := events[..|events| - 1], events[|events| - 1];
      DisciplinedPrefix(h, events);
      RowsAreCurrent(h, before);
      if Asks(Run(h, before), e) {
        KeptIsRecomputed(h, before, e);
        RowsAfterAsk(h, Run(h, before), Asked(h, before), e);
      } else {
        RowsAfterOther(h, Run(h, before), Asked(h, before), e);
      }
    }
  }

  lemma NothingCached(h: BlockHasher)
    ensures RowsOf(h, CacheState(None, map[]), map[])
  {
  }

  /** The answer an ask gets at some point of a run is the one hashing the whole prompt gives. */
  predicate AnsweredRight(h: BlockHasher, events: seq<Event>, e: Event) {
    var s := Run(h, events);
    e.Ask? ==> AnswerTo(h, s, e.rid, e.prompt) == FromScratch(h, s.blockSize, e.prompt)
  }

  lemma DisciplinedTake(h: BlockHasher, events: seq<Event>, i: nat)
    requires Disciplined(h, events) && i <= |events|
    ensures Disciplined(h, events[..i])
  {
    hide AskKeeps;
    forall j | 0 <= j < i ensures AskKeeps(h, events[..i][..j], events[..i][j]) {
      assert events[..i][..j] == events[..j];
    }
  }

  /** The cache refines recomputing from scratch: in a disciplined run, with evictions anywhere,
      every answer (and every error) is what hashing the whole prompt would give. */
  lemma CacheIsTransparent(h: BlockHasher, events: seq<Event>, i: nat)
    requires Disciplined(h, events) && i < |events|
    ensures AnsweredRight(h, events[..i], events[i])
  {
    hide RowsCurrent, Resolved, Recompute, Run;
    DisciplinedTake(h, events, i);
    assert AskKeeps(h, events[..i], events[i]);
    hide AskKeeps, Disciplined;
    RowsAreCurrent(h, events[..i]);
    if events[i].Ask? && SizeKnown(Run(h, events[..i]).blockSize) {
      KeptIsRecomputed(h, events[..i], events[i]);
    }
  }

  /** Exactly when a whole run is answered right, with collision-free hashes: every prompt asked for under a
      cached id keeps the blocks of the id's last prompt, or cannot be packed. */
  lemma RunAnsweredRightIff(h: BlockHasher, events: seq<Event>)
    requires h.Injective()
    ensures (forall i | 0 <= i < |events| :: AnsweredRight(h, events[..i], events[i])) <==> Disciplined(h, events)
  {
    hide AnsweredRight, AskKeeps, BlockHasher.Injective;
    if Disciplined(h, events) {
      forall i | 0 <= i < |events| ensures AnsweredRight(h, events[..i], events[i]) {
        CacheIsTransparent(h, events, i);
      }
    } else {
      var n :| 0 <= n < |events| && !AskKeeps(h, events[..n], events[n]);
      var i := FirstBroken(h, events, n);
      NotKeptNotRight(h, events[..i], events[i]);
    }
  }

  lemma {:induction false} FirstBroken(h: BlockHasher, events: seq<Event>, n: nat) returns (i: nat)
    requires n < |events| && !AskKeeps(h, events[..n], events[n])
    ensures i <= n && !AskKeeps(h, events[..i], events[i]) && Disciplined(h, events[..i])
    decreases n
  {
    hide AskKeeps;
    if Disciplined(h, events[..n]) {
      i := n;
    } else {
      var m :| 0 <= m < n && !AskKeeps(h, events[..n][..m], events[..n][m]);
      assert events[..n][..m] == events[..m];
      i := FirstBroken(h, events, m);
    }
  }

  lemma NotKeptNotRight(h: BlockHasher, events: seq<Event>, e: Event)
    requires h.Injective() && Disciplined(h, events) && !AskKeeps(h, events, e)
    ensures !AnsweredRight(h, events, e)
  {
    hide Run, Asked, Disciplined, Recompute, BlockHasher.Injective, PacksFrom;
    var s := Run(h, events);
    var size, before := s.blockSize.value, Asked(h, events)[e.rid];
    RowsAreCurrent(h, events);
    PackedAnswers(h, size, CachedRow(s, e.rid).value, before, e.prompt);
    AnswerIsRightIff(h, events, e.rid, e.prompt);
  }

  lemma PackedAnswers(h: BlockHasher, size: nat, row: Row, before: Prompt, after: Prompt)
    requires 0 < size && RowOf(h, size, row, before) && PacksFrom(after, size, |before| / size)
    requires |before| / size <= |after| / size
    ensures Resolved(h, size, Some(row), after).Ok?
  {
    hide Chain, Extension;
  }

  /** Exactly when an answer is right: after a disciplined run, with collision-free hashes, an answered
      prompt gets its own hashes if and only if its id is not cached or it keeps the blocks its
      id was last asked with. */
  lemma AnswerIsRightIff(h: BlockHasher, events: seq<Event>, rid: string, prompt: Prompt)
    requires h.Injective() && Disciplined(h, events)
    requires SizeKnown(Run(h, events).blockSize)
    requires AnswerTo(h, Run(h, events), rid, prompt).Ok?
    ensures CachedRow(Run(h, events), rid).Some? ==> rid in Asked(h, events)
    ensures var s := Run(h, events);
            AnswerTo(h, s, rid, prompt) == FromScratch(h, s.blockSize, prompt)
            <==> (CachedRow(s, rid).None? || Keeps(s.blockSize.value, Asked(h, events)[rid], prompt))
  {
    RowsAreCurrent(h, events);
    var s := Run(h, events);
    var cached := CachedRow(s, rid);
    if cached.Some? {
      var size, before := s.blockSize.value, Asked(h, events)[rid];
      if Keeps(size, before, prompt) {
        KeptRowRecomputes(h, size, cached, before, prompt);
      } else if AnswerTo(h, s, rid, prompt) == FromScratch(h, s.blockSize, prompt) {
        EqualAnswersKeep(h, size, cached.value, before, prompt);
      }
    }
  }

  lemma EqualAnswersKeep(h: BlockHasher, size: nat, row: Row, before: Prompt, after: Prompt)
    requires h.Injective() && 0 < size && RowOf(h, size, row, before)
    requires |before| / size <= |after| / size
    requires Extended(h, size, row, after).Ok? && Recompute(h, size, after).Ok?
    requires Extended(h, size, row, after).value.hashes == Recompute(h, size, after).value.hashes
    ensures forall i: nat | i < |before| / size :: BlockAt(after, size, i) == BlockAt(before, size, i)
  {
    var n, m := |before| / size, |after| / size;
    hide BlockAt, PacksFrom, Chain, Extension;
    var mine, theirs := Chain(h, before, size, n), Chain(h, after, size, m);
    ContinuingIsStartingOver(h, after, size, n, m);
    assert Chain(h, after, size, n) == theirs[..n];
    SameTexts(h, mine, theirs, Texts(h, Extension(h, after, size, row.parent, n, m)));
    ChainsAgreeIff(h, before, after, size, n);
    SharedBlocks(before, after, size, n);
  }

  lemma SameTexts(h: BlockHasher, a: seq<Digest>, b: seq<Digest>, rest: seq<string>)
    requires h.Injective() && |a| <= |b| && Texts(h, a) + rest == Texts(h, b)
    ensures a == b[..|a|]
  {
    forall i | 0 <= i < |a| ensures a[i] == b[i] {
      assert (Texts(h, a) + rest)[i] == h.text(a[i]);
    }
  }

  /** A same-length prompt with other tokens gets the old prompt's hashes. */
  lemma RewrittenPromptIsStale(h: BlockHasher)
    requires h.Injective()
    ensures var events := [Learn(1), Ask("r", [1])];
            var s := Run(h, events);
            && AnswerTo(h, s, "r", [2]) == FromScratch(h, s.blockSize, [1])
            && AnswerTo(h, s, "r", [2]) != FromScratch(h, s.blockSize, [2])
  {
    var learn: seq<Event> := [Learn(1)];
    var events := [Learn(1), Ask("r", [1])];
    assert learn[..0] == [] && events[..1] == learn;
    assert Run(h, learn) == CacheState(Some(1), map[]);
    assert BlockAt([1], 1, 0) == [1] && BlockAt([2], 1, 0) == [2];
    assert Chain(h, [1], 1, 0) == [] && Chain(h, [1], 1, 1) == [h.digest(0, [1])];
    assert Chain(h, [2], 1, 0) == [] && Chain(h, [2], 1, 1) == [h.digest(0, [2])];
    var row := Row(Texts(h, [h.digest(0, [1])]), h.digest(0, [1]));
    assert Recompute(h, 1, [1]) == Ok(row);
    assert Run(h, events) == CacheState(Some(1), map["r" := row]);
    assert PacksFrom([2], 1, 1) && Extension(h, [2], 1, row.parent, 1, 1) == [];
    assert row.hashes + Texts(h, []) == row.hashes;
    assert Extended(h, 1, row, [2]) == Ok(row);
    assert Texts(h, [h.digest(0, [1])])[0] != Texts(h, [h.digest(0, [2])])[0];
    assert Texts(h, []) == [];
  }
}
