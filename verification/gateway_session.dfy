/** The session object: its fields are updated by one method per atomic step, and every
    method is one step of SessionModel. Requests in flight are ghost: their data travels
    from step to step in the caller's hands. */
module GatewaySessions {
  import opened Wrappers
  import opened Sequences
  import opened Messages
  import opened Codecs
  import opened Chains
  import opened Selection
  import opened SessionModel
  import opened SessionInvariant
  import opened SessionSafety
  import opened SessionTheorems
  import opened TrajectoryBuffers

  type ChainState = Chain<TrajectoryBuffer>
  type EncodedData = Encoded<TrajectoryBuffer>

  ghost function ViewChain(c: ChainState): Chain<Buffer>
    reads c.buffer
  {
    Chain(c.id, c.history, c.tipHash, c.tools, c.buffer.View(), c.images, c.videos, c.start, c.updatedSeq)
  }

  ghost function BuffersOf(chains: seq<ChainState>): set<TrajectoryBuffer> {
    set c | c in chains :: c.buffer
  }

  ghost function ViewChains(chains: seq<ChainState>): (r: seq<Chain<Buffer>>)
    reads BuffersOf(chains)
    ensures |r| == |chains|
    ensures forall i | 0 <= i < |chains| :: r[i] == ViewChain(chains[i])
  {
    seq(|chains|, i requires 0 <= i < |chains| reads BuffersOf(chains) => ViewChain(chains[i]))
  }

  ghost function ViewEncoded(e: EncodedData): Encoded<Buffer>
    reads e.buffer
  {
    Encoded(e.buffer.View(), e.context, e.maxTokens, e.logprobs, e.messages, e.tools, e.images, e.videos,
            e.exhausted, e.chainId, e.hashes, e.start, e.rollback, e.dropped)
  }

  type Buffers = map<nat, TrajectoryBuffer>

  /** No buffer is shared between two chains, two requests, or a chain and a request. */
  ghost predicate Separate(chains: seq<ChainState>, buffers: Buffers) {
    && (forall i, j | 0 <= i < j < |chains| :: chains[i].buffer != chains[j].buffer)
    && (forall r, q | r in buffers && q in buffers && r != q :: buffers[r] != buffers[q])
    && (forall i, r | 0 <= i < |chains| && r in buffers :: chains[i].buffer != buffers[r])
  }

  /** The private buffer of each request in flight holds what the model says. */
  ghost predicate Linked(flights: map<nat, Flight<Buffer>>, buffers: Buffers)
    reads buffers.Values
  {
    forall r | r in flights && !flights[r].Failing? ::
      r in buffers && buffers[r].View() == flights[r].encoded.buffer
  }

  // ----------------------------------------------------- selection through the views

  /** A view is selected by the same measures. */
  lemma SameMeasures(q: Query, c: ChainState)
    ensures Candidate(q, ViewChain(c)) == Candidate(q, c) && Exact(q, ViewChain(c)) == Exact(q, c)
    ensures Depth(q, ViewChain(c)) == Depth(q, c)
    ensures ViewChain(c).id == c.id && ViewChain(c).updatedSeq == c.updatedSeq
  {
  }

  lemma BestThroughViews(q: Query, chains: seq<ChainState>, c: ChainState)
    requires Best(q, chains, c)
    ensures Best(q, ViewChains(chains), ViewChain(c))
  {
    hide Candidate, Exact, Depth, ViewChain;
    var views := ViewChains(chains);
    var i :| 0 <= i < |chains| && chains[i] == c;
    assert views[i] == ViewChain(c);
    SameMeasures(q, c);
    forall d | d in views && Candidate(q, d)
      ensures Depth(q, d) <= Depth(q, ViewChain(c))
      ensures Depth(q, d) == Depth(q, ViewChain(c)) ==>
                if Exact(q, ViewChain(c)) then Exact(q, d) ==> NotAfter(d, ViewChain(c)) else d.id == ViewChain(c).id
    {
      var j :| 0 <= j < |views| && views[j] == d;
      SameMeasures(q, chains[j]);
      assert chains[j] in chains;
    }
  }

  lemma BestFromViews(q: Query, chains: seq<ChainState>, i: nat)
    requires i < |chains| && Best(q, ViewChains(chains), ViewChain(chains[i]))
    ensures Best(q, chains, chains[i])
  {
    hide Candidate, Exact, Depth, ViewChain;
    var views := ViewChains(chains);
    var c := chains[i];
    SameMeasures(q, c);
    forall d | d in chains && Candidate(q, d)
      ensures Depth(q, d) <= Depth(q, c)
      ensures Depth(q, d) == Depth(q, c) ==>
                if Exact(q, c) then Exact(q, d) ==> NotAfter(d, c) else d.id == c.id
    {
      var j :| 0 <= j < |chains| && chains[j] == d;
      SameMeasures(q, d);
      assert views[j] in views;
    }
  }

  /** Selecting among chains that hold references is selecting among their contents. */
  lemma SelectThroughViews(q: Query, chains: seq<ChainState>)
    requires DistinctIds(ViewChains(chains))
    ensures Select(q, chains).None? <==> Select(q, ViewChains(chains)).None?
    ensures Select(q, chains).Some? ==>
              Select(q, ViewChains(chains))
              == Some(Choice(ViewChain(Select(q, chains).value.chain), Select(q, chains).value.rollback))
  {
    var views := ViewChains(chains);
    if Select(q, chains).Some? {
      var c := Select(q, chains).value.chain;
      BestThroughViews(q, chains, c);
      BestIsUnique(q, views, ViewChain(c), Select(q, views).value.chain);
    } else if Select(q, views).Some? {
      var v := Select(q, views).value.chain;
      var i :| 0 <= i < |views| && views[i] == v;
      BestFromViews(q, chains, i);
      assert false;
    }
  }

  /** A private buffer and media a request is prepared on. */
  datatype WorkingCopy = WorkingCopy(buffer: TrajectoryBuffer, images: MediaList, videos: MediaList, dropped: nat)

  ghost function ViewCopy(w: WorkingCopy): Base
    reads w.buffer
  {
    Base(w.buffer.View(), w.images, w.videos, w.dropped)
  }

  ghost function ViewChoice(choice: Choice<TrajectoryBuffer>): Choice<Buffer>
    reads choice.chain.buffer
  {
    Choice(ViewChain(choice.chain), choice.rollback)
  }

  /** What `run_generation` does after preparation. */
  datatype Preparation =
    | Rejected(error: Error)
    | LengthExhausted(promptTokens: nat)
    | Call(encoded: EncodedData)

  // ------------------------------------------------------ preparing on a private copy

  method SealData(cfg: Config, req: Request, hashes: seq<Hash>, w: WorkingCopy,
                  chainId: Option<nat>, rollback: bool, exhausted: bool)
    returns (r: Result<EncodedData>)
    ensures r.Ok? ==> r.value.buffer == w.buffer
    ensures match Seal(cfg, req, hashes, ViewCopy(w), chainId, rollback, exhausted)
            case Err(e) => r == Err(e)
            case Ok(v) => r.Ok? && ViewEncoded(r.value) == v
  {
    var context := w.buffer.promptIds + w.buffer.responseIds;
    if exhausted {
      return Ok(Encoded(w.buffer, context, None, false, req.messages, req.tools, w.images, w.videos,
                        true, chainId, hashes, None, rollback, w.dropped));
    }
    var maxTokens := req.maxTokens;
    if cfg.capacity.Some? {
      var room := cfg.capacity.value - |context|;
      maxTokens := Some(if req.maxTokens.Some? && req.maxTokens.value < room then req.maxTokens.value else room);
    }
    if hashes == [] {
      return Err(IndexOutOfRange);
    }
    var start := Start(|w.buffer.responseIds|, |req.messages|, Count(w.images), Count(w.videos), hashes[|hashes| - 1]);
    return Ok(Encoded(w.buffer, context, maxTokens, req.logprobs, req.messages, req.tools, w.images, w.videos,
                      false, chainId, hashes, Some(start), rollback, w.dropped));
  }

  /** A copy of the selected chain, cut back to its last boundary when it is rolled back. */
  method CopyOf(cfg: Config, choice: Choice<TrajectoryBuffer>) returns (r: Result<WorkingCopy>)
    ensures r.Ok? ==> fresh(r.value.buffer)
    ensures match BaseOf(cfg, ViewChoice(choice))
            case Err(e) => r == Err(e)
            case Ok(b) => r.Ok? && ViewCopy(r.value) == b
  {
    var chain := choice.chain;
    var buffer := chain.buffer.Copy();
    if !buffer.Aligned() {
      return Err(AssertionFailed);
    }
    if !choice.rollback {
      return Ok(WorkingCopy(buffer, chain.images, chain.videos, 0));
    }
    var start := chain.start;
    if start.responseLen > |buffer.responseIds| {
      return Err(AssertionFailed);
    }
    var dropped := Sum(Drop(buffer.responseMask, start.responseLen));
    var images := RollBackMedia(chain.images, start.imageLen);
    if images.Err? {
      return Err(images.error);
    }
    var videos := RollBackMedia(chain.videos, start.videoLen);
    if videos.Err? {
      return Err(videos.error);
    }
    var cut := buffer.RollBackTo(start.responseLen, cfg.codec.AssistantPrefix());
    if cut.Err? {
      return Err(cut.error);
    }
    if !buffer.Aligned() {
      return Err(AssertionFailed);
    }
    return Ok(WorkingCopy(buffer, images.value, videos.value, dropped));
  }

  /** Merge the request's new messages into the working copy, in place. */
  method MergeInto(cfg: Config, choice: Choice<TrajectoryBuffer>, w: WorkingCopy, req: Request, hashes: seq<Hash>)
    returns (r: Result<EncodedData>)
    modifies w.buffer
    ensures r.Ok? ==> r.value.buffer == w.buffer
    ensures match MergeSuffix(cfg, old(ViewChoice(choice)), old(ViewCopy(w)), req, hashes)
            case Err(e) => r == Err(e)
            case Ok(v) => r.Ok? && ViewEncoded(r.value) == v
  {
    hide Seal, Adopt, Codec.MergeContext;
    var chain := choice.chain;
    var suffix := Drop(req.messages, Covered(choice));
    var previous := if choice.rollback then Take(req.messages, chain.start.historyLen) else chain.history;
    var tokens := w.buffer.promptIds + w.buffer.responseIds;
    var exhausted := cfg.AtCapacity(|tokens|);
    if suffix == [] || exhausted {
      r := SealData(cfg, req, hashes, w, Some(chain.id), choice.rollback, exhausted);
      return;
    }
    var media := cfg.codec.extractMedia(suffix);
    if media.Err? {
      return Err(media.error);
    }
    var merged := cfg.codec.MergeContext(
      ContextCall(previous, previous + suffix, tokens, w.buffer.responseMask,
                  if req.logprobs then Some(w.buffer.responseLogprobs) else None, req.tools),
      media.value);
    if merged.Err? {
      return Err(merged.error);
    }
    if cfg.AtCapacity(|merged.value.ids|) {
      r := SealData(cfg, req, hashes, w, Some(chain.id), choice.rollback, true);
      return;
    }
    var taken := w.buffer.TakeOver(merged.value);
    if taken.Err? {
      return Err(taken.error);
    }
    var grown := w.(images := ExtendMedia(w.images, media.value.images), videos := ExtendMedia(w.videos, media.value.videos));
    r := SealData(cfg, req, hashes, grown, Some(chain.id), choice.rollback, false);
  }

  method EncodeFresh(cfg: Config, req: Request, hashes: seq<Hash>) returns (r: Result<EncodedData>)
    ensures r.Ok? ==> fresh(r.value.buffer)
    ensures match PrepareFresh(cfg, req, hashes)
            case Err(e) => r == Err(e)
            case Ok(v) => r.Ok? && ViewEncoded(r.value) == v
  {
    hide Seal;
    var media := cfg.codec.extractMedia(req.messages);
    if media.Err? {
      return Err(media.error);
    }
    var prompt := cfg.codec.buildInitial(InitialCall(req.messages, req.tools, media.value));
    if prompt.Err? {
      return Err(prompt.error);
    }
    var buffer := new TrajectoryBuffer(prompt.value);
    r := SealData(cfg, req, hashes, WorkingCopy(buffer, media.value.images, media.value.videos, 0),
                  None, false, cfg.AtCapacity(|prompt.value|));
  }

  method EncodeContinuation(cfg: Config, choice: Choice<TrajectoryBuffer>, req: Request, hashes: seq<Hash>)
    returns (r: Result<EncodedData>)
    ensures r.Ok? ==> fresh(r.value.buffer)
    ensures match PrepareContinuation(cfg, ViewChoice(choice), req, hashes)
            case Err(e) => r == Err(e)
            case Ok(v) => r.Ok? && ViewEncoded(r.value) == v
  {
    hide BaseOf, MergeSuffix;
    var copy := CopyOf(cfg, choice);
    if copy.Err? {
      return Err(copy.error);
    }
    r := MergeInto(cfg, choice, copy.value, req, hashes);
  }

  /** Merge the generated tokens into the request's own buffer, outside the lock. */
  method MergeOutput(cfg: Config, encoded: EncodedData, out: Output) returns (r: Result<()>)
    modifies encoded.buffer
    ensures match Receive(cfg, old(ViewEncoded(encoded)), out)
            case Err(e) => r == Err(e)
            case Ok(b) => r.Ok? && encoded.buffer.View() == b
  {
    hide Adopt;
    var b := encoded.buffer;
    if encoded.logprobs {
      if out.logprobs.None? || |out.logprobs.value| != |out.tokens| {
        return Err(RuntimeFailed);
      }
    }
    var merged := cfg.codec.mergeAssistant(
      AssistantCall(b.promptIds + b.responseIds, out.tokens, b.responseMask,
                    if encoded.logprobs then Some(b.responseLogprobs) else None,
                    if encoded.logprobs then out.logprobs else None));
    match merged {
      case Err(error) =>
        return Err(error);
      case Ok(stream) =>
        b.generationVersions := b.generationVersions + [out.version];
        r := b.TakeOver(stream);
    }
  }

  // ------------------------------------------------------- views of updated collections

  lemma ViewsRemoveAt(chains: seq<ChainState>, i: nat)
    requires i < |chains|
    ensures ViewChains(RemoveAt(chains, i)) == RemoveAt(ViewChains(chains), i)
    ensures BuffersOf(RemoveAt(chains, i)) <= BuffersOf(chains)
  {
  }

  lemma SeparateRemoveAt(chains: seq<ChainState>, buffers: Buffers, i: nat)
    requires i < |chains| && Separate(chains, buffers)
    ensures Separate(RemoveAt(chains, i), buffers)
  {
  }

  lemma LinkedWithout(flights: map<nat, Flight<Buffer>>, buffers: Buffers, rid: nat)
    requires Linked(flights, buffers)
    ensures Linked(Without(flights, rid), Without(buffers, rid))
  {
  }

  lemma SeparateMoved(chains: seq<ChainState>, after: seq<ChainState>, buffers: Buffers, rid: nat, k: nat)
    requires Separate(chains, buffers) && rid in buffers
    requires k <= |chains| && |after| == (if k < |chains| then |chains| else |chains| + 1)
    requires after[k].buffer == buffers[rid]
    requires forall j | 0 <= j < |chains| && j != k :: after[j] == chains[j]
    ensures Separate(after, Without(buffers, rid))
  {
  }

  /** Closing an exhausted chain, field by field. */
  lemma ExhaustedDrops(s: State, e: Encoded<Buffer>, stripped: nat, i: nat, after: State)
    requires e.chainId.Some? && Find(s.active, e.chainId.value) == Some(i) && i < |s.active|
    requires e.rollback && s.active[i].start.responseLen == 0
    requires after == s.(active := RemoveAt(s.active, i), rollbackCount := s.rollbackCount + 1,
                         rollbackDropped := s.rollbackDropped + e.dropped,
                         history := s.history.(dropped := s.history.dropped + {s.active[i].id}))
    ensures after == CloseExhausted(s, e, stripped)
  {
  }

  lemma ExhaustedCloses(s: State, e: Encoded<Buffer>, stripped: nat, i: nat, after: State)
    requires e.chainId.Some? && Find(s.active, e.chainId.value) == Some(i) && i < |s.active|
    requires !(e.rollback && s.active[i].start.responseLen == 0)
    requires after == s.(active := RemoveAt(s.active, i), orderSeq := s.orderSeq + 1,
                         closed := s.closed + [Closed(Materialize(ClosingChain(s.active[i], e), true), s.orderSeq + 1)],
                         rollbackCount := s.rollbackCount + (if e.rollback then 1 else 0),
                         rollbackDropped := s.rollbackDropped + (if e.rollback then e.dropped else 0),
                         history := s.history.(stripped := s.history.stripped + stripped))
    ensures after == CloseExhausted(s, e, stripped)
  {
  }

  lemma NothingToClose(s: State, e: Encoded<Buffer>, stripped: nat)
    requires e.chainId.None?
    ensures CloseExhausted(s, e, stripped) == s
  {
  }

  /** What a commit relies on: its chain is there, its boundary was recorded, and there is one
      hash per message. */
  lemma CommitReady(cfg: Config, s: State, rid: nat, reply: Message)
    requires Inv(cfg, s) && s.phase == Active && rid in s.flights && s.flights[rid].Generated?
    ensures var e := s.flights[rid].encoded;
            && e.start.Some? && |e.hashes| == |e.messages|
            && cfg.hasher.Extended(e.hashes, [reply]) == e.hashes + [cfg.hasher.Next(cfg.hasher.Tip(e.hashes), reply)]
            && (e.chainId.Some? ==> Find(s.active, e.chainId.value).Some?)
  {
    FlightOfRun(cfg, s, rid);
    hide Tracks, Continues, KeptVersions;
    var e := s.flights[rid].encoded;
    assert cfg.hasher.Extended(e.hashes, [reply][..0]) == e.hashes;
    if e.chainId.Some? {
      CommitFindsItsChain(cfg, s, rid);
    }
  }

  /** A commit that puts `c` at position `k` of the active chains. */
  ghost function WithCommit(s: State, rid: nat, c: Chain<Buffer>, k: nat): State
    requires rid in s.flights && s.flights[rid].Generated? && k <= |s.active|
  {
    var e := s.flights[rid].encoded;
    s.(active := if k < |s.active| then s.active[k := c] else s.active + [c],
       nextId := if e.chainId.Some? then s.nextId else s.nextId + 1,
       reserved := s.reserved - (if e.chainId.Some? then {c.id} else {}),
       orderSeq := s.orderSeq + 1,
       rollbackCount := s.rollbackCount + (if e.rollback then 1 else 0),
       rollbackDropped := s.rollbackDropped + (if e.rollback then e.dropped else 0),
       flights := Without(s.flights, rid),
       history := CommitHistory(s.history, s.flights[rid], c.id))
  }

  /** The id a commit writes. */
  function CommitId(s: State, e: Encoded<Buffer>): nat {
    if e.chainId.Some? then e.chainId.value else s.nextId
  }

  ghost predicate CommitPlace(s: State, e: Encoded<Buffer>, k: nat) {
    if e.chainId.Some? then Find(s.active, e.chainId.value) == Some(k) else k == |s.active|
  }

  lemma CommitIsWithCommit(cfg: Config, s: State, rid: nat, reply: Message, k: nat)
    requires s.phase == Active && rid in s.flights && s.flights[rid].Generated? && s.flights[rid].encoded.start.Some?
    requires CommitPlace(s, s.flights[rid].encoded, k)
    ensures k <= |s.active|
    ensures var e := s.flights[rid].encoded;
            var c := CommittedChain(cfg, e, reply, CommitId(s, e), s.orderSeq + 1);
            StepCommit(cfg, s, rid, Ok(reply)) == WithCommit(s, rid, c, k)
  {
    hide CommitHistory;
    assert s.reserved - {} == s.reserved;
  }

  lemma ActiveAligned(cfg: Config, s: State, chains: seq<ChainState>)
    requires Inv(cfg, s) && s.active == ViewChains(chains)
    ensures forall c | c in chains :: c.buffer.Aligned()
  {
    hide Partition, Owned, Ordered, FlightsOk;
    forall c | c in chains ensures c.buffer.Aligned() {
      var i :| 0 <= i < |chains| && chains[i] == c;
      assert ViewChains(chains)[i] in s.active;
      ChainTokens(cfg, s.history.generations, ViewChain(c));
    }
  }

  /** The trajectories of finished chains, in order. */
  function Trajectories(closed: seq<Closed>): (r: seq<Trajectory>)
    ensures |r| == |closed|
    ensures forall i | 0 <= i < |closed| :: r[i] == closed[i].trajectory
  {
    seq(|closed|, i requires 0 <= i < |closed| => closed[i].trajectory)
  }

  /** What a session's invariant gives a selection. */
  lemma SelectableChains(cfg: Config, s: State, chains: seq<ChainState>)
    requires Inv(cfg, s) && s.active == ViewChains(chains)
    ensures DistinctIds(ViewChains(chains)) && DistinctIds(chains)
    ensures forall c | c in chains :: 1 <= c.start.historyLen
  {
    DistinctActive(s);
    hide Partition, Owned, Ordered, FlightsOk;
    forall c | c in chains ensures 1 <= c.start.historyLen {
      var i :| 0 <= i < |chains| && chains[i] == c;
      assert ViewChains(chains)[i] in s.active;
      assert ChainOk(cfg, s.history.generations, ViewChain(c));
    }
    forall i, j | 0 <= i < j < |chains| ensures chains[i].id != chains[j].id {
      assert ViewChains(chains)[i].id != ViewChains(chains)[j].id;
    }
  }

  // -------------------------------------------------------------------- the session

  class GatewaySession {
    const cfg: Config
    var activeChains: seq<ChainState>
    var materializedChains: seq<Closed>
    var reservedChainIds: set<nat>
    var nextChainId: nat
    var orderSeq: nat
    var rollbackCount: nat
    var rollbackDropped: nat
    var phase: Phase
    ghost var flights: map<nat, Flight<Buffer>>
    ghost var buffers: Buffers
    ghost var history: History

    /** The state of the model this object stands for. */
    ghost function Abs(): State
      reads this, BuffersOf(activeChains)
    {
      State(ViewChains(activeChains), materializedChains, reservedChainIds, nextChainId, orderSeq,
            rollbackCount, rollbackDropped, phase, flights, history)
    }

    ghost predicate Valid()
      reads this, BuffersOf(activeChains), buffers.Values
    {
      Separate(activeChains, buffers) && Linked(flights, buffers) && cfg.codec.Contract() && Inv(cfg, Abs())
    }

    /** The request is in flight with this data in its hands. */
    ghost predicate Carries(rid: nat, encoded: EncodedData)
      reads this, encoded.buffer
    {
      && rid in flights && !flights[rid].Failing? && rid in buffers
      && buffers[rid] == encoded.buffer && flights[rid].encoded == ViewEncoded(encoded)
    }

    constructor (cfg: Config)
      requires cfg.codec.Contract()
      ensures Valid() && this.cfg == cfg && Abs() == INITIAL
    {
      hide Inv, Codec.Contract;
      this.cfg := cfg;
      activeChains, materializedChains, reservedChainIds := [], [], {};
      nextChainId, orderSeq, rollbackCount, rollbackDropped, phase := 1, 0, 0, 0, Active;
      flights, buffers, history := map[], map[], History(0, 0, {}, 0, map[]);
      new;
      InitialInv(cfg);
      assert ViewChains([]) == [];
    }

    /** Preparation works on private copies: it changes nothing of the session. */
    method PrepareGenerationInputs(req: Request) returns (r: Result<EncodedData>)
      requires Valid()
      ensures r.Ok? ==> fresh(r.value.buffer)
      ensures match Prepare(cfg, ViewChains(activeChains), reservedChainIds, req)
              case Err(e) => r == Err(e)
              case Ok(v) => r.Ok? && ViewEncoded(r.value) == v
    {
      hide Inv, Codec.Contract, PrepareFresh, PrepareContinuation, Select, DistinctIds, Separate;
      SelectableChains(cfg, Abs(), activeChains);
      ghost var views := ViewChains(activeChains);
      var hashes := ExtendPrefixHashes(cfg.hasher, [], req.messages);
      assert views == ViewChains(activeChains);
      var q := Query(reservedChainIds, req.tools, hashes, cfg.rollbackEnabled);
      assert q == QueryFor(cfg, reservedChainIds, req);
      SelectThroughViews(q, activeChains);
      var selection := SelectChain(q, activeChains);
      if selection.None? {
        r := EncodeFresh(cfg, req, hashes);
      } else {
        ghost var choice := ViewChoice(selection.value);
        assert Select(q, views) == Some(choice);
        r := EncodeContinuation(cfg, selection.value, req, hashes);
        assert choice == ViewChoice(selection.value);
      }
      assert views == ViewChains(activeChains);
    }

    /** The index of an active chain. */
    method FindActiveChain(id: nat) returns (r: Option<nat>)
      ensures r == Find(ViewChains(activeChains), id)
    {
      for i := 0 to |activeChains|
        invariant forall k | 0 <= k < i :: activeChains[k].id != id
      {
        if activeChains[i].id == id {
          FindIsFirst(ViewChains(activeChains), id, i);
          return Some(i);
        }
      }
      FindIsNone(ViewChains(activeChains), id);
      return None;
    }

    /** The token trajectory of a chain; its alignment assertion never fails. */
    function BuildTrajectory(c: ChainState, lengthLimited: bool): (t: Trajectory)
      requires c.buffer.Aligned()
      reads c.buffer
      ensures t == Materialize(ViewChain(c), lengthLimited)
    {
      var b := c.buffer;
      Trajectory(b.promptIds, b.responseIds, b.responseMask,
                 if b.responseLogprobs == [] then None else Some(b.responseLogprobs),
                 CountTurns(c.history), c.id,
                 if NonEmpty(c.images) then c.images else None,
                 if NonEmpty(c.videos) then c.videos else None,
                 b.generationVersions, VersionSpan(b.generationVersions), lengthLimited)
    }

    /** Nothing more fits: finish the selected chain, or drop it when the rollback left no
        generated token in it. */
    method CloseLengthExhaustedChain(encoded: EncodedData, ghost stripped: nat)
      requires Separate(activeChains, buffers)
      requires encoded.chainId.Some?
      requires var f := Find(ViewChains(activeChains), encoded.chainId.value);
               f.Some? && ClosingChain(ViewChains(activeChains)[f.value], ViewEncoded(encoded)).buffer.Aligned()
      modifies this`activeChains, this`materializedChains, this`orderSeq
      modifies this`rollbackCount, this`rollbackDropped, this`history
      ensures Separate(activeChains, buffers)
      ensures Abs() == CloseExhausted(old(Abs()), old(ViewEncoded(encoded)), stripped)
    {
      hide Materialize, RemoveAt, Separate, Buffer.Aligned, CloseExhausted;
      ghost var s, views, e := Abs(), ViewChains(activeChains), ViewEncoded(encoded);
      var found := FindActiveChain(encoded.chainId.value);
      assert ViewChains(activeChains) == views;
      var i := found.value;
      var chain := activeChains[i];
      if encoded.rollback && chain.start.responseLen == 0 {
        DropExhausted(i, encoded);
        ExhaustedDrops(s, e, stripped, i, Abs());
      } else {
        var closing := chain;
        if encoded.rollback {
          closing := chain.(history := Take(encoded.messages, chain.start.historyLen), buffer := encoded.buffer,
                            images := encoded.images, videos := encoded.videos);
        }
        assert ViewChain(closing) == ClosingChain(views[i], e);
        FinishExhausted(i, closing, encoded, stripped);
        ExhaustedCloses(s, e, stripped, i, Abs());
      }
    }

    /** No generated token survives the rollback. */
    method DropExhausted(i: nat, encoded: EncodedData)
      requires i < |activeChains| && Separate(activeChains, buffers) && encoded.rollback
      modifies this`activeChains, this`rollbackCount, this`rollbackDropped, this`history
      ensures Separate(activeChains, buffers)
      ensures var s := old(Abs());
              Abs() == s.(active := RemoveAt(s.active, i), rollbackCount := s.rollbackCount + 1,
                          rollbackDropped := s.rollbackDropped + encoded.dropped,
                          history := s.history.(dropped := s.history.dropped + {s.active[i].id}))
    {
      ghost var s := Abs();
      ViewsRemoveAt(activeChains, i);
      SeparateRemoveAt(activeChains, buffers, i);
      hide Separate, RemoveAt;
      history := history.(dropped := history.dropped + {activeChains[i].id});
      rollbackCount, rollbackDropped := rollbackCount + 1, rollbackDropped + encoded.dropped;
      activeChains := RemoveAt(activeChains, i);
      assert ViewChains(activeChains) == RemoveAt(s.active, i);
    }

    /** The chain at `i` is finished, as `closing` describes it. */
    method FinishExhausted(i: nat, closing: ChainState, encoded: EncodedData, ghost stripped: nat)
      requires i < |activeChains| && Separate(activeChains, buffers)
      requires closing.buffer.Aligned()
      modifies this`activeChains, this`materializedChains, this`orderSeq
      modifies this`rollbackCount, this`rollbackDropped, this`history
      ensures Separate(activeChains, buffers)
      ensures var s := old(Abs());
              Abs() == s.(active := RemoveAt(s.active, i), orderSeq := s.orderSeq + 1,
                          closed := s.closed + [Closed(Materialize(old(ViewChain(closing)), true), s.orderSeq + 1)],
                          rollbackCount := s.rollbackCount + (if encoded.rollback then 1 else 0),
                          rollbackDropped := s.rollbackDropped + (if encoded.rollback then encoded.dropped else 0),
                          history := s.history.(stripped := s.history.stripped + stripped))
    {
      hide Separate, RemoveAt, Materialize, Buffer.Aligned, Sum, VersionSpan;
      ghost var s := Abs();
      ViewsRemoveAt(activeChains, i);
      SeparateRemoveAt(activeChains, buffers, i);
      history := history.(stripped := history.stripped + stripped);
      orderSeq := orderSeq + 1;
      materializedChains := materializedChains + [Closed(BuildTrajectory(closing, true), orderSeq)];
      if encoded.rollback {
        rollbackCount, rollbackDropped := rollbackCount + 1, rollbackDropped + encoded.dropped;
      }
      activeChains := RemoveAt(activeChains, i);
      assert ViewChains(activeChains) == RemoveAt(s.active, i);
    }

    /** Hold the selected chain, if any, for the request that is about to call the backend. */
    method Reserve(ghost rid: nat, encoded: EncodedData, ghost origin: Origin)
      requires Separate(activeChains, buffers) && Linked(flights, buffers) && rid !in flights
      requires encoded.buffer !in BuffersOf(activeChains) && encoded.buffer !in buffers.Values
      modifies this`reservedChainIds, this`flights, this`buffers
      ensures Separate(activeChains, buffers) && Linked(flights, buffers)
      ensures Carries(rid, encoded)
      ensures var s := old(Abs());
              Abs() == s.(reserved := s.reserved + (if encoded.chainId.Some? then {encoded.chainId.value} else {}),
                          flights := s.flights[rid := Calling(old(ViewEncoded(encoded)), origin)])
    {
      ghost var s := Abs();
      if encoded.chainId.Some? {
        reservedChainIds := reservedChainIds + {encoded.chainId.value};
      }
      flights := flights[rid := Calling(ViewEncoded(encoded), origin)];
      buffers := buffers[rid := encoded.buffer];
      assert ViewChains(activeChains) == s.active;
    }

    /** The part of a generation before the backend call, under the lock. */
    method StartGeneration(ghost rid: nat, req: Request) returns (r: Preparation)
      requires Valid() && rid !in flights
      modifies this
      ensures Valid()
      ensures Abs() == StepPrepare(cfg, old(Abs()), rid, req)
      ensures r.Call? <==> rid in flights
      ensures var p := Prepare(cfg, old(ViewChains(activeChains)), old(reservedChainIds), req);
              match r
              case Rejected(e) => if old(phase) != Active then e == NotActive else p == Err(e)
              case LengthExhausted(n) => p.Ok? && p.value.exhausted && n == |p.value.context|
              case Call(e) => p.Ok? && ViewEncoded(e) == p.value
      ensures r.Call? ==> fresh(r.encoded.buffer) && flights[rid].Calling? && Carries(rid, r.encoded)
    {
      hide Inv, Codec.Contract, Prepare, OriginOf, CloseExhausted, Separate, Linked, Carries;
      ghost var s := Abs();
      StepKeeps(cfg, s, PrepareEvent(rid, req));
      if phase != Active {
        return Rejected(NotActive);
      }
      var prepared := PrepareGenerationInputs(req);
      assert Abs() == s;
      if prepared.Err? {
        return Rejected(prepared.error);
      }
      var encoded := prepared.value;
      ghost var origin := OriginOf(cfg, s, req);
      if encoded.exhausted {
        if encoded.chainId.Some? {
          ClosingFacts(cfg, s, req);
          CloseLengthExhaustedChain(encoded, origin.stripped);
        } else {
          NothingToClose(s, ViewEncoded(encoded), origin.stripped);
        }
        return LengthExhausted(|encoded.context|);
      }
      Reserve(rid, encoded, origin);
      return Call(encoded);
    }

    /** The request in flight fails: it gives up everything except the chain it must release. */
    ghost method FailRequest(rid: nat)
      requires Separate(activeChains, buffers) && rid in flights && !flights[rid].Failing?
      requires Linked(map r | r in flights && r != rid :: flights[r], buffers)
      modifies this`flights, this`buffers
      ensures Separate(activeChains, buffers) && Linked(flights, buffers)
      ensures Abs() == Fail(old(Abs()), rid)
    {
      ghost var s := Abs();
      flights, buffers := Fail(s, rid).flights, Without(buffers, rid);
      assert ViewChains(activeChains) == s.active;
    }

    /** The backend returned or raised. Other chains and other requests cannot notice. */
    method ReceiveOutput(ghost rid: nat, encoded: EncodedData, outcome: Result<Output>) returns (r: Result<()>)
      requires Valid() && Carries(rid, encoded) && flights[rid].Calling?
      modifies this`flights, this`buffers, encoded.buffer
      ensures Valid()
      ensures Abs() == StepReceive(cfg, old(Abs()), rid, outcome)
      ensures r.Ok? <==> rid in flights && flights[rid].Generated?
      ensures r.Ok? ==> Carries(rid, encoded)
    {
      hide Inv, Codec.Contract, Receive;
      ghost var s := Abs();
      StepKeeps(cfg, s, ReceiveEvent(rid, outcome));
      if outcome.Err? {
        FailRequest(rid);
        return Err(BackendFailed);
      }
      r := MergeOutput(cfg, encoded, outcome.value);
      assert Abs() == s;
      if r.Err? {
        FailRequest(rid);
      } else {
        flights := StepReceive(cfg, s, rid, outcome).flights;
        assert ViewChains(activeChains) == s.active;
      }
    }

    /** The request's buffer becomes the buffer of the chain at `k`: a new one, or one replaced. */
    method InstallChain(k: nat, c: ChainState, ghost rid: nat)
      requires k <= |activeChains| && Separate(activeChains, buffers)
      requires rid in buffers && c.buffer == buffers[rid]
      modifies this`activeChains, this`buffers
      ensures buffers == Without(old(buffers), rid) && Separate(activeChains, buffers)
      ensures ViewChains(activeChains) == (if k < old(|activeChains|) then old(ViewChains(activeChains))[k := old(ViewChain(c))]
                                           else old(ViewChains(activeChains)) + [old(ViewChain(c))])
    {
      var chains := if k < |activeChains| then activeChains[k := c] else activeChains + [c];
      SeparateMoved(activeChains, chains, buffers, rid, k);
      hide Separate;
      ghost var views := ViewChains(chains);
      assert views == if k < |activeChains| then ViewChains(activeChains)[k := ViewChain(c)]
                      else ViewChains(activeChains) + [ViewChain(c)];
      activeChains, buffers := chains, Without(buffers, rid);
      assert ViewChains(chains) == views;
    }

    /** The chain a commit writes, and where; finding it never fails. */
    method ChainToCommit(encoded: EncodedData, reply: Message, ghost rid: nat) returns (k: nat, c: ChainState)
      requires Valid() && phase == Active
      requires Carries(rid, encoded) && flights[rid].Generated?
      ensures encoded.start.Some? && c.buffer == encoded.buffer
      ensures CommitPlace(Abs(), flights[rid].encoded, k)
      ensures ViewChain(c) == CommittedChain(cfg, flights[rid].encoded, reply, CommitId(Abs(), flights[rid].encoded), orderSeq + 1)
    {
      hide Inv, Codec.Contract, Separate, Linked, Find;
      ghost var s := Abs();
      CommitReady(cfg, s, rid, reply);
      var hashes := ExtendPrefixHashes(cfg.hasher, encoded.hashes, [reply]);
      assert |hashes| == |encoded.messages| + 1;
      k := |activeChains|;
      var id := nextChainId;
      if encoded.chainId.Some? {
        id := encoded.chainId.value;
        var found := FindActiveChain(id);
        k := found.value;
      }
      assert ViewChains(activeChains) == s.active;
      c := Chain(id, encoded.messages + [reply], hashes[|hashes| - 1], encoded.tools, encoded.buffer, encoded.images,
                 encoded.videos, encoded.start.value, orderSeq + 1);
    }

    /** Extend the reserved chain, or open a new one, with the request's buffer. */
    method CommitGenerationToChain(encoded: EncodedData, reply: Message, ghost rid: nat) returns (id: nat)
      requires Valid() && phase == Active
      requires Carries(rid, encoded) && flights[rid].Generated?
      modifies this
      ensures Valid()
      ensures Abs() == StepCommit(cfg, old(Abs()), rid, Ok(reply))
      ensures id == CommitId(old(Abs()), old(flights[rid].encoded))
    {
      hide Inv, Codec.Contract, StepCommit, WithCommit, CommitHistory, Find, Separate, Linked;
      ghost var s := Abs();
      StepKeeps(cfg, s, CommitEvent(rid, Ok(reply)));
      var k, c := ChainToCommit(encoded, reply, rid);
      assert Abs() == s;
      CommitIsWithCommit(cfg, s, rid, reply, k);
      ApplyCommit(k, c, encoded, rid);
      id := c.id;
    }

    method ApplyCommit(k: nat, c: ChainState, encoded: EncodedData, ghost rid: nat)
      requires Separate(activeChains, buffers) && Linked(flights, buffers)
      requires Carries(rid, encoded) && flights[rid].Generated? && c.buffer == encoded.buffer
      requires k <= |activeChains|
      modifies this`activeChains, this`orderSeq, this`nextChainId, this`reservedChainIds
      modifies this`rollbackCount, this`rollbackDropped, this`flights, this`buffers, this`history
      ensures Separate(activeChains, buffers) && Linked(flights, buffers)
      ensures Abs() == WithCommit(old(Abs()), rid, old(ViewChain(c)), k)
    {
      ghost var f, records, rest := flights[rid], Without(flights, rid), Without(buffers, rid);
      LinkedWithout(flights, buffers, rid);
      hide Separate, CommitHistory, Linked, Without;
      InstallChain(k, c, rid);
      RecordCommit(encoded, c.id, rid, f);
      assert Linked(records, rest);
    }

    /** The counters, the reservation and the bookkeeping after a commit. */
    method RecordCommit(encoded: EncodedData, id: nat, ghost rid: nat, ghost f: Flight<Buffer>)
      requires f.Generated?
      modifies this`orderSeq, this`nextChainId, this`reservedChainIds, this`rollbackCount, this`rollbackDropped
      modifies this`flights, this`history
      ensures orderSeq == old(orderSeq) + 1
      ensures nextChainId == old(nextChainId) + (if encoded.chainId.Some? then 0 else 1)
      ensures reservedChainIds == old(reservedChainIds) - (if encoded.chainId.Some? then {id} else {})
      ensures rollbackCount == old(rollbackCount) + (if encoded.rollback then 1 else 0)
      ensures rollbackDropped == old(rollbackDropped) + (if encoded.rollback then encoded.dropped else 0)
      ensures flights == Without(old(flights), rid) && history == CommitHistory(old(history), f, id)
      ensures ViewChains(activeChains) == old(ViewChains(activeChains))
    {
      hide CommitHistory;
      ghost var views := ViewChains(activeChains);
      orderSeq := orderSeq + 1;
      if encoded.chainId.Some? {
        reservedChainIds := reservedChainIds - {id};
      } else {
        nextChainId := nextChainId + 1;
      }
      if encoded.rollback {
        rollbackCount, rollbackDropped := rollbackCount + 1, rollbackDropped + encoded.dropped;
      }
      flights, history := Without(flights, rid), CommitHistory(history, f, id);
      assert ViewChains(activeChains) == views;
    }

    /** The part of a generation after the backend call, under the lock again. */
    method FinishGeneration(ghost rid: nat, encoded: EncodedData, decoded: Result<Message>) returns (r: Result<nat>)
      requires Valid() && Carries(rid, encoded) && flights[rid].Generated?
      modifies this
      ensures Valid()
      ensures Abs() == StepCommit(cfg, old(Abs()), rid, decoded)
      ensures r == if old(phase) != Active then Err(NotActive)
                   else if decoded.Err? then Err(decoded.error)
                   else Ok(CommitId(old(Abs()), old(flights[rid].encoded)))
    {
      hide Inv, Codec.Contract, CommittedChain, CommitHistory, Find;
      ghost var s := Abs();
      if phase == Active && decoded.Ok? {
        var id := CommitGenerationToChain(encoded, decoded.value, rid);
        return Ok(id);
      }
      StepKeeps(cfg, s, CommitEvent(rid, decoded));
      FailRequest(rid);
      return Err(if phase != Active then NotActive else decoded.error);
    }

    /** The request's task is cancelled, wherever it is. */
    ghost method Cancel(rid: nat)
      requires Valid() && rid in flights && !flights[rid].Failing?
      modifies this`flights, this`buffers
      ensures Valid() && Abs() == StepCancel(old(Abs()), rid)
    {
      hide Inv, Codec.Contract, Fail;
      StepKeeps(cfg, Abs(), CancelEvent(rid));
      FailRequest(rid);
    }

    /** The shielded release that follows every failure of a request that reserved a chain. */
    method ReleaseChainReservation(id: nat, ghost rid: nat)
      requires Valid() && rid in flights && flights[rid] == Failing(id)
      modifies this`reservedChainIds, this`flights
      ensures Valid() && Abs() == StepRelease(old(Abs()), rid)
    {
      hide Inv, Codec.Contract;
      ghost var s := Abs();
      StepKeeps(cfg, s, ReleaseEvent(rid));
      reservedChainIds, flights := reservedChainIds - {id}, Without(flights, rid);
      assert ViewChains(activeChains) == s.active;
    }

    method MaterializeActiveChains()
      requires forall c | c in activeChains :: c.buffer.Aligned()
      modifies this`activeChains, this`materializedChains
      ensures activeChains == []
      ensures materializedChains == old(materializedChains) + MaterializeAll(old(ViewChains(activeChains)))
    {
      hide Materialize;
      ghost var before, views := materializedChains, ViewChains(activeChains);
      for i := 0 to |activeChains|
        invariant activeChains == old(activeChains)
        invariant materializedChains == before + MaterializeAll(views)[..i]
      {
        var c := activeChains[i];
        assert ViewChain(c) == views[i];
        materializedChains := materializedChains + [Closed(BuildTrajectory(c, false), c.updatedSeq)];
      }
      activeChains := [];
    }

    /** Close the session: every surviving chain, in the order of its last commit or close. */
    method Finalize() returns (r: Result<seq<Trajectory>>)
      requires Valid()
      modifies this
      ensures Valid() && Abs() == StepFinalize(old(Abs()))
      ensures r.Ok? <==> old(phase) == Active
      ensures r.Ok? ==> r.value == Trajectories(SortByOrder(materializedChains))
      ensures r.Err? ==> r.error == RuntimeFailed
    {
      hide Inv, Codec.Contract, SortByOrder;
      ghost var s := Abs();
      StepKeeps(cfg, s, FinalizeEvent);
      if phase != Active {
        return Err(RuntimeFailed);
      }
      ActiveAligned(cfg, s, activeChains);
      MaterializeActiveChains();
      reservedChainIds, phase := {}, Finalized;
      history := history.(finalizes := history.finalizes + 1);
      assert Abs() == StepFinalize(s);
      return Ok(Trajectories(SortByOrder(materializedChains)));
    }

    method Abort() returns (r: Result<()>)
      requires Valid()
      modifies this`phase, this`activeChains, this`materializedChains, this`reservedChainIds
      ensures Valid() && Abs() == StepAbort(old(Abs()))
      ensures r.Ok? <==> old(phase) != Finalized
    {
      hide Inv, Codec.Contract;
      ghost var s := Abs();
      StepKeeps(cfg, s, AbortEvent);
      if phase == Aborted {
        return Ok(());
      }
      if phase == Finalized {
        return Err(RuntimeFailed);
      }
      phase, activeChains, materializedChains, reservedChainIds := Aborted, [], [], {};
      return Ok(());
    }
  }
}
