/** The gateway session as a state machine over values. One request is several atomic
    steps: prepare and reserve under the lock, the backend call outside it, commit or
    release under it again. Other requests, finalize and abort may come between any two. */
module SessionModel {
  import opened Wrappers
  import opened Sequences
  import opened Messages
  import opened Codecs
  import opened Chains
  import opened Selection

  datatype Config = Config(codec: Codec, hasher: Hasher, capacity: Option<nat>, rollbackEnabled: bool) {
    predicate AtCapacity(n: nat) {
      capacity.Some? && n >= capacity.value
    }
  }

  datatype Request = Request(messages: seq<Message>, tools: Tools, maxTokens: Option<int>, logprobs: bool)

  /** What the backend returns. */
  datatype Output = Output(tokens: seq<Token>, logprobs: Option<seq<real>>, version: Version)

  /** The handoff from preparation to the backend call and to the commit. */
  datatype Encoded<B> = Encoded(
    buffer: B, context: seq<Token>, maxTokens: Option<int>, logprobs: bool,
    messages: seq<Message>, tools: Tools, images: MediaList, videos: MediaList,
    exhausted: bool, chainId: Option<nat>, hashes: seq<Hash>, start: Option<Start>,
    rollback: bool, dropped: nat)

  // ---------------------------------------------------------------- preparation

  /** A chain's buffer and media, cut back or not, before new context is merged. */
  datatype Base = Base(buffer: Buffer, images: MediaList, videos: MediaList, dropped: nat)

  function RollBackMedia(media: MediaList, n: nat): Result<MediaList> {
    match media
    case None => Ok(None)
    case Some(list) =>
      if n > |list| then Err(AssertionFailed)
      else Ok(if n == 0 then None else Some(list[..n]))
  }

  /** Cut `prefix` off the stored tokens: off the prompt when no response survives.
      A negative `cut` never passes the slice test (Sequences.SliceFromTestsSuffix). */
  function StripPrefix(prefix: seq<Token>, b: Buffer): Result<Buffer> {
    var stored := if b.response == [] then b.prompt else b.response;
    var cut := |stored| - |prefix|;
    if SliceFrom(stored, cut) != prefix || cut < 0 then Err(ValueRejected)
    else if b.response == [] then Ok(b.(prompt := Take(b.prompt, cut)))
    else Ok(b.(response := Take(b.response, cut), mask := Take(b.mask, cut), logprobs := Take(b.logprobs, cut)))
  }

  /** Drop everything from `n` response tokens on, and the last version mark. */
  function Truncate(b: Buffer, n: nat): Buffer {
    Buffer(b.prompt, Take(b.response, n), Take(b.mask, n), Take(b.logprobs, n),
           Take(b.versions, if b.versions == [] then 0 else |b.versions| - 1))
  }

  /** Remove a chain's latest assistant and the prefix that opened it. */
  function RollBack(prefix: seq<Token>, c: Chain<Buffer>): Result<Base> {
    if c.start.responseLen > |c.buffer.response| then Err(AssertionFailed)
    else
      var dropped := Sum(Drop(c.buffer.mask, c.start.responseLen));
      var images :- RollBackMedia(c.images, c.start.imageLen);
      var videos :- RollBackMedia(c.videos, c.start.videoLen);
      var b :- StripPrefix(prefix, Truncate(c.buffer, c.start.responseLen));
      if b.Aligned() then Ok(Base(b, images, videos, dropped)) else Err(AssertionFailed)
  }

  /** Take over a merged token stream, whose prompt must be unchanged. */
  function Adopt(b: Buffer, m: Merged): Result<Buffer> {
    if Take(m.ids, |b.prompt|) != b.prompt then Err(RuntimeFailed)
    else
      var r := b.(response := Drop(m.ids, |b.prompt|), mask := m.mask, logprobs := m.logprobs.GetOr([]));
      if r.Aligned() then Ok(r) else Err(AssertionFailed)
  }

  function ExtendMedia(media: MediaList, added: MediaList): MediaList {
    if NonEmpty(added) then Some(media.GetOr([]) + added.value) else media
  }

  /** The encoded data for a chosen buffer, with the budget clamp and the boundary snapshot. */
  function Seal(cfg: Config, req: Request, hashes: seq<Hash>, base: Base,
                chainId: Option<nat>, rollback: bool, exhausted: bool): Result<Encoded<Buffer>>
  {
    var context := base.buffer.Tokens();
    if exhausted then
      Ok(Encoded(base.buffer, context, None, false, req.messages, req.tools, base.images, base.videos,
                 true, chainId, hashes, None, rollback, base.dropped))
    else if hashes == [] then Err(IndexOutOfRange)
    else
      var maxTokens :=
        match cfg.capacity
        case None => req.maxTokens
        case Some(cap) =>
          var room := cap - |context|;
          Some(if req.maxTokens.Some? && req.maxTokens.value < room then req.maxTokens.value else room);
      var start := Start(|base.buffer.response|, |req.messages|, Count(base.images), Count(base.videos),
                         hashes[|hashes| - 1]);
      Ok(Encoded(base.buffer, context, maxTokens, req.logprobs, req.messages, req.tools,
                 base.images, base.videos, false, chainId, hashes, Some(start), rollback, base.dropped))
  }

  function PrepareFresh(cfg: Config, req: Request, hashes: seq<Hash>): Result<Encoded<Buffer>> {
    var media :- cfg.codec.extractMedia(req.messages);
    var prompt :- cfg.codec.buildInitial(InitialCall(req.messages, req.tools, media));
    Seal(cfg, req, hashes, Base(Buffer(prompt, [], [], [], []), media.images, media.videos, 0),
         None, false, cfg.AtCapacity(|prompt|))
  }

  /** How much of the request the selected chain already covers. */
  function Covered<B>(choice: Choice<B>): nat {
    if choice.rollback then choice.chain.start.historyLen else |choice.chain.history|
  }

  function BaseOf(cfg: Config, choice: Choice<Buffer>): Result<Base> {
    if !choice.chain.buffer.Aligned() then Err(AssertionFailed)
    else if choice.rollback then RollBack(cfg.codec.AssistantPrefix(), choice.chain)
    else Ok(Base(choice.chain.buffer, choice.chain.images, choice.chain.videos, 0))
  }

  function PrepareContinuation(cfg: Config, choice: Choice<Buffer>, req: Request, hashes: seq<Hash>)
    : Result<Encoded<Buffer>>
  {
    var base :- BaseOf(cfg, choice);
    MergeSuffix(cfg, choice, base, req, hashes)
  }

  /** Merge the messages the chain does not cover, unless the trajectory is already full. */
  function MergeSuffix(cfg: Config, choice: Choice<Buffer>, base: Base, req: Request, hashes: seq<Hash>)
    : Result<Encoded<Buffer>>
  {
    var id := Some(choice.chain.id);
    var suffix := Drop(req.messages, Covered(choice));
    var previous := if choice.rollback then Take(req.messages, Covered(choice)) else choice.chain.history;
    var tokens := base.buffer.Tokens();
    if cfg.AtCapacity(|tokens|) || suffix == [] then
      Seal(cfg, req, hashes, base, id, choice.rollback, cfg.AtCapacity(|tokens|))
    else
      var media :- cfg.codec.extractMedia(suffix);
      var merged :- cfg.codec.MergeContext(
        ContextCall(previous, previous + suffix, tokens, base.buffer.mask,
                    if req.logprobs then Some(base.buffer.logprobs) else None, req.tools),
        media);
      if cfg.AtCapacity(|merged.ids|) then
        Seal(cfg, req, hashes, base, id, choice.rollback, true)
      else
        var buffer :- Adopt(base.buffer, merged);
        Seal(cfg, req, hashes,
             base.(buffer := buffer, images := ExtendMedia(base.images, media.images),
                   videos := ExtendMedia(base.videos, media.videos)),
             id, choice.rollback, false)
  }

  function QueryFor(cfg: Config, reserved: set<nat>, req: Request): Query {
    Query(reserved, req.tools, cfg.hasher.Prefixes(req.messages), cfg.rollbackEnabled)
  }

  ghost function Prepare(cfg: Config, active: seq<Chain<Buffer>>, reserved: set<nat>, req: Request)
    : Result<Encoded<Buffer>>
  {
    var q := QueryFor(cfg, reserved, req);
    match Select(q, active)
    case None => PrepareFresh(cfg, req, q.hashes)
    case Some(choice) => PrepareContinuation(cfg, choice, req, q.hashes)
  }

  // ------------------------------------------------------------ backend output

  /** Merge the generated tokens into the request's private buffer. */
  function Receive(cfg: Config, e: Encoded<Buffer>, out: Output): Result<Buffer> {
    if e.logprobs && (out.logprobs.None? || |out.logprobs.value| != |out.tokens|) then Err(RuntimeFailed)
    else
      var merged :- cfg.codec.mergeAssistant(
        AssistantCall(e.buffer.Tokens(), out.tokens, e.buffer.mask,
                      if e.logprobs then Some(e.buffer.logprobs) else None,
                      if e.logprobs then out.logprobs else None));
      Adopt(e.buffer.(versions := e.buffer.versions + [out.version]), merged)
  }

  // -------------------------------------------------------------- materializing

  function CountTurns(history: seq<Message>): nat {
    if history == [] then 1
    else (if history[0].role == "user" || history[0].role == "assistant" then 1 else 0) + CountTurns(history[1..])
  }

  function Materialize(c: Chain<Buffer>, lengthLimited: bool): Trajectory {
    Trajectory(c.buffer.prompt, c.buffer.response, c.buffer.mask,
               if c.buffer.logprobs == [] then None else Some(c.buffer.logprobs),
               CountTurns(c.history), c.id,
               if NonEmpty(c.images) then c.images else None,
               if NonEmpty(c.videos) then c.videos else None,
               c.buffer.versions, VersionSpan(c.buffer.versions), lengthLimited)
  }

  function MaterializeAll(chains: seq<Chain<Buffer>>): (r: seq<Closed>)
    ensures |r| == |chains|
    ensures forall i | 0 <= i < |chains| :: r[i] == Closed(Materialize(chains[i], false), chains[i].updatedSeq)
  {
    seq(|chains|, i requires 0 <= i < |chains| => Closed(Materialize(chains[i], false), chains[i].updatedSeq))
  }

  // ---------------------------------------------------------------------- state

  datatype Phase = Active | Finalized | Aborted

  /** One generation that survives in a chain: what was sent to the backend, what came back,
      and whether its context ended in freshly rendered tokens (`merged`). */
  datatype Generation = Generation(context: seq<Token>, output: seq<Token>, version: Version, merged: bool)

  /** What a request in flight was prepared from. */
  datatype Origin = Origin(base: Option<Chain<Buffer>>, merged: bool, stripped: nat)

  datatype Flight<B> =
    | Calling(encoded: Encoded<B>, origin: Origin)
    | Generated(encoded: Encoded<B>, origin: Origin, output: Output)
    | Failing(chainId: nat)

  /** Specification-only bookkeeping. `completed` counts the tokens of committed generations,
      `stripped` the mask-1 tokens cut away as part of an assistant prefix. */
  datatype History = History(completed: nat, stripped: nat, dropped: set<nat>, finalizes: nat,
                             generations: map<nat, seq<Generation>>)

  datatype State = State(active: seq<Chain<Buffer>>, closed: seq<Closed>, reserved: set<nat>,
                         nextId: nat, orderSeq: nat, rollbackCount: nat, rollbackDropped: nat,
                         phase: Phase, flights: map<nat, Flight<Buffer>>, history: History)

  const INITIAL := State([], [], {}, 1, 0, 0, 0, Active, map[], History(0, 0, {}, 0, map[]))

  function Without<V>(m: map<nat, V>, k: nat): (r: map<nat, V>)
    ensures r.Keys == m.Keys - {k}
    ensures forall i | i in r :: r[i] == m[i]
  {
    m - {k}
  }

  // ---------------------------------------------------------------------- steps

  /** The chain a selection continues, as the commit will find it again. */
  ghost function OriginOf(cfg: Config, s: State, req: Request): Origin {
    match Select(QueryFor(cfg, s.reserved, req), s.active)
    case None => Origin(None, true, 0)
    case Some(choice) =>
      Origin(Some(choice.chain), Drop(req.messages, Covered(choice)) != [],
             if choice.rollback then StrippedBy(cfg.codec.AssistantPrefix(), choice.chain) else 0)
  }

  /** Trainable tokens among those a rollback cuts as assistant prefix. */
  function StrippedBy(prefix: seq<Token>, c: Chain<Buffer>): nat {
    var n := c.start.responseLen;
    if 0 < n <= |c.buffer.mask| && |prefix| <= n then Sum(c.buffer.mask[n - |prefix|..n]) else 0
  }

  function RecordRollback(s: State, e: Encoded<Buffer>): State {
    if e.rollback then
      s.(rollbackCount := s.rollbackCount + 1, rollbackDropped := s.rollbackDropped + e.dropped)
    else s
  }

  /** The chain as it is closed: cut back when the exhausted request rewrote its last assistant. */
  function ClosingChain(c: Chain<Buffer>, e: Encoded<Buffer>): Chain<Buffer> {
    if e.rollback then
      c.(history := Take(e.messages, c.start.historyLen), buffer := e.buffer, images := e.images, videos := e.videos)
    else c
  }

  /** Close the selected chain because nothing more fits. */
  function CloseExhausted(s: State, e: Encoded<Buffer>, stripped: nat): State {
    if e.chainId.None? || Find(s.active, e.chainId.value).None? then s
    else
      var i := Find(s.active, e.chainId.value).value;
      var c := s.active[i];
      var r := RecordRollback(s, e);
      if e.rollback && c.start.responseLen == 0 then
        r.(active := RemoveAt(s.active, i), history := s.history.(dropped := s.history.dropped + {c.id}))
      else
        r.(active := RemoveAt(s.active, i),
           orderSeq := s.orderSeq + 1,
           closed := s.closed + [Closed(Materialize(ClosingChain(c, e), true), s.orderSeq + 1)],
           history := s.history.(stripped := s.history.stripped + stripped))
  }

  ghost function StepPrepare(cfg: Config, s: State, rid: nat, req: Request): State {
    if s.phase != Active || rid in s.flights then s
    else match Prepare(cfg, s.active, s.reserved, req)
         case Err(_) => s
         case Ok(e) =>
           var origin := OriginOf(cfg, s, req);
           if e.exhausted then CloseExhausted(s, e, origin.stripped)
           else s.(reserved := s.reserved + (if e.chainId.Some? then {e.chainId.value} else {}),
                   flights := s.flights[rid := Calling(e, origin)])
  }

  /** An exception or a cancellation: a reserving request still has to release its chain. */
  function Fail(s: State, rid: nat): State
    requires rid in s.flights && !s.flights[rid].Failing?
  {
    match s.flights[rid].encoded.chainId
    case None => s.(flights := Without(s.flights, rid))
    case Some(id) => s.(flights := s.flights[rid := Failing(id)])
  }

  function StepReceive(cfg: Config, s: State, rid: nat, outcome: Result<Output>): State {
    if rid !in s.flights || !s.flights[rid].Calling? then s
    else
      var f := s.flights[rid];
      match outcome
      case Err(_) => Fail(s, rid)
      case Ok(out) =>
        match Receive(cfg, f.encoded, out)
        case Err(_) => Fail(s, rid)
        case Ok(b) => s.(flights := s.flights[rid := Generated(f.encoded.(buffer := b), f.origin, out)])
  }

  /** The chain a commit writes. */
  function CommittedChain(cfg: Config, e: Encoded<Buffer>, reply: Message, id: nat, order: nat): Chain<Buffer>
    requires e.start.Some?
  {
    Chain(id, e.messages + [reply],
          cfg.hasher.Next(cfg.hasher.Tip(e.hashes), reply),
          e.tools, e.buffer, e.images, e.videos, e.start.value, order)
  }

  function Surviving(h: History, e: Encoded<Buffer>, id: nat): seq<Generation> {
    var all := if id in h.generations && e.chainId.Some? then h.generations[id] else [];
    if e.rollback && all != [] then all[..|all| - 1] else all
  }

  function CommitHistory(h: History, f: Flight<Buffer>, id: nat): History
    requires f.Generated?
  {
    var g := Generation(f.encoded.context, f.output.tokens, f.output.version, f.origin.merged);
    h.(completed := h.completed + |f.output.tokens|,
       stripped := h.stripped + f.origin.stripped,
       generations := h.generations[id := Surviving(h, f.encoded, id) + [g]])
  }

  function StepCommit(cfg: Config, s: State, rid: nat, decoded: Result<Message>): State {
    if rid !in s.flights || !s.flights[rid].Generated? then s
    else if s.phase != Active || decoded.Err? || s.flights[rid].encoded.start.None? then Fail(s, rid)
    else
      var f := s.flights[rid];
      var e := f.encoded;
      var r := RecordRollback(s, e);
      var order := s.orderSeq + 1;
      match e.chainId
      case None =>
        r.(active := s.active + [CommittedChain(cfg, e, decoded.value, s.nextId, order)],
           nextId := s.nextId + 1, orderSeq := order,
           flights := Without(s.flights, rid),
           history := CommitHistory(s.history, f, s.nextId))
      case Some(id) =>
        match Find(s.active, id)
        case None => Fail(r, rid)
        case Some(i) =>
          r.(active := s.active[i := CommittedChain(cfg, e, decoded.value, id, order)],
             orderSeq := order, reserved := s.reserved - {id},
             flights := Without(s.flights, rid),
             history := CommitHistory(s.history, f, id))
  }

  function StepRelease(s: State, rid: nat): State {
    if rid !in s.flights || !s.flights[rid].Failing? then s
    else s.(reserved := s.reserved - {s.flights[rid].chainId}, flights := Without(s.flights, rid))
  }

  function StepCancel(s: State, rid: nat): State {
    if rid !in s.flights || s.flights[rid].Failing? then s else Fail(s, rid)
  }

  function StepFinalize(s: State): State {
    if s.phase != Active then s
    else s.(closed := s.closed + MaterializeAll(s.active), active := [], reserved := {}, phase := Finalized,
            history := s.history.(finalizes := s.history.finalizes + 1))
  }

  function StepAbort(s: State): State {
    if s.phase != Active then s
    else s.(phase := Aborted, active := [], closed := [], reserved := {})
  }

  datatype Event =
    | PrepareEvent(rid: nat, request: Request)
    | ReceiveEvent(rid: nat, outcome: Result<Output>)
    | CommitEvent(rid: nat, decoded: Result<Message>)
    | ReleaseEvent(rid: nat)
    | CancelEvent(rid: nat)
    | FinalizeEvent
    | AbortEvent

  ghost function Step(cfg: Config, s: State, e: Event): State {
    match e
    case PrepareEvent(rid, req) => StepPrepare(cfg, s, rid, req)
    case ReceiveEvent(rid, outcome) => StepReceive(cfg, s, rid, outcome)
    case CommitEvent(rid, decoded) => StepCommit(cfg, s, rid, decoded)
    case ReleaseEvent(rid) => StepRelease(s, rid)
    case CancelEvent(rid) => StepCancel(s, rid)
    case FinalizeEvent => StepFinalize(s)
    case AbortEvent => StepAbort(s)
  }

  /** The state after a whole run, in any interleaving. */
  ghost function Run(cfg: Config, events: seq<Event>): State {
    if events == [] then INITIAL
    else Step(cfg, Run(cfg, events[..|events| - 1]), events[|events| - 1])
  }
}
