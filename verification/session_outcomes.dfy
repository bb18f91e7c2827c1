/** When a request is let through, closes a chain, or raises: decided for every reachable state by the
    capacity, the chain selected and the codec's answers. */
module SessionOutcomes {
  import opened Wrappers
  import opened Sequences
  import opened Messages
  import opened Codecs
  import opened Chains
  import opened Selection
  import opened SessionModel
  import opened SessionInvariant
  import opened SessionSafety
  import opened SessionTheorems
  import opened SessionRequests
  import opened SessionRecords

  /** How a preparation ends: with a call to the backend, with nothing left to generate, or with an exception. */
  datatype Outcome = Calls | Exhausts | Raises(error: Error)

  function OutcomeOf<B>(r: Result<Encoded<B>>): Outcome {
    match r
    case Err(error) => Raises(error)
    case Ok(e) => if e.exhausted then Exhausts else Calls
  }

  predicate Fills(capacity: Option<nat>, ids: seq<Token>) {
    capacity.Some? && |ids| >= capacity.value
  }

  /** How a request that continues nothing ends. */
  predicate FreshEnds(cfg: Config, req: Request, o: Outcome) {
    match cfg.codec.extractMedia(req.messages)
    case Err(error) => o == Raises(error)
    case Ok(media) =>
      match cfg.codec.buildInitial(InitialCall(req.messages, req.tools, media))
      case Err(error) => o == Raises(error)
      case Ok(ids) =>
        if Fills(cfg.capacity, ids) then o == Exhausts
        else if req.messages == [] then o == Raises(IndexOutOfRange)
        else o == Calls
  }

  /** What a rollback keeps ends in the tokens that open an assistant turn. */
  predicate CanCut(prefix: seq<Token>, c: Chain<Buffer>) {
    EndsWith(if c.start.responseLen == 0 then c.buffer.prompt else Take(c.buffer.response, c.start.responseLen), prefix)
  }

  /** No incremental media, which the codec refuses. */
  predicate Mergeable(media: MediaPair) {
    !NonEmpty(media.images) && !NonEmpty(media.videos)
  }

  /** As many log probabilities came back as tokens, or none. */
  predicate LogprobsFit(m: Merged) {
    var logprobs := m.logprobs.GetOr([]);
    |logprobs| == 0 || |logprobs| == |m.mask|
  }

  /** How the merge of new messages ends, from the codec's answer. */
  predicate MergeEnds(cfg: Config, answer: Result<Merged>, o: Outcome) {
    match answer
    case Err(error) => o == Raises(error)
    case Ok(m) =>
      if Fills(cfg.capacity, m.ids) then o == Exhausts
      else if LogprobsFit(m) then o == Calls
      else o == Raises(AssertionFailed)
  }

  /** How a request that continues a chain ends, from the buffer it starts from. */
  ghost predicate BaseEnds(cfg: Config, req: Request, previous: seq<Message>, base: Buffer, o: Outcome) {
    if Fills(cfg.capacity, base.Tokens()) then o == Exhausts
    else if |req.messages| <= |previous| then o == Calls
    else
      match cfg.codec.extractMedia(req.messages[|previous|..])
      case Err(error) => o == Raises(error)
      case Ok(media) =>
        if !Mergeable(media) then o == Raises(ValueRejected)
        else exists call: ContextCall ::
               Asks(cfg, req, previous, base, call) && MergeEnds(cfg, cfg.codec.appendContext(call), o)
  }

  ghost predicate ContinuationEnds(cfg: Config, req: Request, c: Chain<Buffer>, rollback: bool, o: Outcome) {
    if rollback && !CanCut(cfg.codec.AssistantPrefix(), c) then o == Raises(ValueRejected)
    else exists base: Base ::
           && StartsFrom(cfg.codec.AssistantPrefix(), c, rollback, base)
           && BaseEnds(cfg, req, CoveredMessages(c, rollback, req), base.buffer, o)
  }

  /** How a preparation ends in a state. A chain is cut back only where that is enabled. */
  ghost predicate Ends(cfg: Config, s: State, req: Request, o: Outcome) {
    match Select(QueryFor(cfg, s.reserved, req), s.active)
    case None => FreshEnds(cfg, req, o)
    case Some(choice) =>
      && (choice.rollback ==> cfg.rollbackEnabled)
      && ContinuationEnds(cfg, req, choice.chain, choice.rollback, o)
  }

  // ----------------------------------------------------------------- one preparation

  lemma FreshDecided(cfg: Config, req: Request)
    ensures FreshEnds(cfg, req, OutcomeOf(PrepareFresh(cfg, req, cfg.hasher.Prefixes(req.messages))))
  {
  }

  /** A rollback of a well-formed chain raises `ValueError` exactly when the prefix is not there, and nothing else. */
  lemma BaseDecided(cfg: Config, gens: map<nat, seq<Generation>>, choice: Choice<Buffer>)
    requires ChainOk(cfg, gens, choice.chain)
    ensures BaseOf(cfg, choice).Ok? <==> (choice.rollback ==> CanCut(cfg.codec.AssistantPrefix(), choice.chain))
    ensures BaseOf(cfg, choice).Err? ==> BaseOf(cfg, choice) == Err(ValueRejected)
  {
    var c, prefix := choice.chain, cfg.codec.AssistantPrefix();
    ChainTokens(cfg, gens, c);
    hide ChainOk;
    if choice.rollback {
      CutDecided(prefix, c);
      MediaDecided(c.images, c.start.imageLen);
      MediaDecided(c.videos, c.start.videoLen);
    }
  }

  lemma MediaDecided(media: MediaList, n: nat)
    requires n <= Count(media)
    ensures RollBackMedia(media, n).Ok?
  {
  }

  lemma CutDecided(prefix: seq<Token>, c: Chain<Buffer>)
    requires c.buffer.Aligned() && c.start.responseLen <= |c.buffer.response|
    ensures var r := StripPrefix(prefix, Truncate(c.buffer, c.start.responseLen));
            && (r.Ok? <==> CanCut(prefix, c))
            && (r.Err? ==> r == Err(ValueRejected))
            && (r.Ok? ==> r.value.Aligned())
  {
    var b := Truncate(c.buffer, c.start.responseLen);
    SliceFromTestsSuffix(if b.response == [] then b.prompt else b.response, prefix);
  }

  lemma AdoptDecided(cfg: Config, base: Buffer, call: ContextCall)
    requires cfg.codec.Contract() && base.Aligned()
    requires call.runtime == base.Tokens() && call.mask == base.mask && cfg.codec.appendContext(call).Ok?
    ensures var m := cfg.codec.appendContext(call).value;
            Adopt(base, m) == if LogprobsFit(m) then Adopt(base, m) else Err(AssertionFailed)
    ensures Adopt(base, cfg.codec.appendContext(call).value).Ok? <==> LogprobsFit(cfg.codec.appendContext(call).value)
  {
    assert cfg.codec.ContextContract(call);
    var m := cfg.codec.appendContext(call).value;
    assert m.ids == base.prompt + (base.response + m.ids[|call.runtime|..]);
  }

  lemma SealDecided(cfg: Config, req: Request, base: Base, id: Option<nat>, rollback: bool, exhausted: bool)
    requires req.messages != []
    ensures OutcomeOf(Seal(cfg, req, cfg.hasher.Prefixes(req.messages), base, id, rollback, exhausted))
            == if exhausted then Exhausts else Calls
  {
  }

  lemma MergedDecided(cfg: Config, choice: Choice<Buffer>, base: Base, req: Request, suffix: seq<Message>, call: ContextCall)
    requires cfg.codec.Contract() && base.buffer.Aligned() && req.messages != []
    requires suffix == Drop(req.messages, Covered(choice)) != [] && !cfg.AtCapacity(|base.buffer.Tokens()|)
    requires cfg.codec.extractMedia(suffix).Ok? && Mergeable(cfg.codec.extractMedia(suffix).value)
    requires var previous := if choice.rollback then Take(req.messages, Covered(choice)) else choice.chain.history;
             call == ContextCall(previous, previous + suffix, base.buffer.Tokens(), base.buffer.mask,
                                 if req.logprobs then Some(base.buffer.logprobs) else None, req.tools)
    ensures MergeEnds(cfg, cfg.codec.appendContext(call),
                      OutcomeOf(MergeSuffix(cfg, choice, base, req, cfg.hasher.Prefixes(req.messages))))
  {
    hide Adopt, Codec.Contract, ExtendMedia, LogprobsFit;
    if cfg.codec.appendContext(call).Ok? {
      AdoptDecided(cfg, base.buffer, call);
    }
  }

  lemma MergeDecided(cfg: Config, choice: Choice<Buffer>, base: Base, req: Request)
    requires cfg.codec.Contract() && base.buffer.Aligned() && req.messages != []
    requires |choice.chain.history| >= 2 && choice.chain.start.historyLen == |choice.chain.history| - 1
    requires Covered(choice) <= |req.messages|
    requires cfg.hasher.Injective() && !choice.rollback ==>
               SameConversation(choice.chain.history, req.messages[..|choice.chain.history|])
    ensures BaseEnds(cfg, req, CoveredMessages(choice.chain, choice.rollback, req), base.buffer,
                     OutcomeOf(MergeSuffix(cfg, choice, base, req, cfg.hasher.Prefixes(req.messages))))
  {
    hide Adopt, Codec.Contract, ExtendMedia, Hasher.Injective, SameConversation, LogprobsFit, MergeEnds;
    var c := choice.chain;
    var suffix := Drop(req.messages, Covered(choice));
    var previous := CoveredMessages(c, choice.rollback, req);
    assert |previous| == Covered(choice);
    if !cfg.AtCapacity(|base.buffer.Tokens()|) && suffix != [] {
      assert req.messages[|previous|..] == suffix;
      if cfg.codec.extractMedia(suffix).Ok? && Mergeable(cfg.codec.extractMedia(suffix).value) {
        var call := ContextCall(previous, previous + suffix, base.buffer.Tokens(), base.buffer.mask,
                                if req.logprobs then Some(base.buffer.logprobs) else None, req.tools);
        if cfg.hasher.Injective() {
          WholeConversation(previous, req.messages);
        }
        assert Asks(cfg, req, previous, base.buffer, call);
        MergedDecided(cfg, choice, base, req, suffix, call);
      }
    }
  }

  /** Every preparation ends as the selection, the capacity and the codec's answers say. */
  lemma PreparationDecided(cfg: Config, s: State, req: Request)
    requires cfg.codec.Contract()
    requires forall c | c in s.active :: ChainOk(cfg, s.history.generations, c)
    ensures Ends(cfg, s, req, OutcomeOf(Prepare(cfg, s.active, s.reserved, req)))
  {
    hide PrepareFresh, MergeSuffix, Codec.Contract, StartsFrom, BaseEnds, FreshEnds, CanCut, BaseOf, ChainOk, Select;
    hide Hasher.Injective, SameConversation;
    var q := QueryFor(cfg, s.reserved, req);
    match Select(q, s.active)
    case None => FreshDecided(cfg, req);
    case Some(choice) =>
      SelectedSays(cfg, s.history.generations, s.active, s.reserved, req);
      SelectedCovers(cfg, s.history.generations, s.active, s.reserved, req);
      BaseDecided(cfg, s.history.generations, choice);
      if BaseOf(cfg, choice).Ok? {
        BaseOfAccounts(cfg, choice);
        BaseStarts(cfg, choice);
        MergeDecided(cfg, choice, BaseOf(cfg, choice).value, req);
      }
  }

  // --------------------------------------------------------------------- in every run

  /** In every reachable state a new request is let through, closes its chain, or raises and leaves no trace,
      exactly as its preparation ends. */
  lemma EveryPreparationDecided(cfg: Config, events: seq<Event>, rid: nat, req: Request) returns (o: Outcome)
    requires cfg.codec.Contract()
    requires Run(cfg, events).phase == Active && rid !in Run(cfg, events).flights
    ensures Ends(cfg, Run(cfg, events), req, o)
    ensures var s, s' := Run(cfg, events), Run(cfg, events + [PrepareEvent(rid, req)]);
            && (o.Calls? <==> rid in s'.flights)
            && (o.Calls? ==> s'.flights.Keys == s.flights.Keys + {rid} && s'.active == s.active && s'.closed == s.closed)
            && (o.Exhausts? ==>
                  && s'.flights == s.flights
                  && |s'.active| + (if Select(QueryFor(cfg, s.reserved, req), s.active).Some? then 1 else 0) == |s.active|)
            && (o.Raises? ==> s' == s)
  {
    hide Run, StepPrepare, Ends, Inv, Codec.Contract, Select;
    RunKeeps(cfg, events);
    RunPrepare(cfg, events, rid, req);
    o := StepDecided(cfg, Run(cfg, events), rid, req);
  }

  lemma StepDecided(cfg: Config, s: State, rid: nat, req: Request) returns (o: Outcome)
    requires cfg.codec.Contract() && Inv(cfg, s) && s.phase == Active && rid !in s.flights
    ensures Ends(cfg, s, req, o)
    ensures var s' := StepPrepare(cfg, s, rid, req);
            && (o.Calls? <==> rid in s'.flights)
            && (o.Calls? ==> s'.flights.Keys == s.flights.Keys + {rid} && s'.active == s.active && s'.closed == s.closed)
            && (o.Exhausts? ==>
                  && s'.flights == s.flights
                  && |s'.active| + (if Select(QueryFor(cfg, s.reserved, req), s.active).Some? then 1 else 0) == |s.active|)
            && (o.Raises? ==> s' == s)
  {
    hide Prepare, OriginOf, CloseExhausted, Codec.Contract, Ends, Select;
    hide FlightsOk, AllClosedAligned, Owned, Partition, Ordered, ChainOk;
    o := OutcomeOf(Prepare(cfg, s.active, s.reserved, req));
    PreparationDecided(cfg, s, req);
    if o.Exhausts? {
      var e := Prepare(cfg, s.active, s.reserved, req).value;
      CloseKeepsFlights(s, e, OriginOf(cfg, s, req).stripped);
      ExhaustedCloses(cfg, s, req, OriginOf(cfg, s, req).stripped);
    }
  }

  /** Exactly a request that continues a chain takes it away when nothing more fits. */
  lemma ExhaustedCloses(cfg: Config, s: State, req: Request, stripped: nat)
    requires Inv(cfg, s) && s.phase == Active
    requires var r := Prepare(cfg, s.active, s.reserved, req); r.Ok? && r.value.exhausted
    ensures var s' := CloseExhausted(s, Prepare(cfg, s.active, s.reserved, req).value, stripped);
            |s'.active| + (if Select(QueryFor(cfg, s.reserved, req), s.active).Some? then 1 else 0) == |s.active|
  {
    hide CloseExhausted, PrepareFresh, PrepareContinuation, HandsOver, Select;
    hide FlightsOk, AllClosedAligned, Owned, Partition, Ordered, ChainOk;
    var e := Prepare(cfg, s.active, s.reserved, req).value;
    if Select(QueryFor(cfg, s.reserved, req), s.active).None? {
      FreshExhausted(cfg, req);
      NothingClosed(s, e, stripped);
    } else {
      ContinuationNames(cfg, Select(QueryFor(cfg, s.reserved, req), s.active).value, req);
      var choice, base := ExhaustedSays(cfg, s, req);
      HandedOver(cfg, s, req, e, choice, base);
      DistinctActive(s);
      FindMember(s.active, choice.chain);
      CloseFields(s, e, stripped, Find(s.active, choice.chain.id).value);
    }
  }

  lemma ContinuationNames(cfg: Config, choice: Choice<Buffer>, req: Request)
    requires PrepareContinuation(cfg, choice, req, cfg.hasher.Prefixes(req.messages)).Ok?
    ensures PrepareContinuation(cfg, choice, req, cfg.hasher.Prefixes(req.messages)).value.chainId == Some(choice.chain.id)
  {
    hide Adopt, ExtendMedia, Codec.MergeContext, BaseOf;
  }

  lemma HandedOver(cfg: Config, s: State, req: Request, e: Encoded<Buffer>, choice: Choice<Buffer>, base: Base)
    requires HandsOver(cfg, s, req, e, choice, base)
    ensures e.chainId == Some(choice.chain.id)
    ensures Select(QueryFor(cfg, s.reserved, req), s.active) == Some(choice)
  {
  }

  // ------------------------------------------------------------------------ the answer

  /** The backend's answer is usable: with log probabilities asked for, one came back per token; the codec
      merges it, and what it returns stays aligned. */
  ghost predicate Usable(cfg: Config, e: Encoded<Buffer>, out: Output) {
    && (e.logprobs ==> out.logprobs.Some? && |out.logprobs.value| == |out.tokens|)
    && exists call: AssistantCall ::
         && call.runtime == e.context && call.assistant == out.tokens && call.mask == e.buffer.mask
         && call.logprobs == (if e.logprobs then Some(e.buffer.logprobs) else None)
         && call.assistantLogprobs == (if e.logprobs then out.logprobs else None)
         && cfg.codec.mergeAssistant(call).Ok? && LogprobsFit(cfg.codec.mergeAssistant(call).value)
  }

  lemma ReceiveDecided(cfg: Config, e: Encoded<Buffer>, out: Output)
    requires cfg.codec.Contract() && e.buffer.Aligned() && e.context == e.buffer.Tokens()
    ensures Receive(cfg, e, out).Ok? <==> Usable(cfg, e, out)
  {
    var call := AssistantCall(e.buffer.Tokens(), out.tokens, e.buffer.mask,
                              if e.logprobs then Some(e.buffer.logprobs) else None,
                              if e.logprobs then out.logprobs else None);
    assert cfg.codec.AssistantContract(call);
    if cfg.codec.mergeAssistant(call).Ok? {
      var m := cfg.codec.mergeAssistant(call).value;
      assert m.ids == e.buffer.prompt + (e.buffer.response + out.tokens);
    }
  }

  /** In every reachable state a call comes back as generated exactly when the backend answered and its answer
      is usable, and a generated request commits exactly when the session is active and its tokens decode. */
  lemma EveryAnswerDecided(cfg: Config, events: seq<Event>, rid: nat, outcome: Result<Output>, decoded: Result<Message>)
    requires cfg.codec.Contract() && rid in Run(cfg, events).flights
    ensures var s := Run(cfg, events);
            s.flights[rid].Calling? ==>
              var s' := Run(cfg, events + [ReceiveEvent(rid, outcome)]);
              (rid in s'.flights && s'.flights[rid].Generated?)
              <==> outcome.Ok? && Usable(cfg, s.flights[rid].encoded, outcome.value)
    ensures var s := Run(cfg, events);
            s.flights[rid].Generated? ==>
              var s' := Run(cfg, events + [CommitEvent(rid, decoded)]);
              && (s'.orderSeq == s.orderSeq + 1 <==> s.phase == Active && decoded.Ok?)
              && (s'.orderSeq == s.orderSeq || rid !in s'.flights)
  {
    hide Run, Step, Inv, Codec.Contract, Usable;
    RunKeeps(cfg, events);
    RunOne(cfg, events, ReceiveEvent(rid, outcome));
    RunOne(cfg, events, CommitEvent(rid, decoded));
    var s := Run(cfg, events);
    if s.flights[rid].Calling? {
      AnswerDecided(cfg, s, rid, outcome);
    } else if s.flights[rid].Generated? {
      CommitDecided(cfg, s, rid, decoded);
    }
  }

  lemma RunOne(cfg: Config, events: seq<Event>, e: Event)
    ensures Run(cfg, events + [e]) == Step(cfg, Run(cfg, events), e)
  {
    hide Step;
    assert (events + [e])[..|events|] == events;
  }

  lemma FlightFacts(cfg: Config, f: Flight<Buffer>)
    requires FlightOk(cfg, f) && !f.Failing?
    ensures f.encoded.start.Some? && f.encoded.buffer.Aligned()
    ensures f.Calling? ==> f.encoded.context == f.encoded.buffer.Tokens()
  {
    hide Continues, KeptVersions, Tracks, BaseTrainable, Hasher.Fold, Hasher.Prefixes;
    var e, o := f.encoded, f.origin;
    var output := if f.Generated? then f.output.tokens else [];
    TrackedTokens(cfg.codec.AssistantPrefix(), e.buffer, e.start.value.responseLen, e.context, output, o.merged);
    if f.Calling? {
      assert e.context + output == e.context;
    }
  }

  lemma AnswerDecided(cfg: Config, s: State, rid: nat, outcome: Result<Output>)
    requires cfg.codec.Contract() && Inv(cfg, s) && rid in s.flights && s.flights[rid].Calling?
    ensures var s' := Step(cfg, s, ReceiveEvent(rid, outcome));
            (rid in s'.flights && s'.flights[rid].Generated?)
            <==> outcome.Ok? && Usable(cfg, s.flights[rid].encoded, outcome.value)
  {
    hide Inv, FlightOk, Receive, Codec.Contract, Usable;
    FlightOfRun(cfg, s, rid);
    FlightFacts(cfg, s.flights[rid]);
    if outcome.Ok? {
      ReceiveDecided(cfg, s.flights[rid].encoded, outcome.value);
    }
  }

  lemma CommitDecided(cfg: Config, s: State, rid: nat, decoded: Result<Message>)
    requires Inv(cfg, s) && rid in s.flights && s.flights[rid].Generated?
    ensures var s' := Step(cfg, s, CommitEvent(rid, decoded));
            && (s'.orderSeq == s.orderSeq + 1 <==> s.phase == Active && decoded.Ok?)
            && (s'.orderSeq == s.orderSeq || rid !in s'.flights)
  {
    hide Inv, FlightOk, CommitHistory, CommittedChain;
    FlightOfRun(cfg, s, rid);
    FlightFacts(cfg, s.flights[rid]);
    if s.phase == Active && s.flights[rid].encoded.chainId.Some? {
      CommitFindsItsChain(cfg, s, rid);
    }
  }

  // ------------------------------------------------------------------------- rollbacks

  /** No rollback so far, and none under way. */
  ghost predicate NoRollback(s: State) {
    && s.rollbackCount == 0 && s.rollbackDropped == 0
    && forall r | r in s.flights && !s.flights[r].Failing? :: !s.flights[r].encoded.rollback
  }

  lemma PreparedWithoutRollback(cfg: Config, s: State, req: Request)
    requires !cfg.rollbackEnabled && Prepare(cfg, s.active, s.reserved, req).Ok?
    ensures !Prepare(cfg, s.active, s.reserved, req).value.rollback
  {
    hide Select, Adopt, ExtendMedia, Codec.MergeContext, Buffer.Tokens, Hasher.Prefixes;
  }

  lemma StepWithoutRollback(cfg: Config, s: State, e: Event)
    requires !cfg.rollbackEnabled && NoRollback(s)
    ensures NoRollback(Step(cfg, s, e))
  {
    hide Prepare, OriginOf, Receive, Materialize, ClosingChain, CommittedChain, CommitHistory, MaterializeAll, RemoveAt;
    if e.PrepareEvent? && Prepare(cfg, s.active, s.reserved, e.request).Ok? {
      PreparedWithoutRollback(cfg, s, e.request);
    }
  }

  /** A session in which rollbacks are disabled never rolls back, in any run. */
  lemma {:induction false} RollbackOnlyWhereEnabled(cfg: Config, events: seq<Event>)
    requires !cfg.rollbackEnabled
    ensures NoRollback(Run(cfg, events))
    decreases |events|
  {
    hide Step, NoRollback;
    if events != [] {
      RollbackOnlyWhereEnabled(cfg, events[..|events| - 1]);
      StepWithoutRollback(cfg, Run(cfg, events[..|events| - 1]), events[|events| - 1]);
    } else {
      NothingRolledBack();
    }
  }

  lemma NothingRolledBack()
    ensures NoRollback(INITIAL)
  {
  }
}
