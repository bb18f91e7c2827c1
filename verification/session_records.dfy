/** What a session records: the chains it commits and the trajectories it returns, by fields and from
    the generations behind them, in every run. */
module SessionRecords {
  import opened Wrappers
  import opened Sequences
  import opened Messages
  import opened Codecs
  import opened Chains
  import opened Selection
  import opened SessionModel
  import opened SessionInvariant
  import opened SessionSafety
  import opened SessionTheorems
  import opened SessionRequests

  // ---------------------------------------------------------------- trajectories

  predicate Spoken(m: Message) {
    m.role == "user" || m.role == "assistant"
  }

  /** The number of turns is one more than the number of user and assistant messages. */
  lemma {:induction false} TurnsCountMessages(history: seq<Message>, m: Message)
    ensures CountTurns([]) == 1
    ensures CountTurns(history + [m]) == CountTurns(history) + (if Spoken(m) then 1 else 0)
  {
    if history == [] {
      assert [] + [m] == [m] && [m][1..] == [];
    } else {
      TurnsCountMessages(history[1..], m);
      assert (history + [m])[1..] == history[1..] + [m];
    }
  }

  /** A trajectory that carries all a chain holds. */
  predicate HoldsChain(t: Trajectory, c: Chain<Buffer>) {
    && t.chainId == c.id
    && t.prompt == c.buffer.prompt && t.response == c.buffer.response && t.mask == c.buffer.mask
    && t.logprobs == (if c.buffer.logprobs == [] then None else Some(c.buffer.logprobs))
    && (if Count(c.images) == 0 then t.images.None? else t.images == c.images)
    && (if Count(c.videos) == 0 then t.videos.None? else t.videos == c.videos)
    && t.versions == c.buffer.versions && t.span == VersionSpan(c.buffer.versions)
    && t.numTurns == CountTurns(c.history)
  }

  lemma MaterializedHolds(c: Chain<Buffer>, lengthLimited: bool)
    ensures HoldsChain(Materialize(c, lengthLimited), c)
    ensures Materialize(c, lengthLimited).lengthLimited == lengthLimited
  {
  }

  /** Finalize adds one trajectory for each active chain, in place of it, holding all it holds. */
  lemma FinalizeHoldsChains(cfg: Config, events: seq<Event>, i: nat)
    requires Run(cfg, events).phase == Active && i < |Run(cfg, events).active|
    ensures var s, s' := Run(cfg, events), Run(cfg, events + [FinalizeEvent]);
            && |s'.closed| == |s.closed| + |s.active| && s'.closed[..|s.closed|] == s.closed
            && HoldsChain(s'.closed[|s.closed| + i].trajectory, s.active[i])
            && !s'.closed[|s.closed| + i].trajectory.lengthLimited
            && s'.closed[|s.closed| + i].orderSeq == s.active[i].updatedSeq
  {
    hide Run, HoldsChain, Materialize;
    RunFinalize(cfg, events);
    MaterializedHolds(Run(cfg, events).active[i], false);
  }

  // -------------------------------------------------- closing because nothing more fits

  /** The capacity is used up: by the chain alone, or by the rendering of the request's messages. */
  ghost predicate Full(cfg: Config, req: Request, c: Chain<Buffer>, rollback: bool, base: Buffer) {
    cfg.capacity.Some?
    && (|base.Tokens()| >= cfg.capacity.value
        || exists call: ContextCall ::
             Renders(cfg, req, CoveredMessages(c, rollback, req), base, call)
             && |cfg.codec.appendContext(call).value.ids| >= cfg.capacity.value)
  }

  lemma FullSays(cfg: Config, choice: Choice<Buffer>, base: Base, req: Request)
    requires |choice.chain.history| >= 2 && choice.chain.start.historyLen == |choice.chain.history| - 1
    requires Covered(choice) <= |req.messages|
    requires cfg.hasher.Injective() && !choice.rollback ==>
               SameConversation(choice.chain.history, req.messages[..|choice.chain.history|])
    requires var r := MergeSuffix(cfg, choice, base, req, cfg.hasher.Prefixes(req.messages)); r.Ok? && r.value.exhausted
    ensures Full(cfg, req, choice.chain, choice.rollback, base.buffer)
    ensures var e := MergeSuffix(cfg, choice, base, req, cfg.hasher.Prefixes(req.messages)).value;
            && e.buffer == base.buffer && e.images == base.images && e.videos == base.videos
            && e.dropped == base.dropped && e.rollback == choice.rollback && e.chainId == Some(choice.chain.id)
            && e.messages == req.messages
  {
    hide Adopt, ExtendMedia, Hasher.Injective, SameConversation;
    var suffix := Drop(req.messages, Covered(choice));
    var previous := CoveredMessages(choice.chain, choice.rollback, req);
    if !cfg.AtCapacity(|base.buffer.Tokens()|) {
      var media := cfg.codec.extractMedia(suffix).value;
      var call := ContextCall(previous, previous + suffix, base.buffer.Tokens(), base.buffer.mask,
                              if req.logprobs then Some(base.buffer.logprobs) else None, req.tools);
      NoMediaAdded(cfg, call, media, None);
      if cfg.hasher.Injective() {
        WholeConversation(previous, req.messages);
      }
      assert Renders(cfg, req, previous, base.buffer, call);
    }
  }

  /** What an exhausted preparation that selected a chain hands over. */
  ghost predicate HandsOver(cfg: Config, s: State, req: Request, e: Encoded<Buffer>, choice: Choice<Buffer>, base: Base) {
    && Select(QueryFor(cfg, s.reserved, req), s.active) == Some(choice)
    && StartsFrom(cfg.codec.AssistantPrefix(), choice.chain, choice.rollback, base)
    && Full(cfg, req, choice.chain, choice.rollback, base.buffer)
    && e.buffer == base.buffer && e.images == base.images && e.videos == base.videos
    && e.dropped == base.dropped && e.rollback == choice.rollback && e.chainId == Some(choice.chain.id)
    && e.messages == req.messages && choice.chain.start.historyLen == |choice.chain.history| - 1 >= 1
    && choice.chain.start.historyLen <= |req.messages|
  }

  /** A new chain is refused only when its initial tokens fill the capacity. */
  lemma FreshExhausted(cfg: Config, req: Request)
    requires var r := PrepareFresh(cfg, req, cfg.hasher.Prefixes(req.messages)); r.Ok? && r.value.exhausted
    ensures PrepareFresh(cfg, req, cfg.hasher.Prefixes(req.messages)).value.chainId.None?
    ensures cfg.capacity.Some? && exists media: MediaPair ::
              && cfg.codec.extractMedia(req.messages) == Ok(media)
              && cfg.codec.buildInitial(InitialCall(req.messages, req.tools, media)).Ok?
              && |cfg.codec.buildInitial(InitialCall(req.messages, req.tools, media)).value| >= cfg.capacity.value
  {
  }

  lemma ExhaustedSays(cfg: Config, s: State, req: Request) returns (choice: Choice<Buffer>, base: Base)
    requires forall c | c in s.active :: ChainOk(cfg, s.history.generations, c)
    requires var r := Prepare(cfg, s.active, s.reserved, req); r.Ok? && r.value.exhausted && r.value.chainId.Some?
    ensures HandsOver(cfg, s, req, Prepare(cfg, s.active, s.reserved, req).value, choice, base)
    ensures choice.chain in s.active && ChainOk(cfg, s.history.generations, choice.chain)
  {
    hide PrepareFresh, MergeSuffix, StartsFrom, Full, BaseOf, ChainOk, Hasher.Injective, SameConversation, Best;
    var q := QueryFor(cfg, s.reserved, req);
    if Select(q, s.active).None? {
      FreshExhausted(cfg, req);
    }
    choice := Select(q, s.active).value;
    SelectedSays(cfg, s.history.generations, s.active, s.reserved, req);
    SelectedCovers(cfg, s.history.generations, s.active, s.reserved, req);
    base := BaseOf(cfg, choice).value;
    BaseStarts(cfg, choice);
    FullSays(cfg, choice, base, req);
  }

  /** Closing chain `i` for a request that found it full: finished as it is or as the rollback left it, or
      dropped when the rollback left no generated token. */
  ghost predicate ClosesChain(cfg: Config, req: Request, s: State, s': State, i: nat, rollback: bool, base: Base) {
    && i < |s.active| && s'.active == RemoveAt(s.active, i)
    && var c := s.active[i];
    && Select(QueryFor(cfg, s.reserved, req), s.active) == Some(Choice(c, rollback))
    && StartsFrom(cfg.codec.AssistantPrefix(), c, rollback, base)
    && Full(cfg, req, c, rollback, base.buffer)
    && s'.rollbackCount == s.rollbackCount + (if rollback then 1 else 0)
    && s'.rollbackDropped == s.rollbackDropped + (if rollback then base.dropped else 0)
    && s'.flights == s.flights && s'.history.generations == s.history.generations
    && (if rollback && c.start.responseLen == 0 then
          s'.closed == s.closed && s'.history.dropped == s.history.dropped + {c.id}
        else
          && |s'.closed| == |s.closed| + 1 && s'.closed[..|s.closed|] == s.closed
          && var t := s'.closed[|s.closed|];
          && t.orderSeq == s.orderSeq + 1 && t.trajectory.lengthLimited
          && HoldsChain(t.trajectory,
                        if rollback then
                          c.(history := Take(req.messages, c.start.historyLen), buffer := base.buffer,
                             images := base.images, videos := base.videos)
                        else c))
  }

  lemma ClosingSays(cfg: Config, s: State, req: Request, e: Encoded<Buffer>, stripped: nat, choice: Choice<Buffer>, base: Base)
    requires HandsOver(cfg, s, req, e, choice, base)
    requires choice.chain in s.active && DistinctIds(s.active)
    ensures exists i :: ClosesChain(cfg, req, s, CloseExhausted(s, e, stripped), i, choice.rollback, base)
  {
    hide CloseExhausted, Materialize, HoldsChain, StartsFrom, Full, Select, RemoveAt;
    FindMember(s.active, choice.chain);
    var i := Find(s.active, choice.chain.id).value;
    CloseFields(s, e, stripped, i);
    CloseKeepsFlights(s, e, stripped);
    MaterializedHolds(ClosingChain(s.active[i], e), true);
    var s' := CloseExhausted(s, e, stripped);
    assert s'.history.dropped == s.history.dropped + {} || choice.rollback;
    assert ClosesChain(cfg, req, s, s', i, choice.rollback, base);
  }

  /** A request that takes a chain away found it full, and the trajectory it leaves holds exactly what the
      chain held, or what the rollback left of it. */
  lemma CloseHoldsChain(cfg: Config, events: seq<Event>, rid: nat, req: Request)
    requires cfg.codec.Contract()
    requires Run(cfg, events + [PrepareEvent(rid, req)]).active != Run(cfg, events).active
    ensures exists i, rollback, base ::
              ClosesChain(cfg, req, Run(cfg, events), Run(cfg, events + [PrepareEvent(rid, req)]), i, rollback, base)
  {
    hide Run, StepPrepare, ClosesChain, Inv, Codec.Contract;
    RunKeeps(cfg, events);
    RunPrepare(cfg, events, rid, req);
    CloseStepSays(cfg, Run(cfg, events), rid, req);
  }

  lemma CloseStepSays(cfg: Config, s: State, rid: nat, req: Request)
    requires Inv(cfg, s) && StepPrepare(cfg, s, rid, req).active != s.active
    ensures exists i, rollback, base :: ClosesChain(cfg, req, s, StepPrepare(cfg, s, rid, req), i, rollback, base)
  {
    hide Prepare, OriginOf, CloseExhausted, ClosesChain, HandsOver, ChainOk, FlightsOk, AllClosedAligned, Owned, Partition, Ordered;
    var e, stripped := Prepare(cfg, s.active, s.reserved, req).value, OriginOf(cfg, s, req).stripped;
    if e.chainId.None? {
      NothingClosed(s, e, stripped);
    } else {
      var choice, base := ExhaustedSays(cfg, s, req);
      DistinctActive(s);
      ClosingSays(cfg, s, req, e, stripped, choice, base);
    }
  }

  lemma NothingClosed(s: State, e: Encoded<Buffer>, stripped: nat)
    requires e.chainId.None?
    ensures CloseExhausted(s, e, stripped) == s
  {
  }

  // ---------------------------------------------------------------------- commits

  /** The chain a commit writes for a request: its messages and the reply, and what it carries. */
  ghost predicate RecordsRequest(cfg: Config, e: Encoded<Buffer>, reply: Message, c: Chain<Buffer>) {
    && c.history == e.messages + [reply] && c.tools == e.tools && c.buffer == e.buffer
    && c.images == e.images && c.videos == e.videos && e.start == Some(c.start)
    && c.tipHash == cfg.hasher.Fold(c.history)
  }

  /** The commit of `e` puts chain `c` in place of its base, or behind all chains under a new id. */
  ghost predicate CommitsChain(s: State, s': State, f: Flight<Buffer>, c: Chain<Buffer>)
    requires f.Generated?
  {
    && (match f.origin.base
        case None => s'.active == s.active + [c] && c.id == s.nextId && s'.nextId == s.nextId + 1
        case Some(b) => s'.nextId == s.nextId
                        && exists i :: 0 <= i < |s.active| && s.active[i] == b && s'.active == s.active[i := c] && c.id == b.id)
    && c.updatedSeq == s'.orderSeq == s.orderSeq + 1
    && s'.closed == s.closed
    && s'.rollbackCount == s.rollbackCount + (if f.encoded.rollback then 1 else 0)
    && s'.rollbackDropped == s.rollbackDropped + (if f.encoded.rollback then f.encoded.dropped else 0)
  }

  lemma CommittedRecords(cfg: Config, f: Flight<Buffer>, reply: Message, id: nat, order: nat)
    requires f.Generated? && FlightOk(cfg, f)
    ensures RecordsRequest(cfg, f.encoded, reply, CommittedChain(cfg, f.encoded, reply, id, order))
    ensures CommittedChain(cfg, f.encoded, reply, id, order).id == id
    ensures CommittedChain(cfg, f.encoded, reply, id, order).updatedSeq == order
  {
    hide Tracks, Continues, KeptVersions;
    PrefixesTip(cfg.hasher, f.encoded.messages);
    assert (f.encoded.messages + [reply])[..|f.encoded.messages|] == f.encoded.messages;
  }

  lemma CommitStepSays(cfg: Config, s: State, rid: nat, reply: Message)
    requires Inv(cfg, s) && s.phase == Active && rid in s.flights && s.flights[rid].Generated?
    ensures exists c :: RecordsRequest(cfg, s.flights[rid].encoded, reply, c)
                        && CommitsChain(s, StepCommit(cfg, s, rid, Ok(reply)), s.flights[rid], c)
  {
    hide ChainsOk, Partition, Ordered, Owned, AllClosedAligned, Balanced, Terminal, StepCommit, CommitHistory, Without;
    hide RecordsRequest, CommittedChain, Tracks, Continues, KeptVersions, Find;
    FlightOfRun(cfg, s, rid);
    var f := s.flights[rid];
    if f.encoded.chainId.None? {
      CommitNewFields(cfg, s, rid, reply);
      CommittedRecords(cfg, f, reply, s.nextId, s.orderSeq + 1);
    } else {
      CommitFindsItsChain(cfg, s, rid);
      var i := Find(s.active, f.encoded.chainId.value).value;
      CommitOverFields(cfg, s, rid, reply, i);
      CommittedRecords(cfg, f, reply, s.active[i].id, s.orderSeq + 1);
    }
  }

  /** Every commit records what its request asked for and what the backend answered, in one chain, and
      counts the rollback it made, if it made one. */
  lemma CommitRecordsItsRequest(cfg: Config, events: seq<Event>, rid: nat, reply: Message)
    requires cfg.codec.Contract()
    requires var s := Run(cfg, events); s.phase == Active && rid in s.flights && s.flights[rid].Generated?
    ensures var s, s' := Run(cfg, events), Run(cfg, events + [CommitEvent(rid, Ok(reply))]);
            var f := s.flights[rid];
            && FlightSays(cfg, f)
            && exists c :: RecordsRequest(cfg, f.encoded, reply, c) && CommitsChain(s, s', f, c)
  {
    hide Run, Inv, FlightSays, RecordsRequest, CommitsChain, StepCommit, Codec.Contract;
    RunKeeps(cfg, events);
    EveryRequestIsAsked(cfg, events);
    RunCommit(cfg, events, rid, Ok(reply));
    CommitStepSays(cfg, Run(cfg, events), rid, reply);
  }

  // ------------------------------------------------------------- the opening prompt

  type Openings = map<nat, seq<Token>>

  /** The step commits a request that continues no chain. */
  predicate Opens(s: State, e: Event) {
    && e.CommitEvent? && e.decoded.Ok? && s.phase == Active && e.rid in s.flights
    && s.flights[e.rid].Generated? && s.flights[e.rid].origin.base.None?
  }

  function OpenStep(s: State, began: Openings, e: Event): Openings {
    if Opens(s, e) then began[s.nextId := s.flights[e.rid].encoded.context] else began
  }

  /** The context each chain was opened with. */
  ghost function Opened(cfg: Config, events: seq<Event>): Openings {
    if events == [] then map[]
    else
      var before := events[..|events| - 1];
      OpenStep(Run(cfg, before), Opened(cfg, before), events[|events| - 1])
  }

  /** A chain's prompt is the context it was opened with, less the assistant prefix once a rollback had to
      cut it there. */
  predicate FromOpening(prefix: seq<Token>, opening: seq<Token>, prompt: seq<Token>) {
    prompt == opening || prompt + prefix == opening
  }

  ghost predicate ChainOpened(prefix: seq<Token>, began: Openings, c: Chain<Buffer>) {
    && c.id in began && FromOpening(prefix, began[c.id], c.buffer.prompt)
    && (c.start.responseLen == 0 ==> c.buffer.prompt == began[c.id])
  }

  /** What a finished trajectory is made of: all its chain's last generation left, or, cut back, the
      context of that generation without the assistant prefix. */
  ghost predicate TrajectorySays(prefix: seq<Token>, gens: map<nat, seq<Generation>>, began: Openings, t: Trajectory) {
    && t.chainId in gens && gens[t.chainId] != []
    && var g, versions := Last(gens[t.chainId]), Versions(gens[t.chainId]);
    && ((t.prompt + t.response == g.context + g.output && t.versions == versions)
        || (t.lengthLimited && t.prompt + t.response + prefix == g.context
            && t.versions == versions[..|versions| - 1]))
    && t.chainId in began && FromOpening(prefix, began[t.chainId], t.prompt)
  }

  ghost predicate Recorded(cfg: Config, s: State, began: Openings) {
    && (forall c | c in s.active :: ChainOpened(cfg.codec.AssistantPrefix(), began, c))
    && (forall t | t in s.closed ::
          TrajectorySays(cfg.codec.AssistantPrefix(), s.history.generations, began, t.trajectory))
  }

  /** A chain that holds what its generations say gives a trajectory that does. */
  lemma WholeSays(cfg: Config, gens: map<nat, seq<Generation>>, began: Openings, c: Chain<Buffer>, t: Trajectory)
    requires ChainOk(cfg, gens, c) && ChainOpened(cfg.codec.AssistantPrefix(), began, c) && HoldsChain(t, c)
    ensures TrajectorySays(cfg.codec.AssistantPrefix(), gens, began, t)
  {
    ChainTokens(cfg, gens, c);
    hide ChainOk;
  }

  lemma CutSays(cfg: Config, gens: map<nat, seq<Generation>>, began: Openings, c: Chain<Buffer>, b: Buffer, t: Trajectory)
    requires ChainOk(cfg, gens, c) && ChainOpened(cfg.codec.AssistantPrefix(), began, c)
    requires CutBack(cfg.codec.AssistantPrefix(), c, b) && c.start.responseLen > 0
    requires t.chainId == c.id && t.prompt == b.prompt && t.response == b.response && t.versions == b.versions && t.lengthLimited
    ensures TrajectorySays(cfg.codec.AssistantPrefix(), gens, began, t)
  {
    var g, prefix := Last(gens[c.id]), cfg.codec.AssistantPrefix();
    assert Tracks(prefix, c.buffer, c.start.responseLen, g.context, g.output, g.merged);
    assert t.prompt + t.response + prefix == c.buffer.prompt + (b.response + prefix);
  }

  lemma ClosedRecorded(cfg: Config, s: State, s': State, began: Openings, req: Request, i: nat, rollback: bool, base: Base)
    requires Inv(cfg, s) && Recorded(cfg, s, began) && ClosesChain(cfg, req, s, s', i, rollback, base)
    ensures Recorded(cfg, s', began)
  {
    hide FlightsOk, AllClosedAligned, Owned, Partition, Ordered, ChainOpened, TrajectorySays, ChainOk, Full, Select, CutBack;
    var c := s.active[i];
    DistinctActive(s);
    RemoveAtMembers(s.active, i);
    assert c in s.active && ChainOk(cfg, s.history.generations, c);
    if !(rollback && c.start.responseLen == 0) {
      var t := s'.closed[|s.closed|];
      if rollback {
        CutSays(cfg, s.history.generations, began, c, base.buffer, t.trajectory);
      } else {
        WholeSays(cfg, s.history.generations, began, c, t.trajectory);
      }
      assert s'.closed == s.closed + [t];
    }
  }

  lemma PrepareRecorded(cfg: Config, s: State, rid: nat, req: Request, began: Openings)
    requires cfg.codec.Contract() && Inv(cfg, s) && Recorded(cfg, s, began)
    ensures Recorded(cfg, StepPrepare(cfg, s, rid, req), began)
  {
    hide Prepare, OriginOf, CloseExhausted, ClosesChain, HandsOver, ChainOk, Codec.Contract, Recorded;
    hide FlightsOk, AllClosedAligned, Owned, Partition, Ordered;
    if s.phase == Active && rid !in s.flights && Prepare(cfg, s.active, s.reserved, req).Ok? {
      var e, stripped := Prepare(cfg, s.active, s.reserved, req).value, OriginOf(cfg, s, req).stripped;
      if !e.exhausted {
        SameRecords(cfg, s, StepPrepare(cfg, s, rid, req), began);
      } else if e.chainId.None? {
        NothingClosed(s, e, stripped);
      } else {
        var choice, base := ExhaustedSays(cfg, s, req);
        DistinctActive(s);
        ClosingSays(cfg, s, req, e, stripped, choice, base);
        var i :| ClosesChain(cfg, req, s, CloseExhausted(s, e, stripped), i, choice.rollback, base);
        ClosedRecorded(cfg, s, CloseExhausted(s, e, stripped), began, req, i, choice.rollback, base);
      }
    }
  }

  lemma SameRecords(cfg: Config, s: State, s': State, began: Openings)
    requires Recorded(cfg, s, began)
    requires s'.active == s.active && s'.closed == s.closed && s'.history.generations == s.history.generations
    ensures Recorded(cfg, s', began)
  {
  }

  /** A new chain's prompt is the context it is opened with. */
  lemma OpenedByCommit(cfg: Config, req: Request, b: Buffer, f: Flight<Buffer>, began: Openings, c: Chain<Buffer>)
    requires f.Generated? && AnsweredFor(cfg, req, b, f.encoded, f.origin, f.output) && f.origin.base.None?
    requires c.buffer == f.encoded.buffer && c.id in began && began[c.id] == f.encoded.context
    ensures ChainOpened(cfg.codec.AssistantPrefix(), began, c)
  {
    assert b.prompt + [] == b.prompt;
  }

  /** A rollback always renders new context, which ends in the assistant prefix. */
  lemma RolledBackGrows(cfg: Config, req: Request, base: Buffer, c: Chain<Buffer>, b: Buffer)
    requires cfg.codec.Contract() && |c.history| <= |req.messages| && c.history != []
    requires Extends(cfg, req, c, true, base, b)
    ensures b.prompt == base.prompt && base.response <= b.response
    ensures |b.response| == |base.response| ==> cfg.codec.AssistantPrefix() == []
  {
    hide Hasher.Injective, SameConversation;
    var previous := CoveredMessages(c, true, req);
    var call: ContextCall :| Renders(cfg, req, previous, base, call)
                             && Grown(base, cfg.codec.appendContext(call).value.ids, req.logprobs, b);
    assert cfg.codec.ContextContract(call);
    var ids := cfg.codec.appendContext(call).value.ids;
    assert |ids| == |b.prompt| + |b.response|;
  }

  lemma ExtendedPrompt(cfg: Config, req: Request, c: Chain<Buffer>, base: Buffer, b: Buffer)
    requires Extends(cfg, req, c, false, base, b)
    ensures b.prompt == base.prompt && base.response <= b.response
  {
    hide Hasher.Injective, SameConversation;
  }

  /** A continued chain keeps its prompt, or gives up the assistant prefix at its end. */
  lemma KeptOpening(cfg: Config, req: Request, b: Buffer, f: Flight<Buffer>, began: Openings, c: Chain<Buffer>)
    requires cfg.codec.Contract()
    requires f.Generated? && AnsweredFor(cfg, req, b, f.encoded, f.origin, f.output) && f.origin.base.Some?
    requires ChainOpened(cfg.codec.AssistantPrefix(), began, f.origin.base.value)
    requires f.origin.base.value.start.responseLen <= |f.origin.base.value.buffer.response|
    requires c.buffer == f.encoded.buffer && Some(c.start) == f.encoded.start && c.id == f.origin.base.value.id
    ensures ChainOpened(cfg.codec.AssistantPrefix(), began, c)
  {
    hide Extends, Codec.Contract, Budget;
    var prefix, own := cfg.codec.AssistantPrefix(), f.origin.base.value;
    var e := f.encoded.(buffer := b);
    assert ContinuesChain(cfg, req, own, e);
    var base: Base :| && StartsFrom(prefix, own, e.rollback, base)
                      && Extends(cfg, req, own, e.rollback, base.buffer, e.buffer)
                      && e.images == base.images && e.videos == base.videos && e.dropped == base.dropped;
    assert c.start.responseLen == |b.response| && c.buffer.prompt == b.prompt;
    if e.rollback {
      RolledBackGrows(cfg, req, base.buffer, own, b);
      if prefix == [] {
        assert base.buffer.prompt + prefix == base.buffer.prompt;
      }
    } else {
      ExtendedPrompt(cfg, req, own, base.buffer, b);
    }
  }

  lemma ActiveBoundary(cfg: Config, s: State, c: Chain<Buffer>)
    requires Inv(cfg, s) && c in s.active
    ensures c.start.responseLen <= |c.buffer.response|
  {
    hide FlightsOk, AllClosedAligned, Owned, Partition, Ordered;
    ChainTokens(cfg, s.history.generations, c);
  }

  lemma CommitRecorded(cfg: Config, s: State, rid: nat, reply: Message, began: Openings)
    requires cfg.codec.Contract() && Inv(cfg, s) && Recorded(cfg, s, began) && FlightsSay(cfg, s.flights)
    requires s.phase == Active && rid in s.flights && s.flights[rid].Generated?
    ensures Recorded(cfg, StepCommit(cfg, s, rid, Ok(reply)), OpenStep(s, began, CommitEvent(rid, Ok(reply))))
  {
    hide Codec.Contract, FlightsOk, AllClosedAligned, Owned, Ordered, ChainOpened, TrajectorySays, ChainOk, StepCommit;
    hide AnsweredFor, ChainsOk, InActive, InClosed, DistinctIds, DistinctClosed;
    var f, s' := s.flights[rid], StepCommit(cfg, s, rid, Ok(reply));
    var began' := OpenStep(s, began, CommitEvent(rid, Ok(reply)));
    CommitStepSays(cfg, s, rid, reply);
    var c :| RecordsRequest(cfg, f.encoded, reply, c) && CommitsChain(s, s', f, c);
    assert FlightSays(cfg, f);
    var req, b :| AnsweredFor(cfg, req, b, f.encoded, f.origin, f.output);
    if f.origin.base.None? {
      OpenedByCommit(cfg, req, b, f, began', c);
    } else {
      CommitIsOf(cfg, s, rid, reply, c);
      ActiveBoundary(cfg, s, f.origin.base.value);
      KeptOpening(cfg, req, b, f, began', c);
    }
    CommitIsOf(cfg, s, rid, reply, c);
    CommitKeepsRecords(cfg, s, rid, reply, c, began, began');
  }

  /** What a commit leaves as it was, besides the chain it writes. */
  ghost predicate OthersKept(s: State, s': State, id: nat) {
    && s'.closed == s.closed
    && (forall d | d in s'.active :: d.id == id || d in s.active)
    && (forall t | t in s.closed :: t.trajectory.chainId != id)
    && (forall k | k in s.history.generations && k != id ::
          k in s'.history.generations && s'.history.generations[k] == s.history.generations[k])
  }

  lemma CommitKeepsOthers(cfg: Config, s: State, rid: nat, reply: Message, c: Chain<Buffer>)
    requires Inv(cfg, s) && s.phase == Active && rid in s.flights && s.flights[rid].Generated?
    requires CommitsChain(s, StepCommit(cfg, s, rid, Ok(reply)), s.flights[rid], c)
    ensures OthersKept(s, StepCommit(cfg, s, rid, Ok(reply)), c.id)
  {
    hide ChainsOk, FlightsOk, AllClosedAligned, Owned, Ordered, StepCommit, Without, CommittedChain, Tracks, Find, FlightOk;
    var f := s.flights[rid];
    CommitIsOf(cfg, s, rid, reply, c);
    NotClosed(s, c.id, f.origin.base);
  }

  /** A new id and an active id belong to no finished trajectory. */
  lemma NotClosed(s: State, id: nat, base: Option<Chain<Buffer>>)
    requires Partition(s.phase, s.active, s.closed, s.history.dropped, s.nextId)
    requires match base case None => id == s.nextId case Some(b) => b in s.active && b.id == id
    ensures forall t | t in s.closed :: t.trajectory.chainId != id
  {
    forall t | t in s.closed ensures t.trajectory.chainId != id {
      assert InClosed(s.closed, t.trajectory.chainId);
      if base.Some? {
        assert InActive(s.active, id);
      }
    }
  }

  lemma CommitIsOf(cfg: Config, s: State, rid: nat, reply: Message, c: Chain<Buffer>)
    requires Inv(cfg, s) && s.phase == Active && rid in s.flights && s.flights[rid].Generated?
    requires CommitsChain(s, StepCommit(cfg, s, rid, Ok(reply)), s.flights[rid], c)
    ensures match s.flights[rid].origin.base case None => c.id == s.nextId case Some(b) => b in s.active && b.id == c.id
    ensures forall d | d in StepCommit(cfg, s, rid, Ok(reply)).active :: d.id == c.id || d in s.active
    ensures StepCommit(cfg, s, rid, Ok(reply)).history == CommitHistory(s.history, s.flights[rid], c.id)
    ensures StepCommit(cfg, s, rid, Ok(reply)).closed == s.closed
  {
    hide ChainsOk, AllClosedAligned, Owned, Ordered, Partition, StepCommit, Without, CommittedChain, Tracks, Continues, CommitHistory;
    FlightOfRun(cfg, s, rid);
    var f := s.flights[rid];
    if f.encoded.chainId.None? {
      CommitNewFields(cfg, s, rid, reply);
    } else {
      CommitFindsItsChain(cfg, s, rid);
      CommitOverFields(cfg, s, rid, reply, Find(s.active, f.encoded.chainId.value).value);
    }
  }

  lemma RecordsAfter(cfg: Config, s: State, s': State, c: Chain<Buffer>, began: Openings, began': Openings)
    requires Recorded(cfg, s, began) && OthersKept(s, s', c.id)
    requires forall d | d in s'.active && d.id == c.id :: d == c
    requires forall k | k in began && k != c.id :: k in began' && began'[k] == began[k]
    requires ChainOpened(cfg.codec.AssistantPrefix(), began', c)
    ensures Recorded(cfg, s', began')
  {
    hide FromOpening, Versions;
  }

  lemma OneOfItsId(cfg: Config, s: State, rid: nat, reply: Message, c: Chain<Buffer>)
    requires Inv(cfg, s) && s.phase == Active && rid in s.flights && s.flights[rid].Generated?
    requires CommitsChain(s, StepCommit(cfg, s, rid, Ok(reply)), s.flights[rid], c)
    ensures forall d | d in StepCommit(cfg, s, rid, Ok(reply)).active && d.id == c.id :: d == c
  {
    hide ChainsOk, AllClosedAligned, Owned, Ordered, FlightsOk, StepCommit;
    var s' := StepCommit(cfg, s, rid, Ok(reply));
    DistinctActive(s);
    NewIdIsFree(s);
    hide Partition;
    if s.flights[rid].origin.base.Some? {
      var i :| 0 <= i < |s.active| && s.active[i] == s.flights[rid].origin.base.value
               && s'.active == s.active[i := c] && c.id == s.flights[rid].origin.base.value.id;
      ReplacedMembers(s.active, i, c);
    }
  }

  /** A commit leaves the other chains and what is finished as it was. */
  lemma CommitKeepsRecords(cfg: Config, s: State, rid: nat, reply: Message, c: Chain<Buffer>, began: Openings, began': Openings)
    requires Inv(cfg, s) && Recorded(cfg, s, began) && s.phase == Active && rid in s.flights && s.flights[rid].Generated?
    requires CommitsChain(s, StepCommit(cfg, s, rid, Ok(reply)), s.flights[rid], c)
    requires ChainOpened(cfg.codec.AssistantPrefix(), began', c)
    requires forall k | k in began && k != c.id :: k in began' && began'[k] == began[k]
    ensures Recorded(cfg, StepCommit(cfg, s, rid, Ok(reply)), began')
  {
    hide Inv, StepCommit, CommitsChain, Recorded, OthersKept, ChainOpened;
    CommitKeepsOthers(cfg, s, rid, reply, c);
    OneOfItsId(cfg, s, rid, reply, c);
    RecordsAfter(cfg, s, StepCommit(cfg, s, rid, Ok(reply)), c, began, began');
  }

  lemma FinalizeRecorded(cfg: Config, s: State, began: Openings)
    requires Inv(cfg, s) && Recorded(cfg, s, began)
    ensures Recorded(cfg, StepFinalize(s), began)
  {
    hide FlightsOk, AllClosedAligned, Owned, Partition, Ordered, ChainOpened, TrajectorySays, ChainOk, Materialize, HoldsChain;
    if s.phase == Active {
      var added := MaterializeAll(s.active);
      forall t | t in added
        ensures TrajectorySays(cfg.codec.AssistantPrefix(), s.history.generations, began, t.trajectory)
      {
        var i :| 0 <= i < |added| && added[i] == t;
        assert s.active[i] in s.active;
        MaterializedHolds(s.active[i], false);
        WholeSays(cfg, s.history.generations, began, s.active[i], t.trajectory);
      }
    }
  }

  lemma AbortRecorded(cfg: Config, s: State, began: Openings)
    requires Recorded(cfg, s, began)
    ensures Recorded(cfg, StepAbort(s), began)
  {
    hide ChainOpened, TrajectorySays;
  }

  lemma QuietRecorded(cfg: Config, s: State, e: Event, began: Openings)
    requires Recorded(cfg, s, began)
    requires e.ReceiveEvent? || e.ReleaseEvent? || e.CancelEvent?
             || (e.CommitEvent? && !(s.phase == Active && e.rid in s.flights && s.flights[e.rid].Generated? && e.decoded.Ok?))
    ensures Recorded(cfg, Step(cfg, s, e), began)
  {
    hide Recorded, Receive, CommitHistory, CommittedChain;
    SameRecords(cfg, s, Step(cfg, s, e), began);
  }

  lemma StepRecorded(cfg: Config, s: State, e: Event, began: Openings)
    requires cfg.codec.Contract() && Inv(cfg, s) && Recorded(cfg, s, began) && FlightsSay(cfg, s.flights)
    ensures Recorded(cfg, Step(cfg, s, e), OpenStep(s, began, e))
  {
    hide Codec.Contract, Inv, Recorded, FlightsSay, StepCommit, StepPrepare, StepReceive;
    match e
    case PrepareEvent(rid, req) => PrepareRecorded(cfg, s, rid, req, began);
    case FinalizeEvent => FinalizeRecorded(cfg, s, began);
    case AbortEvent => AbortRecorded(cfg, s, began);
    case CommitEvent(rid, decoded) =>
      if s.phase == Active && rid in s.flights && s.flights[rid].Generated? && decoded.Ok? {
        CommitRecorded(cfg, s, rid, decoded.value, began);
      } else {
        QuietRecorded(cfg, s, e, began);
      }
    case _ => QuietRecorded(cfg, s, e, began);
  }

  lemma {:induction false} RunRecorded(cfg: Config, events: seq<Event>)
    requires cfg.codec.Contract()
    ensures Recorded(cfg, Run(cfg, events), Opened(cfg, events))
    decreases |events|
  {
    hide Codec.Contract, Inv, Recorded, FlightsSay, Step, OpenStep;
    if events == [] {
      NothingRecorded(cfg);
    } else {
      var before := events[..|events| - 1];
      RunRecorded(cfg, before);
      RunKeeps(cfg, before);
      EveryRequestIsAsked(cfg, before);
      StepRecorded(cfg, Run(cfg, before), events[|events| - 1], Opened(cfg, before));
    }
  }

  lemma NothingRecorded(cfg: Config)
    ensures Recorded(cfg, INITIAL, map[])
  {
  }

  /** In every run the tokens of every finished trajectory are those of its chain's last generation, context
      and output, or, when it was cut back before it was finished, its context without the assistant
      prefix; and its prompt is the context the chain was opened with, less the prefix if the cut fell there. */
  lemma TrajectoriesHoldTheirTokens(cfg: Config, events: seq<Event>, t: Closed)
    requires cfg.codec.Contract() && t in Run(cfg, events).closed
    ensures TrajectorySays(cfg.codec.AssistantPrefix(), Run(cfg, events).history.generations, Opened(cfg, events), t.trajectory)
  {
    hide TrajectorySays, ChainOpened, Run, Opened, Codec.Contract;
    RunRecorded(cfg, events);
  }
}
