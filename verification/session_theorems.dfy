/** What a gateway session guarantees over whole runs, in every interleaving of prepare,
    backend return, commit, failure, release, finalize and abort. */
module SessionTheorems {
  import opened Wrappers
  import opened Sequences
  import opened Messages
  import opened Codecs
  import opened Chains
  import opened Selection
  import opened SessionModel
  import opened SessionInvariant
  import opened SessionSafety

  // ------------------------------------------------------------ exclusive ownership

  /** In every reachable active state each chain in flight is held by one request, is
      reserved, and is still exactly the snapshot that request was prepared from. */
  lemma ExclusiveOwnership(cfg: Config, events: seq<Event>)
    requires cfg.codec.Contract()
    requires Run(cfg, events).phase == Active
    ensures var s := Run(cfg, events);
            && (forall r, q | r in s.flights && q in s.flights && r != q && Held(s.flights[r]).Some? ::
                  Held(s.flights[r]) != Held(s.flights[q]))
            && (forall id :: id in s.reserved <==> exists r :: r in s.flights && Held(s.flights[r]) == Some(id))
            && (forall r | r in s.flights && BaseChain(s.flights[r]).Some? ::
                  BaseChain(s.flights[r]).value in s.active)
  {
    RunKeeps(cfg, events);
    hide Run;
    var s := Run(cfg, events);
    forall id ensures id in s.reserved <==> exists r :: r in s.flights && Held(s.flights[r]) == Some(id) {
      if id in s.reserved {
        assert HeldBySome(s.flights, id);
      }
    }
  }

  /** A commit that continues a chain always finds it, extends exactly the snapshot the
      request was prepared from, appends exactly what was generated, touches no other
      chain, and gives the chain back. */
  lemma CommitExtendsItsSnapshot(cfg: Config, events: seq<Event>, rid: nat, reply: Message)
    requires cfg.codec.Contract()
    requires var s := Run(cfg, events);
             s.phase == Active && rid in s.flights && s.flights[rid].Generated?
             && s.flights[rid].encoded.chainId.Some?
    ensures var s := Run(cfg, events);
            var s' := Run(cfg, events + [CommitEvent(rid, Ok(reply))]);
            var f := s.flights[rid];
            var i := Find(s.active, f.encoded.chainId.value);
            && i.Some? && |s'.active| == |s.active|
            && f.origin.base == Some(s.active[i.value])
            && BaseOf(cfg, Choice(s.active[i.value], f.encoded.rollback)).Ok?
            && BaseOf(cfg, Choice(s.active[i.value], f.encoded.rollback)).value.buffer.Tokens() <= f.encoded.context
            && s'.active[i.value].buffer.Tokens() == f.encoded.context + f.output.tokens
            && s'.active[i.value].history == f.encoded.messages + [reply]
            && (forall k | 0 <= k < |s.active| && k != i.value :: s'.active[k] == s.active[k])
            && s'.reserved == s.reserved - {f.encoded.chainId.value}
  {
    RunKeeps(cfg, events);
    RunCommit(cfg, events, rid, Ok(reply));
    hide Run, StepCommit, Inv, BaseOf;
    CommitEffect(cfg, Run(cfg, events), rid, reply);
  }

  lemma RunCommit(cfg: Config, events: seq<Event>, rid: nat, decoded: Result<Message>)
    ensures Run(cfg, events + [CommitEvent(rid, decoded)]) == StepCommit(cfg, Run(cfg, events), rid, decoded)
  {
    hide StepCommit;
    assert (events + [CommitEvent(rid, decoded)])[..|events|] == events;
  }

  lemma CommitEffect(cfg: Config, s: State, rid: nat, reply: Message)
    requires Inv(cfg, s) && s.phase == Active
    requires rid in s.flights && s.flights[rid].Generated? && s.flights[rid].encoded.chainId.Some?
    ensures var s' := StepCommit(cfg, s, rid, Ok(reply));
            var f := s.flights[rid];
            var i := Find(s.active, f.encoded.chainId.value);
            && i.Some? && |s'.active| == |s.active|
            && f.origin.base == Some(s.active[i.value])
            && Continues(cfg, f.origin.base, f.encoded)
            && s'.active[i.value].buffer.Tokens() == f.encoded.context + f.output.tokens
            && s'.active[i.value].history == f.encoded.messages + [reply]
            && (forall k | 0 <= k < |s.active| && k != i.value :: s'.active[k] == s.active[k])
            && s'.reserved == s.reserved - {f.encoded.chainId.value}
  {
    CommitFindsItsChain(cfg, s, rid);
    FlightOfRun(cfg, s, rid);
    hide Inv;
    GeneratedTokens(cfg, s.flights[rid]);
    CommitOverFields(cfg, s, rid, reply, Find(s.active, s.flights[rid].encoded.chainId.value).value);
    hide FlightOk, Continues, StepCommit, CommitHistory, Without;
  }

  lemma GeneratedTokens(cfg: Config, f: Flight<Buffer>)
    requires f.Generated? && FlightOk(cfg, f)
    ensures f.encoded.start.Some?
    ensures f.encoded.buffer.Tokens() == f.encoded.context + f.output.tokens
    ensures Continues(cfg, f.origin.base, f.encoded)
    ensures f.encoded.chainId.Some? ==> f.origin.base.Some? && f.origin.base.value.id == f.encoded.chainId.value
  {
    hide Continues, EndsWith, Sum;
    var b := f.encoded.buffer;
    assert b.response == b.response[..f.encoded.start.value.responseLen] + f.output.tokens;
  }

  /** What another request, or nobody, does next leaves a request's record alone. */
  lemma StepLeavesOthers(cfg: Config, s: State, e: Event, rid: nat)
    requires rid in s.flights
    requires match e
             case PrepareEvent(r, _) => true
             case ReceiveEvent(r, _) => r != rid
             case CommitEvent(r, _) => r != rid
             case ReleaseEvent(r) => r != rid
             case CancelEvent(r) => r != rid
             case _ => true
    ensures rid in Step(cfg, s, e).flights && Step(cfg, s, e).flights[rid] == s.flights[rid]
  {
    hide Prepare, OriginOf, Receive, CommitHistory, CommittedChain, Select;
  }

  predicate Concerns(e: Event, rid: nat) {
    (e.ReceiveEvent? || e.CommitEvent? || e.ReleaseEvent? || e.CancelEvent?) && e.rid == rid
  }

  lemma {:induction false} RecordIsUntouched(cfg: Config, events: seq<Event>, more: seq<Event>, rid: nat)
    requires rid in Run(cfg, events).flights
    requires forall e | e in more :: !Concerns(e, rid)
    ensures rid in Run(cfg, events + more).flights
    ensures Run(cfg, events + more).flights[rid] == Run(cfg, events).flights[rid]
    decreases |more|
  {
    hide Step;
    if more == [] {
      assert events + more == events;
    } else {
      var n := |more| - 1;
      RecordIsUntouched(cfg, events, more[..n], rid);
      assert (events + more)[..|events + more| - 1] == events + more[..n];
      assert more[n] in more;
      StepLeavesOthers(cfg, Run(cfg, events + more[..n]), more[n], rid);
    }
  }

  /** No lost update: as long as a request's own steps do not run, no number of other steps
      changes the chain it holds, unless they end the session. */
  lemma ReservedChainIsUntouched(cfg: Config, events: seq<Event>, more: seq<Event>, rid: nat)
    requires cfg.codec.Contract()
    requires var s := Run(cfg, events); rid in s.flights && BaseChain(s.flights[rid]).Some?
    requires forall e | e in more :: !Concerns(e, rid)
    ensures var s := Run(cfg, events);
            var s' := Run(cfg, events + more);
            && rid in s'.flights && s'.flights[rid] == s.flights[rid]
            && (s'.phase == Active ==>
                  BaseChain(s.flights[rid]).value in s'.active
                  && BaseChain(s.flights[rid]).value.id in s'.reserved)
  {
    RecordIsUntouched(cfg, events, more, rid);
    RunKeeps(cfg, events + more);
    hide Run;
    HeldBaseIsActive(cfg, Run(cfg, events + more), rid);
    hide Inv;
  }

  lemma HeldBaseIsActive(cfg: Config, s: State, rid: nat)
    requires Inv(cfg, s) && rid in s.flights && BaseChain(s.flights[rid]).Some?
    ensures s.phase == Active ==> BaseChain(s.flights[rid]).value in s.active
                                  && BaseChain(s.flights[rid]).value.id in s.reserved
  {
    if s.phase == Active {
      FlightOfRun(cfg, s, rid);
      hide Partition, Ordered, ChainsOk, FlightsOk, HeldBySome, Tracks;
    }
  }

  // ------------------------------------------------------------------- token balance

  /** Nothing trainable appears or disappears: what active and finished chains hold, what
      rollbacks report as dropped, and what was cut with an assistant prefix add up to
      the tokens of all committed generations. */
  lemma TokenBalance(cfg: Config, events: seq<Event>)
    requires cfg.codec.Contract()
    ensures var s := Run(cfg, events);
            s.phase != Aborted ==>
              TotalTrainable(s.active) + TotalClosed(s.closed) + s.rollbackDropped + s.history.stripped
              == s.history.completed
  {
    RunKeeps(cfg, events);
  }

  /** A request that repeats a chain's whole history and adds nothing. */
  ghost predicate Echoes(cfg: Config, s: State, e: Event) {
    e.PrepareEvent? &&
    var choice := Select(QueryFor(cfg, s.reserved, e.request), s.active);
    choice.Some? && !choice.value.rollback && |choice.value.chain.history| == |e.request.messages|
  }

  ghost predicate EchoFree(cfg: Config, events: seq<Event>) {
    forall i | 0 <= i < |events| :: !Echoes(cfg, Run(cfg, events[..i]), events[i])
  }

  /** What echo-free runs keep on top of the invariant. */
  ghost predicate AllMerged(s: State) {
    && s.history.stripped == 0
    && (forall c | c in s.active :: c.id in s.history.generations && s.history.generations[c.id] != []
                                    && Last(s.history.generations[c.id]).merged)
    && (forall r | r in s.flights && !s.flights[r].Failing? ::
          s.flights[r].origin.merged && s.flights[r].origin.stripped == 0)
  }

  lemma OriginMerged(cfg: Config, s: State, req: Request)
    requires Inv(cfg, s) && AllMerged(s)
    requires !Echoes(cfg, s, PrepareEvent(0, req))
    requires Prepare(cfg, s.active, s.reserved, req).Ok?
    ensures OriginOf(cfg, s, req).merged && OriginOf(cfg, s, req).stripped == 0
  {
    var sel := Select(QueryFor(cfg, s.reserved, req), s.active);
    if sel.Some? {
      SelectedCovers(cfg, s.history.generations, s.active, s.reserved, req);
      var c := sel.value.chain;
      assert ChainOk(cfg, s.history.generations, c);
      hide Prepare, Owned, Partition, Ordered, FlightsOk, ChainsOk;
      CleanBoundaryRollsBack(cfg.codec.AssistantPrefix(), c);
    }
  }

  /** A merged generation on top of merged chains. */
  lemma CommitMergedState(s: State, s': State, f: Flight<Buffer>, id: nat, c: Chain<Buffer>)
    requires AllMerged(s) && f.Generated? && f.origin.merged && f.origin.stripped == 0
    requires s'.history == CommitHistory(s.history, f, id) && c.id == id
    requires forall d | d in s'.active && d != c :: d in s.active && d.id != id
    requires forall r | r in s'.flights :: r in s.flights && s'.flights[r] == s.flights[r]
    ensures AllMerged(s')
  {
    var gens := s'.history.generations[id];
    assert gens[|gens| - 1].merged;
  }

  lemma CommitOverMerged(cfg: Config, s: State, rid: nat, reply: Message)
    requires Inv(cfg, s) && AllMerged(s)
    requires s.phase == Active && rid in s.flights && s.flights[rid].Generated?
    requires s.flights[rid].encoded.start.Some? && s.flights[rid].encoded.chainId.Some?
    ensures AllMerged(StepCommit(cfg, s, rid, Ok(reply)))
  {
    var f := s.flights[rid];
    CommitFindsItsChain(cfg, s, rid);
    DistinctActive(s);
    var id := f.encoded.chainId.value;
    var i := Find(s.active, id).value;
    CommitOverFields(cfg, s, rid, reply, i);
    hide Inv, StepCommit, CommitHistory, Find;
    var c := CommittedChain(cfg, f.encoded, reply, id, s.orderSeq + 1);
    ReplacedMembers(s.active, i, c);
    CommitMergedState(s, StepCommit(cfg, s, rid, Ok(reply)), f, id, c);
    hide AllMerged;
  }

  lemma CommitNewMerged(cfg: Config, s: State, rid: nat, reply: Message)
    requires AllMerged(s) && forall c | c in s.active :: c.id != s.nextId
    requires s.phase == Active && rid in s.flights && s.flights[rid].Generated?
    requires s.flights[rid].encoded.start.Some? && s.flights[rid].encoded.chainId.None?
    ensures AllMerged(StepCommit(cfg, s, rid, Ok(reply)))
  {
    var f := s.flights[rid];
    hide StepCommit, CommitHistory;
    CommitNewFields(cfg, s, rid, reply);
    var c := CommittedChain(cfg, f.encoded, reply, s.nextId, s.orderSeq + 1);
    CommitMergedState(s, StepCommit(cfg, s, rid, Ok(reply)), f, s.nextId, c);
    hide AllMerged;
  }

  lemma NewIdOfRun(cfg: Config, s: State)
    requires Inv(cfg, s)
    ensures forall c | c in s.active :: c.id != s.nextId
  {
    hide Partition;
    NewIdIsFree(s);
  }

  lemma FailMerged(s: State, rid: nat)
    requires AllMerged(s) && rid in s.flights && !s.flights[rid].Failing?
    ensures AllMerged(Fail(s, rid))
  {
  }

  lemma CommitMerged(cfg: Config, s: State, rid: nat, decoded: Result<Message>)
    requires Inv(cfg, s) && AllMerged(s)
    ensures AllMerged(StepCommit(cfg, s, rid, decoded))
  {
    hide Inv, AllMerged;
    if rid in s.flights && s.flights[rid].Generated? {
      if s.phase != Active || decoded.Err? || s.flights[rid].encoded.start.None? {
        FailMerged(s, rid);
      } else if s.flights[rid].encoded.chainId.Some? {
        CommitOverMerged(cfg, s, rid, decoded.value);
      } else {
        NewIdOfRun(cfg, s);
        CommitNewMerged(cfg, s, rid, decoded.value);
      }
    }
  }

  lemma CloseMerged(s: State, e: Encoded<Buffer>)
    requires AllMerged(s)
    ensures AllMerged(CloseExhausted(s, e, 0))
  {
  }

  lemma PrepareMerged(cfg: Config, s: State, rid: nat, req: Request)
    requires Inv(cfg, s) && AllMerged(s) && !Echoes(cfg, s, PrepareEvent(rid, req))
    ensures AllMerged(StepPrepare(cfg, s, rid, req))
  {
    if s.phase == Active && rid !in s.flights && Prepare(cfg, s.active, s.reserved, req).Ok? {
      OriginMerged(cfg, s, req);
      hide Inv, Prepare, OriginOf, Select, CloseExhausted, Echoes;
      CloseMerged(s, Prepare(cfg, s.active, s.reserved, req).value);
    }
  }

  /** The steps that neither start nor commit a generation. */
  lemma OtherMerged(cfg: Config, s: State, e: Event)
    requires AllMerged(s) && !e.PrepareEvent? && !e.CommitEvent?
    ensures AllMerged(Step(cfg, s, e))
  {
    hide Receive;
  }

  lemma StepMerged(cfg: Config, s: State, e: Event)
    requires Inv(cfg, s) && AllMerged(s) && !Echoes(cfg, s, e)
    ensures AllMerged(Step(cfg, s, e))
  {
    hide Inv, AllMerged, Echoes;
    match e
    case PrepareEvent(rid, req) => PrepareMerged(cfg, s, rid, req);
    case CommitEvent(rid, decoded) => CommitMerged(cfg, s, rid, decoded);
    case _ => OtherMerged(cfg, s, e);
  }

  lemma {:induction false} EchoFreeRunsMerge(cfg: Config, events: seq<Event>)
    requires cfg.codec.Contract() && EchoFree(cfg, events)
    ensures AllMerged(Run(cfg, events))
    decreases |events|
  {
    if events != [] {
      var before := events[..|events| - 1];
      assert forall i | 0 <= i < |before| :: before[..i] == events[..i] && before[i] == events[i];
      EchoFreeRunsMerge(cfg, before);
      RunKeeps(cfg, before);
      assert !Echoes(cfg, Run(cfg, before), events[|events| - 1]);
      StepMerged(cfg, Run(cfg, before), events[|events| - 1]);
      hide Inv, AllMerged, Step, Echoes;
    }
  }

  /** Conservation without the correction: if no request repeats a whole history, the trainable
      tokens held plus those reported as dropped are exactly the tokens generated. */
  lemma TokenConservation(cfg: Config, events: seq<Event>)
    requires cfg.codec.Contract() && EchoFree(cfg, events)
    ensures var s := Run(cfg, events);
            s.phase != Aborted ==>
              TotalTrainable(s.active) + TotalClosed(s.closed) + s.rollbackDropped == s.history.completed
  {
    EchoFreeRunsMerge(cfg, events);
    TokenBalance(cfg, events);
  }

  // ---------------------------------------------------------------- rollback soundness

  lemma ReachableChain(cfg: Config, events: seq<Event>, c: Chain<Buffer>)
    requires cfg.codec.Contract() && c in Run(cfg, events).active
    ensures ChainOk(cfg, Run(cfg, events).history.generations, c)
  {
    RunKeeps(cfg, events);
    hide Run;
  }

  /** The assertions of a rollback never fail, and every surviving generation has one version mark. */
  lemma AssertionsHold(cfg: Config, events: seq<Event>, c: Chain<Buffer>)
    requires cfg.codec.Contract() && c in Run(cfg, events).active
    ensures var gens := Run(cfg, events).history.generations;
            && c.start.historyLen == |c.history| - 1 >= 1
            && c.start.responseLen <= |c.buffer.response|
            && c.start.imageLen <= Count(c.images) && c.start.videoLen <= Count(c.videos)
            && c.buffer.Aligned()
            && c.id in gens && c.buffer.versions == Versions(gens[c.id]) != []
            && c.buffer.Tokens() == Last(gens[c.id]).context + Last(gens[c.id]).output
  {
    ReachableChain(cfg, events, c);
    hide Run;
    ChainTokens(cfg, Run(cfg, events).history.generations, c);
    hide ChainOk;
  }

  lemma ChainTokens(cfg: Config, gens: map<nat, seq<Generation>>, c: Chain<Buffer>)
    requires ChainOk(cfg, gens, c)
    ensures c.start.historyLen == |c.history| - 1 >= 1
    ensures c.start.responseLen <= |c.buffer.response| && c.buffer.Aligned()
    ensures c.start.imageLen <= Count(c.images) && c.start.videoLen <= Count(c.videos)
    ensures c.id in gens && gens[c.id] != [] && c.buffer.versions == Versions(gens[c.id]) != []
    ensures c.buffer.Tokens() == Last(gens[c.id]).context + Last(gens[c.id]).output
  {
    hide Tracks, Hasher.Fold;
    var g := Last(gens[c.id]);
    TrackedTokens(cfg.codec.AssistantPrefix(), c.buffer, c.start.responseLen, g.context, g.output, g.merged);
  }

  /** Rolling back a reachable chain succeeds without losing a trainable token exactly when the
      last token before the boundary was not generated, that is, when the last generation's
      request had added context of its own, or when there is no assistant prefix to cut. */
  lemma RollBackSoundIff(cfg: Config, events: seq<Event>, c: Chain<Buffer>)
    requires cfg.codec.Contract() && c in Run(cfg, events).active
    ensures c.start.responseLen <= |c.buffer.mask|
    ensures var prefix := cfg.codec.AssistantPrefix();
            var n := c.start.responseLen;
            (RollBack(prefix, c).Ok? && StrippedBy(prefix, c) == 0)
            <==> (prefix == [] || n == 0 || c.buffer.mask[n - 1] != 1)
  {
    ReachableChain(cfg, events, c);
    hide Run;
    var g := Last(Run(cfg, events).history.generations[c.id]);
    var prefix := cfg.codec.AssistantPrefix();
    assert Tracks(prefix, c.buffer, c.start.responseLen, g.context, g.output, g.merged);
    assert c.start.imageLen <= Count(c.images) && c.start.videoLen <= Count(c.videos);
    hide ChainOk;
    RollBackIff(prefix, c);
    hide RollBack, StrippedBy, CleanBoundary;
  }

  lemma RollBackIff(prefix: seq<Token>, c: Chain<Buffer>)
    requires c.buffer.Aligned() && c.start.responseLen <= |c.buffer.response|
    requires c.start.imageLen <= Count(c.images) && c.start.videoLen <= Count(c.videos)
    requires CleanBoundary(prefix, c.buffer, c.start.responseLen) || EchoBoundary(c.buffer, c.start.responseLen)
    ensures (RollBack(prefix, c).Ok? && StrippedBy(prefix, c) == 0)
            <==> (prefix == [] || c.start.responseLen == 0 || c.buffer.mask[c.start.responseLen - 1] != 1)
  {
    var n := c.start.responseLen;
    hide RollBack, StrippedBy, CleanBoundary, Buffer.Aligned;
    if prefix == [] {
      NoPrefixIsClean(c.buffer, n);
      CleanBoundaryRollsBack(prefix, c);
    } else if CleanBoundary(prefix, c.buffer, n) {
      CleanBoundaryRollsBack(prefix, c);
      CleanEndsUntrainable(prefix, c.buffer, n);
    } else if RollBack(prefix, c).Ok? {
      EchoStrips(prefix, c);
    }
  }

  lemma NoPrefixIsClean(b: Buffer, n: nat)
    requires b.Aligned() && n <= |b.response|
    ensures CleanBoundary([], b, n)
  {
    assert b.prompt[|b.prompt|..] == [] && b.response[..n][n..] == [] && b.mask[n..n] == [];
  }

  lemma CleanEndsUntrainable(prefix: seq<Token>, b: Buffer, n: nat)
    requires prefix != [] && b.Aligned() && n <= |b.response| && CleanBoundary(prefix, b, n)
    ensures n > 0 ==> b.mask[n - 1] == 0
  {
    if n > 0 {
      LastOfSum(b.mask[n - |prefix|..n]);
    }
  }

  lemma EchoStrips(prefix: seq<Token>, c: Chain<Buffer>)
    requires prefix != [] && c.buffer.Aligned() && c.start.responseLen <= |c.buffer.response|
    requires EchoBoundary(c.buffer, c.start.responseLen)
    requires RollBack(prefix, c).Ok?
    ensures StrippedBy(prefix, c) > 0
  {
    var n := c.start.responseLen;
    var b := Truncate(c.buffer, n);
    StripFromResponse(prefix, b);
    assert |b.mask| == n && |prefix| <= n;
    hide RollBack, Truncate;
    LastOfSum(c.buffer.mask[n - |prefix|..n]);
  }

  /** A sum is at least its last summand. */
  lemma LastOfSum(s: seq<nat>)
    requires s != []
    ensures Sum(s) >= s[|s| - 1]
  {
    SumSplit(s, |s| - 1);
    assert s[|s| - 1..] == [s[|s| - 1]];
  }

  /** After a merged context, a rollback gives back exactly the tokens the last generation
      started from, less the assistant prefix, drops exactly its output, and removes its version mark. */
  lemma RollBackRestoresContext(cfg: Config, events: seq<Event>, c: Chain<Buffer>)
    requires cfg.codec.Contract() && c in Run(cfg, events).active
    requires var gens := Run(cfg, events).history.generations;
             c.id in gens && gens[c.id] != [] && Last(gens[c.id]).merged
    ensures var g := Last(Run(cfg, events).history.generations[c.id]);
            var r := RollBack(cfg.codec.AssistantPrefix(), c);
            && r.Ok?
            && r.value.buffer.Tokens() + cfg.codec.AssistantPrefix() == g.context
            && r.value.dropped == |g.output|
            && r.value.buffer.Trainable() + |g.output| == c.buffer.Trainable()
            && r.value.buffer.versions + [g.version] == c.buffer.versions
  {
    ReachableChain(cfg, events, c);
    hide Run;
    var gens := Run(cfg, events).history.generations[c.id];
    var g := Last(gens);
    assert Tracks(cfg.codec.AssistantPrefix(), c.buffer, c.start.responseLen, g.context, g.output, g.merged);
    VersionsLast(gens);
    RollBackGivesBack(cfg.codec.AssistantPrefix(), c, g.context, g.output);
    hide RollBack, Tracks;
  }

  lemma VersionsLast(gens: seq<Generation>)
    requires gens != []
    ensures Versions(gens) == Versions(gens)[..|gens| - 1] + [Last(gens).version]
  {
  }

  lemma RollBackGivesBack(prefix: seq<Token>, c: Chain<Buffer>, context: seq<Token>, output: seq<Token>)
    requires Tracks(prefix, c.buffer, c.start.responseLen, context, output, true)
    requires c.start.imageLen <= Count(c.images) && c.start.videoLen <= Count(c.videos)
    ensures var r := RollBack(prefix, c);
            && r.Ok?
            && r.value.buffer.Tokens() + prefix == context
            && r.value.dropped == |output|
            && r.value.buffer.Trainable() + |output| == c.buffer.Trainable()
            && r.value.buffer.versions == KeptVersions(Some(c), true)
  {
    CleanBoundaryRollsBack(prefix, c);
    RollBackAccounts(prefix, c);
    SumRepeat(1, |output|);
    assert RollBack(prefix, c).value.dropped == Sum(c.buffer.mask[c.start.responseLen..]);
    hide RollBack, StrippedBy, CleanBoundary;
  }

  // -------------------------------------------------------------- what a choice means

  /** An exactly matching chain's history is, up to tool-call ids, a prefix of the request. A chain
      chosen for rollback agrees with the request up to its last assistant and differs there. */
  lemma ChoiceMeaning(cfg: Config, events: seq<Event>, req: Request)
    requires cfg.codec.Contract() && cfg.hasher.Injective()
    requires Select(QueryFor(cfg, Run(cfg, events).reserved, req), Run(cfg, events).active).Some?
    ensures var choice := Select(QueryFor(cfg, Run(cfg, events).reserved, req), Run(cfg, events).active).value;
            var h := choice.chain.history;
            if choice.rollback then
              var n := |h| - 1;
              && 0 <= n < |req.messages|
              && SameConversation(h[..n], req.messages[..n])
              && Canonical(h[n]) != Canonical(req.messages[n])
            else
              |h| <= |req.messages| && SameConversation(h, req.messages[..|h|])
  {
    hide Run, Inv, Select, QueryFor, Canonical, SameConversation, Hasher.Injective;
    RunKeeps(cfg, events);
    SelectionMeaning(cfg, Run(cfg, events), req);
  }

  lemma SelectionMeaning(cfg: Config, s: State, req: Request)
    requires Inv(cfg, s) && cfg.hasher.Injective()
    requires Select(QueryFor(cfg, s.reserved, req), s.active).Some?
    ensures var choice := Select(QueryFor(cfg, s.reserved, req), s.active).value;
            var h := choice.chain.history;
            if choice.rollback then
              var n := |h| - 1;
              && 0 <= n < |req.messages|
              && SameConversation(h[..n], req.messages[..n])
              && Canonical(h[n]) != Canonical(req.messages[n])
            else
              |h| <= |req.messages| && SameConversation(h, req.messages[..|h|])
  {
    hide FlightsOk, AllClosedAligned, Owned, Partition, Ordered, ChainOk, Exact, Candidate, Hasher.Injective, SameConversation;
    hide QueryFor;
    var choice := Select(QueryFor(cfg, s.reserved, req), s.active).value;
    assert Best(QueryFor(cfg, s.reserved, req), s.active, choice.chain);
    CandidateMeaning(cfg, s.history.generations, s.reserved, req, choice.chain);
  }

  lemma CandidateMeaning(cfg: Config, gens: map<nat, seq<Generation>>, reserved: set<nat>, req: Request, c: Chain<Buffer>)
    requires cfg.hasher.Injective() && ChainOk(cfg, gens, c)
    requires Candidate(QueryFor(cfg, reserved, req), c)
    ensures var n := |c.history| - 1;
            && 0 <= n < |req.messages|
            && SameConversation(c.history[..n], req.messages[..n])
            && (Exact(QueryFor(cfg, reserved, req), c) <==> SameConversation(c.history, req.messages[..n + 1]))
            && (!Exact(QueryFor(cfg, reserved, req), c) ==> Canonical(c.history[n]) != Canonical(req.messages[n]))
  {
    var n := |c.history| - 1;
    var q := QueryFor(cfg, reserved, req);
    assert q.hashes[n - 1] == cfg.hasher.Fold(req.messages[..n]);
    assert q.hashes[n] == cfg.hasher.Fold(req.messages[..n + 1]);
    assert c.tipHash == cfg.hasher.Fold(c.history) && c.start.tipHash == cfg.hasher.Fold(c.history[..n]);
    assert n < |req.messages| && c.start.tipHash == q.hashes[n - 1];
    assert Exact(q, c) <==> c.tipHash == q.hashes[n];
    hide Exact, Candidate, ChainOk, Hasher.Injective, Hasher.Fold, QueryFor;
    EqualHashesMeanSameConversation(cfg.hasher, c.history[..n], req.messages[..n]);
    EqualHashesMeanSameConversation(cfg.hasher, c.history, req.messages[..n + 1]);
    if SameConversation(c.history[..n], req.messages[..n]) && Canonical(c.history[n]) == Canonical(req.messages[n]) {
      forall i | 0 <= i < n ensures Canonical(c.history[i]) == Canonical(req.messages[i]) {
        assert c.history[..n][i] == c.history[i] && req.messages[..n][i] == req.messages[i];
      }
      assert SameConversation(c.history, req.messages[..n + 1]);
    }
  }

  // ------------------------------------------------------ fate of chains, finalize order

  /** Every chain id handed out is in exactly one place: active, finished, or dropped by a
      rollback nothing survived. */
  lemma ChainFates(cfg: Config, events: seq<Event>, id: nat)
    requires cfg.codec.Contract() && Run(cfg, events).phase != Aborted
    ensures var s := Run(cfg, events);
            && (1 <= id < s.nextId <==> InActive(s.active, id) || InClosed(s.closed, id) || id in s.history.dropped)
            && !(InActive(s.active, id) && InClosed(s.closed, id))
            && !(InActive(s.active, id) && id in s.history.dropped)
            && !(InClosed(s.closed, id) && id in s.history.dropped)
            && DistinctIds(s.active) && DistinctClosed(s.closed)
  {
    RunKeeps(cfg, events);
    hide Run, ChainsOk, FlightsOk, Owned, Ordered, InActive, InClosed, DistinctIds, DistinctClosed;
  }

  /** Insertion by commit order: what Python's stable `sorted` gives for distinct keys. */
  function Insert(t: Closed, sorted: seq<Closed>): seq<Closed> {
    if sorted == [] then [t]
    else if t.orderSeq <= sorted[0].orderSeq then [t] + sorted
    else [sorted[0]] + Insert(t, sorted[1..])
  }

  function SortByOrder(closed: seq<Closed>): seq<Closed> {
    if closed == [] then [] else Insert(closed[0], SortByOrder(closed[1..]))
  }

  ghost predicate IncreasingOrder(closed: seq<Closed>) {
    forall i, j | 0 <= i < j < |closed| :: closed[i].orderSeq < closed[j].orderSeq
  }

  lemma {:induction false} InsertKeeps(t: Closed, sorted: seq<Closed>)
    ensures multiset(Insert(t, sorted)) == multiset(sorted) + multiset{t}
  {
    if sorted != [] {
      assert sorted == [sorted[0]] + sorted[1..];
      if t.orderSeq > sorted[0].orderSeq {
        InsertKeeps(t, sorted[1..]);
      }
    }
  }

  lemma {:induction false} InsertSorts(t: Closed, sorted: seq<Closed>)
    requires IncreasingOrder(sorted)
    requires forall u | u in sorted :: u.orderSeq != t.orderSeq
    ensures IncreasingOrder(Insert(t, sorted))
  {
    if sorted != [] && t.orderSeq > sorted[0].orderSeq {
      var rest := Insert(t, sorted[1..]);
      InsertSorts(t, sorted[1..]);
      InsertKeeps(t, sorted[1..]);
      forall u | u in rest ensures u.orderSeq > sorted[0].orderSeq {
        assert u in multiset(rest);
        assert u == t || u in sorted[1..];
      }
      hide Insert;
    }
  }

  lemma {:induction false} SortSorts(closed: seq<Closed>)
    requires forall i, j | 0 <= i < j < |closed| :: closed[i].orderSeq != closed[j].orderSeq
    ensures IncreasingOrder(SortByOrder(closed))
    ensures multiset(SortByOrder(closed)) == multiset(closed)
  {
    if closed != [] {
      var rest := closed[1..];
      SortSorts(rest);
      forall u | u in SortByOrder(rest) ensures u.orderSeq != closed[0].orderSeq {
        assert u in multiset(SortByOrder(rest));
        assert u in multiset(rest);
        var k :| 0 <= k < |rest| && rest[k] == u;
        assert closed[k + 1] == u;
      }
      InsertSorts(closed[0], SortByOrder(rest));
      InsertKeeps(closed[0], SortByOrder(rest));
      assert closed == [closed[0]] + rest;
    }
  }

  /** Finalize returns every chain that survived exactly once, with the tokens it held, strictly
      in the order of its last commit or close. */
  lemma FinalizeOrder(cfg: Config, events: seq<Event>)
    requires cfg.codec.Contract() && Run(cfg, events).phase == Active
    ensures var s := Run(cfg, events);
            var returned := SortByOrder(Run(cfg, events + [FinalizeEvent]).closed);
            && IncreasingOrder(returned)
            && multiset(returned) == multiset(s.closed) + multiset(MaterializeAll(s.active))
            && DistinctClosed(returned)
            && (forall id | 1 <= id < s.nextId :: InClosed(returned, id) <==> id !in s.history.dropped)
  {
    hide Run, Partition, Ordered, MaterializeAll, SortByOrder, IncreasingOrder, DistinctClosed, InClosed;
    var s, s' := Run(cfg, events), Run(cfg, events + [FinalizeEvent]);
    RunFinalize(cfg, events);
    FinalClosed(cfg, events + [FinalizeEvent]);
    ClosedOrder(s'.closed, s'.history.dropped, s'.nextId, s'.orderSeq);
  }

  lemma RunFinalize(cfg: Config, events: seq<Event>)
    requires Run(cfg, events).phase == Active
    ensures var s, s' := Run(cfg, events), Run(cfg, events + [FinalizeEvent]);
            && s'.closed == s.closed + MaterializeAll(s.active) && s'.active == [] && s'.phase == Finalized
            && s'.history.dropped == s.history.dropped && s'.nextId == s.nextId
  {
    assert (events + [FinalizeEvent])[..|events|] == events;
  }

  lemma FinalClosed(cfg: Config, events: seq<Event>)
    requires cfg.codec.Contract()
    ensures var s := Run(cfg, events);
            && Partition(s.phase, s.active, s.closed, s.history.dropped, s.nextId)
            && Ordered(s.active, s.closed, s.orderSeq)
  {
    hide Run, Partition, Ordered, ChainsOk, FlightsOk, Owned;
    RunKeeps(cfg, events);
  }

  lemma ClosedOrder(closed: seq<Closed>, dropped: set<nat>, nextId: nat, orderSeq: nat)
    requires Partition(Finalized, [], closed, dropped, nextId)
    requires Ordered([], closed, orderSeq)
    ensures IncreasingOrder(SortByOrder(closed))
    ensures multiset(SortByOrder(closed)) == multiset(closed)
    ensures DistinctClosed(SortByOrder(closed))
    ensures forall id | 1 <= id < nextId :: InClosed(SortByOrder(closed), id) <==> id !in dropped
  {
    SortSorts(closed);
    SameMembers(SortByOrder(closed), closed);
    OrderedIdsDistinct(SortByOrder(closed), closed);
    hide SortByOrder;
    forall id | 1 <= id < nextId ensures InClosed(closed, id) <==> id !in dropped {
      assert !InActive([], id);
    }
  }

  lemma SameMembers(a: seq<Closed>, b: seq<Closed>)
    requires multiset(a) == multiset(b)
    ensures forall id :: InClosed(a, id) <==> InClosed(b, id)
  {
    forall t ensures t in a <==> t in b {
      assert t in a <==> t in multiset(a);
      assert t in b <==> t in multiset(b);
    }
  }

  lemma OrderedIdsDistinct(a: seq<Closed>, b: seq<Closed>)
    requires multiset(a) == multiset(b) && IncreasingOrder(a) && DistinctClosed(b)
    ensures DistinctClosed(a)
  {
    forall i, j | 0 <= i < j < |a| ensures a[i].trajectory.chainId != a[j].trajectory.chainId {
      assert a[i] in multiset(b) && a[j] in multiset(b) && a[i] != a[j];
      var k :| 0 <= k < |b| && b[k] == a[i];
      var m :| 0 <= m < |b| && b[m] == a[j];
      assert k < m || m < k;
    }
  }

  // ------------------------------------------------ failure atomicity, terminal phases

  /** Everything a session has committed so far. */
  ghost predicate SameCore(a: State, b: State) {
    && a.active == b.active && a.closed == b.closed && a.nextId == b.nextId && a.orderSeq == b.orderSeq
    && a.rollbackCount == b.rollbackCount && a.rollbackDropped == b.rollbackDropped
    && a.phase == b.phase && a.history == b.history
  }

  /** The step ends its request in an exception. */
  ghost predicate Raises(cfg: Config, s: State, e: Event) {
    match e
    case PrepareEvent(rid, req) =>
      s.phase != Active || (rid !in s.flights && Prepare(cfg, s.active, s.reserved, req).Err?)
    case ReceiveEvent(rid, outcome) =>
      rid in s.flights && s.flights[rid].Calling?
      && (outcome.Err? || Receive(cfg, s.flights[rid].encoded, outcome.value).Err?)
    case CommitEvent(rid, decoded) =>
      rid in s.flights && s.flights[rid].Generated? && (s.phase != Active || decoded.Err?)
    case CancelEvent(rid) => rid in s.flights && !s.flights[rid].Failing?
    case _ => false
  }

  /** A request that ends in an exception, wherever it happens, leaves no trace: chains,
      finished trajectories, counters and statistics are as before, and once its release has run
      its chain is free again and every other request is where it was. */
  lemma FailureLeavesNoTrace(cfg: Config, events: seq<Event>, e: Event)
    requires cfg.codec.Contract()
    requires Raises(cfg, Run(cfg, events), e)
    ensures var s := Run(cfg, events);
            var failed := Run(cfg, events + [e]);
            && SameCore(failed, s)
            && failed.reserved == s.reserved
            && (!e.PrepareEvent? ==>
                  var after := if e.rid in failed.flights then Run(cfg, events + [e] + [ReleaseEvent(e.rid)]) else failed;
                  && SameCore(after, s)
                  && after.flights == Without(s.flights, e.rid)
                  && after.reserved == s.reserved - (if Held(s.flights[e.rid]).Some? then {Held(s.flights[e.rid]).value} else {}))
  {
    var s := Run(cfg, events);
    var one := events + [e];
    assert one[..|one| - 1] == events;
    assert Run(cfg, one) == Step(cfg, s, e);
    if !e.PrepareEvent? {
      var two := one + [ReleaseEvent(e.rid)];
      assert two[..|two| - 1] == one;
      assert Run(cfg, two) == Step(cfg, Run(cfg, one), ReleaseEvent(e.rid));
      assert Run(cfg, one) == Fail(s, e.rid);
      hide Run;
    }
  }

  /** After finalize or abort no late commit, release or anything else changes the chains,
      and no second finalize succeeds. */
  lemma {:induction false} TerminalIsFinal(cfg: Config, events: seq<Event>, more: seq<Event>)
    requires cfg.codec.Contract()
    requires Run(cfg, events).phase != Active
    ensures var s := Run(cfg, events);
            var s' := Run(cfg, events + more);
            SameCore(s', s) && s'.active == [] && s'.history.finalizes <= 1
    decreases |more|
  {
    if more == [] {
      assert events + more == events;
      RunKeeps(cfg, events);
    } else {
      var n := |more| - 1;
      TerminalIsFinal(cfg, events, more[..n]);
      assert (events + more)[..|events + more| - 1] == events + more[..n];
      TerminalStep(cfg, Run(cfg, events + more[..n]), more[n]);
    }
  }

  lemma TerminalStep(cfg: Config, s: State, e: Event)
    requires s.phase != Active
    ensures SameCore(Step(cfg, s, e), s)
  {
    hide Prepare, Receive, OriginOf, CommittedChain;
  }
}
