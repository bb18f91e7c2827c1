/** The trajectory capacity: no backend call is made that could overrun it, and nothing
    committed or materialized is longer. */
module SessionCapacity {
  import opened Wrappers
  import opened Sequences
  import opened Messages
  import opened Codecs
  import opened Chains
  import opened Selection
  import opened SessionModel
  import opened SessionInvariant
  import opened SessionSafety

  /** The budget sent with a backend call leaves room for everything already there. */
  ghost predicate CallFits(cap: nat, e: Encoded<Buffer>) {
    |e.context| < cap && e.maxTokens.Some? && |e.context| + e.maxTokens.value <= cap
  }

  ghost predicate FlightFits(cap: nat, f: Flight<Buffer>) {
    match f
    case Calling(e, _) => CallFits(cap, e)
    case Generated(e, _, _) => |e.buffer.Tokens()| <= cap
    case Failing(_) => true
  }

  ghost predicate ChainsFit(cap: nat, active: ChainList) {
    forall c | c in active :: |c.buffer.Tokens()| <= cap
  }

  ghost predicate ClosedFit(cap: nat, closed: seq<Closed>) {
    forall t | t in closed :: |t.trajectory.prompt| + |t.trajectory.response| <= cap
  }

  ghost predicate FlightsFit(cap: nat, flights: Flights) {
    forall r | r in flights :: FlightFits(cap, flights[r])
  }

  ghost predicate Fits(cap: nat, s: State) {
    ChainsFit(cap, s.active) && ClosedFit(cap, s.closed) && FlightsFit(cap, s.flights)
  }

  /** The backend returns no more tokens than it was allowed. */
  ghost predicate Honours(s: State, e: Event) {
    (e.ReceiveEvent? && e.outcome.Ok? && e.rid in s.flights && s.flights[e.rid].Calling?
     && s.flights[e.rid].encoded.maxTokens.Some?) ==>
      |e.outcome.value.tokens| <= s.flights[e.rid].encoded.maxTokens.value
  }

  lemma AdoptedTokens(b: Buffer, m: Merged)
    requires Adopt(b, m).Ok?
    ensures Adopt(b, m).value.Tokens() == m.ids
  {
    assert m.ids == Take(m.ids, |b.prompt|) + Drop(m.ids, |b.prompt|);
  }

  /** The clamp leaves exactly the remaining room, at most. */
  lemma SealFits(cfg: Config, req: Request, hashes: seq<Hash>, base: Base, id: Option<nat>, rollback: bool)
    requires cfg.capacity.Some? && |base.buffer.Tokens()| < cfg.capacity.value
    requires Seal(cfg, req, hashes, base, id, rollback, false).Ok?
    ensures CallFits(cfg.capacity.value, Seal(cfg, req, hashes, base, id, rollback, false).value)
  {
  }

  lemma MergeSuffixFits(cfg: Config, choice: Choice<Buffer>, base: Base, req: Request, hashes: seq<Hash>)
    requires cfg.capacity.Some?
    requires var r := MergeSuffix(cfg, choice, base, req, hashes); r.Ok? && !r.value.exhausted
    ensures CallFits(cfg.capacity.value, MergeSuffix(cfg, choice, base, req, hashes).value)
  {
    var id := Some(choice.chain.id);
    var suffix := Drop(req.messages, Covered(choice));
    if suffix == [] {
      SealFits(cfg, req, hashes, base, id, choice.rollback);
    } else {
      var previous := if choice.rollback then Take(req.messages, Covered(choice)) else choice.chain.history;
      var media := cfg.codec.extractMedia(suffix).value;
      var call := ContextCall(previous, previous + suffix, base.buffer.Tokens(), base.buffer.mask,
                              if req.logprobs then Some(base.buffer.logprobs) else None, req.tools);
      var merged := cfg.codec.MergeContext(call, media).value;
      AdoptedTokens(base.buffer, merged);
      SealFits(cfg, req, hashes,
               base.(buffer := Adopt(base.buffer, merged).value, images := ExtendMedia(base.images, media.images),
                     videos := ExtendMedia(base.videos, media.videos)), id, choice.rollback);
    }
  }

  lemma PrepareFreshFits(cfg: Config, req: Request, hashes: seq<Hash>)
    requires cfg.capacity.Some?
    requires PrepareFresh(cfg, req, hashes).Ok? && !PrepareFresh(cfg, req, hashes).value.exhausted
    ensures CallFits(cfg.capacity.value, PrepareFresh(cfg, req, hashes).value)
  {
    var media := cfg.codec.extractMedia(req.messages).value;
    var b := Buffer(cfg.codec.buildInitial(InitialCall(req.messages, req.tools, media)).value, [], [], [], []);
    SealFits(cfg, req, hashes, Base(b, media.images, media.videos, 0), None, false);
  }

  lemma PreparedFits(cfg: Config, s: State, req: Request)
    requires cfg.capacity.Some?
    requires var r := Prepare(cfg, s.active, s.reserved, req); r.Ok? && !r.value.exhausted
    ensures CallFits(cfg.capacity.value, Prepare(cfg, s.active, s.reserved, req).value)
  {
    hide CallFits, PrepareFresh, MergeSuffix, BaseOf;
    var q := QueryFor(cfg, s.reserved, req);
    match Select(q, s.active)
    case None => PrepareFreshFits(cfg, req, q.hashes);
    case Some(choice) => MergeSuffixFits(cfg, choice, BaseOf(cfg, choice).value, req, q.hashes);
  }

  /** A chain that is closed, cut back or not, is no longer than it was. */
  lemma ClosingChainFits(cfg: Config, c: Chain<Buffer>, e: Encoded<Buffer>)
    requires c.buffer.Aligned() && BaseOf(cfg, Choice(c, e.rollback)).Ok?
    requires e.buffer == BaseOf(cfg, Choice(c, e.rollback)).value.buffer
    requires e.rollback ==> c.start.responseLen <= |c.buffer.response|
    ensures |ClosingChain(c, e).buffer.Tokens()| <= |c.buffer.Tokens()|
  {
    if e.rollback {
      RollBackAccounts(cfg.codec.AssistantPrefix(), c);
      hide RollBack;
      assert |e.buffer.Tokens()| + |cfg.codec.AssistantPrefix()| == |c.buffer.prompt| + c.start.responseLen;
    }
  }

  lemma ClosingFits(cfg: Config, s: State, req: Request)
    requires Inv(cfg, s)
    requires var r := Prepare(cfg, s.active, s.reserved, req); r.Ok? && r.value.exhausted && r.value.chainId.Some?
    ensures var e := Prepare(cfg, s.active, s.reserved, req).value;
            var f := Find(s.active, e.chainId.value);
            f.Some? && |ClosingChain(s.active[f.value], e).buffer.Tokens()| <= |s.active[f.value].buffer.Tokens()|
  {
    PrepareExhausted(cfg, s, req);
    var e := Prepare(cfg, s.active, s.reserved, req).value;
    var c := OriginOf(cfg, s, req).base.value;
    hide Prepare, OriginOf, Owned, Ordered, FlightsOk;
    FindMember(s.active, c) by {
      DistinctActive(s);
    }
    assert ChainOk(cfg, s.history.generations, c);
    hide ChainsOk, Partition;
    ClosingChainFits(cfg, c, e);
  }

  lemma ClosedFitAfter(cap: nat, s: State, e: Encoded<Buffer>, stripped: nat)
    requires Fits(cap, s)
    requires e.chainId.Some? && Find(s.active, e.chainId.value).Some?
    requires var c := s.active[Find(s.active, e.chainId.value).value];
             |ClosingChain(c, e).buffer.Tokens()| <= |c.buffer.Tokens()|
    ensures Fits(cap, CloseExhausted(s, e, stripped))
  {
    var c := s.active[Find(s.active, e.chainId.value).value];
    assert c in s.active;
    hide FlightsFit, ClosingChain;
  }

  lemma PrepareStepFits(cfg: Config, s: State, rid: nat, req: Request)
    requires Inv(cfg, s) && cfg.capacity.Some? && Fits(cfg.capacity.value, s)
    ensures Fits(cfg.capacity.value, StepPrepare(cfg, s, rid, req))
  {
    if s.phase == Active && rid !in s.flights && Prepare(cfg, s.active, s.reserved, req).Ok? {
      var e := Prepare(cfg, s.active, s.reserved, req).value;
      if !e.exhausted {
        PreparedFits(cfg, s, req);
        hide Inv, Prepare, OriginOf, ChainsFit, ClosedFit;
      } else if e.chainId.Some? {
        ClosingFits(cfg, s, req);
        hide Inv, Prepare, OriginOf, Fits, CloseExhausted;
        ClosedFitAfter(cfg.capacity.value, s, e, OriginOf(cfg, s, req).stripped);
      }
    }
  }

  lemma ReceivedFits(cfg: Config, f: Flight<Buffer>, out: Output)
    requires cfg.codec.Contract() && cfg.capacity.Some?
    requires f.Calling? && FlightOk(cfg, f) && FlightFits(cfg.capacity.value, f)
    requires |out.tokens| <= f.encoded.maxTokens.value
    requires Receive(cfg, f.encoded, out).Ok?
    ensures FlightFits(cfg.capacity.value,
                       Generated(f.encoded.(buffer := Receive(cfg, f.encoded, out).value), f.origin, out))
  {
    hide FlightOk, Receive, Codec.Contract;
    ReceivedFlight(cfg, f, out);
    GeneratedLength(cfg, Generated(f.encoded.(buffer := Receive(cfg, f.encoded, out).value), f.origin, out));
  }

  lemma ReceiveStepFits(cfg: Config, s: State, rid: nat, outcome: Result<Output>)
    requires cfg.codec.Contract() && Inv(cfg, s) && cfg.capacity.Some? && Fits(cfg.capacity.value, s)
    requires Honours(s, ReceiveEvent(rid, outcome))
    ensures Fits(cfg.capacity.value, StepReceive(cfg, s, rid, outcome))
  {
    hide Inv, FlightOk, Receive, Codec.Contract, ChainsFit, ClosedFit;
    if rid in s.flights && s.flights[rid].Calling? && outcome.Ok?
       && Receive(cfg, s.flights[rid].encoded, outcome.value).Ok?
    {
      FlightOfRun(cfg, s, rid);
      ReceivedFits(cfg, s.flights[rid], outcome.value);
    }
  }

  lemma GeneratedLength(cfg: Config, f: Flight<Buffer>)
    requires f.Generated? && FlightOk(cfg, f)
    ensures |f.encoded.buffer.Tokens()| == |f.encoded.context| + |f.output.tokens|
  {
    var b := f.encoded.buffer;
    assert b.response == b.response[..f.encoded.start.value.responseLen] + f.output.tokens;
  }

  lemma CommitStepFits(cfg: Config, s: State, rid: nat, decoded: Result<Message>, cap: nat)
    requires Fits(cap, s)
    ensures Fits(cap, StepCommit(cfg, s, rid, decoded))
  {
    if rid in s.flights && s.flights[rid].Generated? {
      assert FlightFits(cap, s.flights[rid]);
      hide ClosedFit, CommitHistory;
    }
  }

  lemma FinalizeStepFits(s: State, cap: nat)
    requires Fits(cap, s)
    ensures Fits(cap, StepFinalize(s))
  {
    var added := MaterializeAll(s.active);
    forall t | t in added ensures |t.trajectory.prompt| + |t.trajectory.response| <= cap {
      var i :| 0 <= i < |added| && added[i] == t;
      assert s.active[i] in s.active;
    }
    hide FlightsFit;
  }

  /** Steps that start or end nothing. */
  lemma OtherStepFits(cfg: Config, s: State, e: Event, cap: nat)
    requires Fits(cap, s) && (e.ReleaseEvent? || e.CancelEvent? || e.AbortEvent?)
    ensures Fits(cap, Step(cfg, s, e))
  {
  }

  lemma StepFits(cfg: Config, s: State, e: Event)
    requires cfg.codec.Contract() && Inv(cfg, s) && cfg.capacity.Some? && Fits(cfg.capacity.value, s)
    requires Honours(s, e)
    ensures Fits(cfg.capacity.value, Step(cfg, s, e))
  {
    hide Inv, Fits, Codec.Contract;
    match e
    case PrepareEvent(rid, req) => PrepareStepFits(cfg, s, rid, req);
    case ReceiveEvent(rid, outcome) => ReceiveStepFits(cfg, s, rid, outcome);
    case CommitEvent(rid, decoded) => CommitStepFits(cfg, s, rid, decoded, cfg.capacity.value);
    case FinalizeEvent => FinalizeStepFits(s, cfg.capacity.value);
    case _ => OtherStepFits(cfg, s, e, cfg.capacity.value);
  }

  /** With a capacity set and a backend that honours its budget: every backend call stays strictly
      below the capacity and asks for no more than the rest, and everything committed or
      materialized, also after a rollback or an overflowing merge, fits. */
  lemma {:induction false} CapacityBound(cfg: Config, events: seq<Event>)
    requires cfg.codec.Contract() && cfg.capacity.Some?
    requires forall i | 0 <= i < |events| :: Honours(Run(cfg, events[..i]), events[i])
    ensures Fits(cfg.capacity.value, Run(cfg, events))
    decreases |events|
  {
    if events != [] {
      var before := events[..|events| - 1];
      assert forall i | 0 <= i < |before| :: before[..i] == events[..i] && before[i] == events[i];
      CapacityBound(cfg, before);
      RunKeeps(cfg, before);
      assert Honours(Run(cfg, before), events[|events| - 1]);
      hide Inv, Fits, Step, Honours;
      StepFits(cfg, Run(cfg, before), events[|events| - 1]);
    }
  }
}
