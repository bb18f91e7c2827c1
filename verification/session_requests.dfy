/** What a session asks the codec and the backend for, and what a request's buffer holds: stated by
    fields and by the codec's answers, for every request of every run. */
module SessionRequests {
  import opened Wrappers
  import opened Sequences
  import opened Messages
  import opened Codecs
  import opened Chains
  import opened Selection
  import opened SessionModel
  import opened SessionInvariant
  import opened SessionSafety
  import opened SessionTheorems

  // ------------------------------------------------------- what a request starts from

  /** The first `n` media, or none. */
  function FirstMedia(media: MediaList, n: nat): MediaList {
    if media.None? || n == 0 then None else Some(Take(media.value, n))
  }

  /** A chain's buffer cut back to its last boundary, and the assistant prefix cut off its end. */
  ghost predicate CutBack(prefix: seq<Token>, c: Chain<Buffer>, b: Buffer) {
    var n := c.start.responseLen;
    && n <= |c.buffer.response| && c.buffer.Aligned()
    && (if n == 0 then
          b.prompt + prefix == c.buffer.prompt && b.response == [] && b.mask == [] && b.logprobs == []
        else
          && |prefix| <= n && b.prompt == c.buffer.prompt && b.response + prefix == c.buffer.response[..n]
          && b.mask == c.buffer.mask[..n - |prefix|]
          && b.logprobs == (if c.buffer.logprobs == [] then [] else c.buffer.logprobs[..n - |prefix|]))
    && b.versions == KeptVersions(Some(c), true)
  }

  /** What a request that continues a chain starts from: the chain as it is, or cut back. */
  ghost predicate StartsFrom(prefix: seq<Token>, c: Chain<Buffer>, rollback: bool, base: Base) {
    if rollback then
      && CutBack(prefix, c, base.buffer)
      && base.images == FirstMedia(c.images, c.start.imageLen)
      && base.videos == FirstMedia(c.videos, c.start.videoLen)
      && base.dropped == Sum(c.buffer.mask[c.start.responseLen..])
    else base == Base(c.buffer, c.images, c.videos, 0)
  }

  lemma CutMedia(media: MediaList, n: nat)
    requires RollBackMedia(media, n).Ok?
    ensures RollBackMedia(media, n).value == FirstMedia(media, n)
  {
  }

  lemma CutBuffer(prefix: seq<Token>, c: Chain<Buffer>)
    requires c.buffer.Aligned() && c.start.responseLen <= |c.buffer.response|
    requires StripPrefix(prefix, Truncate(c.buffer, c.start.responseLen)).Ok?
    ensures CutBack(prefix, c, StripPrefix(prefix, Truncate(c.buffer, c.start.responseLen)).value)
  {
    var n := c.start.responseLen;
    var b := Truncate(c.buffer, n);
    CutSuffix(if n == 0 then b.prompt else b.response, prefix);
    if n > 0 {
      assert b.mask[..n - |prefix|] == c.buffer.mask[..n - |prefix|];
    }
  }

  lemma BaseStarts(cfg: Config, choice: Choice<Buffer>)
    requires choice.chain.buffer.Aligned() && BaseOf(cfg, choice).Ok?
    ensures StartsFrom(cfg.codec.AssistantPrefix(), choice.chain, choice.rollback, BaseOf(cfg, choice).value)
  {
    hide CutBack, StripPrefix, Truncate, RollBackMedia, FirstMedia;
    var c := choice.chain;
    if choice.rollback {
      CutBuffer(cfg.codec.AssistantPrefix(), c);
      CutMedia(c.images, c.start.imageLen);
      CutMedia(c.videos, c.start.videoLen);
    }
  }

  // --------------------------------------------------------------- what is asked for

  /** The budget sent: without a capacity what was asked for; otherwise the smaller of what was asked
      for and of the room left. */
  predicate Budget(capacity: Option<nat>, asked: Option<int>, used: nat, sent: Option<int>) {
    match capacity
    case None => sent == asked
    case Some(cap) =>
      && sent.Some? && sent.value <= cap - used
      && (asked.Some? ==> sent.value <= asked.value)
      && (sent.value == cap - used || sent == asked)
  }

  /** The codec is asked to go from the messages covered so far to those and all the others. */
  ghost predicate Asks(cfg: Config, req: Request, previous: seq<Message>, base: Buffer, call: ContextCall) {
    && call.previous == previous && |previous| <= |req.messages|
    && call.updated == previous + req.messages[|previous|..]
    && (cfg.hasher.Injective() ==> SameConversation(call.updated, req.messages))
    && call.runtime == base.Tokens() && call.mask == base.mask && call.tools == req.tools
    && call.logprobs == (if req.logprobs then Some(base.logprobs) else None)
  }

  ghost predicate Renders(cfg: Config, req: Request, previous: seq<Message>, base: Buffer, call: ContextCall) {
    Asks(cfg, req, previous, base, call) && cfg.codec.appendContext(call).Ok?
  }

  /** The buffer after context was merged into `base`: the codec's tokens, none of the new ones trainable,
      all of them with log probability 0 when log probabilities are asked for. */
  ghost predicate Grown(base: Buffer, ids: seq<Token>, logprobs: bool, b: Buffer) {
    && b.Tokens() == ids && b.prompt == base.prompt && base.response <= b.response
    && b.mask == base.mask + Repeat(0, |b.response| - |base.response|)
    && b.versions == base.versions
    && (logprobs && |base.logprobs| == |base.mask| ==>
          b.logprobs == base.logprobs + Zeros(|b.response| - |base.response|))
    && (!logprobs ==> b.logprobs == [])
  }

  /** The messages a continuation of a chain does not send to the codec as new. */
  function CoveredMessages(c: Chain<Buffer>, rollback: bool, req: Request): seq<Message> {
    if rollback then Take(req.messages, if c.history == [] then 0 else |c.history| - 1) else c.history
  }

  ghost predicate Extends(cfg: Config, req: Request, c: Chain<Buffer>, rollback: bool, base: Buffer, b: Buffer) {
    var previous := CoveredMessages(c, rollback, req);
    if |req.messages| <= |previous| then b == base
    else exists call: ContextCall ::
           Renders(cfg, req, previous, base, call) && Grown(base, cfg.codec.appendContext(call).value.ids, req.logprobs, b)
  }

  ghost predicate ContinuesChain(cfg: Config, req: Request, c: Chain<Buffer>, e: Encoded<Buffer>) {
    exists base: Base ::
      && StartsFrom(cfg.codec.AssistantPrefix(), c, e.rollback, base)
      && Extends(cfg, req, c, e.rollback, base.buffer, e.buffer)
      && e.images == base.images && e.videos == base.videos && e.dropped == base.dropped
  }

  ghost predicate OpensChain(cfg: Config, req: Request, e: Encoded<Buffer>) {
    exists media: MediaPair ::
      && cfg.codec.extractMedia(req.messages) == Ok(media)
      && cfg.codec.buildInitial(InitialCall(req.messages, req.tools, media)) == Ok(e.buffer.prompt)
      && e.buffer == Buffer(e.buffer.prompt, [], [], [], [])
      && e.images == media.images && e.videos == media.videos
  }

  /** What a request that is about to call the backend carries. */
  ghost predicate PreparedFor(cfg: Config, req: Request, e: Encoded<Buffer>, o: Origin) {
    && e.messages == req.messages && e.tools == req.tools && e.logprobs == req.logprobs && !e.exhausted
    && e.context == e.buffer.Tokens()
    && Budget(cfg.capacity, req.maxTokens, |e.context|, e.maxTokens)
    && e.start == Some(Start(|e.buffer.response|, |req.messages|, Count(e.images), Count(e.videos),
                             cfg.hasher.Fold(req.messages)))
    && match o.base
       case None => e.chainId.None? && !e.rollback && e.dropped == 0 && OpensChain(cfg, req, e)
       case Some(c) =>
         && e.chainId == Some(c.id) && c.tools == req.tools && |c.history| >= 2
         && (e.rollback ==> |c.history| <= |req.messages|)
         && ContinuesChain(cfg, req, c, e)
  }

  lemma SealSays(cfg: Config, req: Request, base: Base, id: Option<nat>, rollback: bool)
    requires var r := Seal(cfg, req, cfg.hasher.Prefixes(req.messages), base, id, rollback, false); r.Ok?
    ensures var e := Seal(cfg, req, cfg.hasher.Prefixes(req.messages), base, id, rollback, false).value;
            && e.messages == req.messages && e.tools == req.tools && e.logprobs == req.logprobs && !e.exhausted
            && e.buffer == base.buffer && e.context == e.buffer.Tokens()
            && Budget(cfg.capacity, req.maxTokens, |e.context|, e.maxTokens)
            && e.images == base.images && e.videos == base.videos && e.dropped == base.dropped
            && e.chainId == id && e.rollback == rollback
            && e.start == Some(Start(|e.buffer.response|, |req.messages|, Count(e.images), Count(e.videos),
                                     cfg.hasher.Fold(req.messages)))
  {
    PrefixesTip(cfg.hasher, req.messages);
  }

  lemma FreshSays(cfg: Config, req: Request)
    requires var r := PrepareFresh(cfg, req, cfg.hasher.Prefixes(req.messages)); r.Ok? && !r.value.exhausted
    ensures PreparedFor(cfg, req, PrepareFresh(cfg, req, cfg.hasher.Prefixes(req.messages)).value, Origin(None, true, 0))
  {
    hide Budget;
    var media := cfg.codec.extractMedia(req.messages).value;
    var prompt := cfg.codec.buildInitial(InitialCall(req.messages, req.tools, media)).value;
    SealSays(cfg, req, Base(Buffer(prompt, [], [], [], []), media.images, media.videos, 0), None, false);
  }

  lemma AdoptGrows(cfg: Config, req: Request, base: Buffer, call: ContextCall)
    requires cfg.codec.Contract() && base.Aligned()
    requires call.runtime == base.Tokens() && call.mask == base.mask && cfg.codec.appendContext(call).Ok?
    requires call.logprobs == (if req.logprobs then Some(base.logprobs) else None)
    requires Adopt(base, cfg.codec.appendContext(call).value).Ok?
    ensures var m := cfg.codec.appendContext(call).value;
            Grown(base, m.ids, req.logprobs, Adopt(base, m).value)
  {
    assert cfg.codec.ContextContract(call) && cfg.codec.ContextLogprobs(call);
    var m := cfg.codec.appendContext(call).value;
    var added := m.ids[|call.runtime|..];
    assert m.ids == base.Tokens() + added;
    AdoptAppends(base, m, added, Repeat(0, |added|));
  }

  /** Media are never added to a chain: the codec refuses to merge them. */
  lemma NoMediaAdded(cfg: Config, call: ContextCall, media: MediaPair, own: MediaList)
    requires cfg.codec.MergeContext(call, media).Ok?
    ensures ExtendMedia(own, media.images) == own && ExtendMedia(own, media.videos) == own
    ensures cfg.codec.appendContext(call) == cfg.codec.MergeContext(call, media)
  {
  }

  lemma MergeSays(cfg: Config, choice: Choice<Buffer>, base: Base, req: Request)
    requires cfg.codec.Contract() && base.buffer.Aligned()
    requires |choice.chain.history| >= 2 && choice.chain.start.historyLen == |choice.chain.history| - 1
    requires Covered(choice) <= |req.messages|
    requires cfg.hasher.Injective() && !choice.rollback ==>
               SameConversation(choice.chain.history, req.messages[..|choice.chain.history|])
    requires var r := MergeSuffix(cfg, choice, base, req, cfg.hasher.Prefixes(req.messages)); r.Ok? && !r.value.exhausted
    ensures var e := MergeSuffix(cfg, choice, base, req, cfg.hasher.Prefixes(req.messages)).value;
            && Extends(cfg, req, choice.chain, choice.rollback, base.buffer, e.buffer)
            && e.images == base.images && e.videos == base.videos && e.dropped == base.dropped
            && e.chainId == Some(choice.chain.id) && e.rollback == choice.rollback
            && e.messages == req.messages && e.tools == req.tools && e.logprobs == req.logprobs && !e.exhausted
            && e.context == e.buffer.Tokens()
            && Budget(cfg.capacity, req.maxTokens, |e.context|, e.maxTokens)
            && e.start == Some(Start(|e.buffer.response|, |req.messages|, Count(e.images), Count(e.videos),
                                     cfg.hasher.Fold(req.messages)))
  {
    hide Budget, Adopt, Grown, Codec.Contract, ExtendMedia, Hasher.Injective, SameConversation;
    var c, id := choice.chain, Some(choice.chain.id);
    var suffix := Drop(req.messages, Covered(choice));
    var previous := CoveredMessages(c, choice.rollback, req);
    assert |previous| == Covered(choice);
    if suffix == [] {
      SealSays(cfg, req, base, id, choice.rollback);
    } else {
      var media := cfg.codec.extractMedia(suffix).value;
      var call := ContextCall(previous, previous + suffix, base.buffer.Tokens(), base.buffer.mask,
                              if req.logprobs then Some(base.buffer.logprobs) else None, req.tools);
      var merged := cfg.codec.MergeContext(call, media).value;
      NoMediaAdded(cfg, call, media, base.images);
      NoMediaAdded(cfg, call, media, base.videos);
      AdoptGrows(cfg, req, base.buffer, call);
      var buffer := Adopt(base.buffer, merged).value;
      if cfg.hasher.Injective() {
        WholeConversation(previous, req.messages);
      }
      assert Renders(cfg, req, previous, base.buffer, call);
      SealSays(cfg, req, base.(buffer := buffer), id, choice.rollback);
    }
  }

  lemma WholeConversation(previous: seq<Message>, messages: seq<Message>)
    requires |previous| <= |messages| && SameConversation(previous, messages[..|previous|])
    ensures SameConversation(previous + messages[|previous|..], messages)
  {
    var all := previous + messages[|previous|..];
    forall i | 0 <= i < |messages| ensures Canonical(all[i]) == Canonical(messages[i]) {
      if i < |previous| {
        assert messages[..|previous|][i] == messages[i];
      }
    }
  }

  /** A chain continued as it is stands for the beginning of the request. */
  lemma ExactAgrees(cfg: Config, gens: map<nat, seq<Generation>>, reserved: set<nat>, req: Request, c: Chain<Buffer>)
    requires cfg.hasher.Injective() && ChainOk(cfg, gens, c)
    requires Candidate(QueryFor(cfg, reserved, req), c) && Exact(QueryFor(cfg, reserved, req), c)
    ensures |c.history| <= |req.messages| && SameConversation(c.history, req.messages[..|c.history|])
  {
    CandidateMeaning(cfg, gens, reserved, req, c);
  }

  lemma SelectedSays(cfg: Config, gens: map<nat, seq<Generation>>, active: seq<Chain<Buffer>>, reserved: set<nat>, req: Request)
    requires forall c | c in active :: ChainOk(cfg, gens, c)
    requires Select(QueryFor(cfg, reserved, req), active).Some?
    ensures var choice := Select(QueryFor(cfg, reserved, req), active).value;
            var c := choice.chain;
            && ChainOk(cfg, gens, c) && c.tools == req.tools
            && |c.history| >= 2 && c.start.historyLen == |c.history| - 1 && c.buffer.Aligned()
            && Covered(choice) <= |req.messages| && (choice.rollback ==> |c.history| <= |req.messages|)
            && (cfg.hasher.Injective() && !choice.rollback ==> SameConversation(c.history, req.messages[..|c.history|]))
  {
    SelectedCovers(cfg, gens, active, reserved, req);
    var choice := Select(QueryFor(cfg, reserved, req), active).value;
    var c := choice.chain;
    ChainTokens(cfg, gens, c);
    assert Best(QueryFor(cfg, reserved, req), active, c);
    if cfg.hasher.Injective() && !choice.rollback {
      ExactAgrees(cfg, gens, reserved, req, c);
    }
  }

  /** A preparation that does not exhaust the capacity carries exactly what its request asks for. */
  lemma PreparationSays(cfg: Config, s: State, req: Request)
    requires cfg.codec.Contract()
    requires forall c | c in s.active :: ChainOk(cfg, s.history.generations, c)
    requires var r := Prepare(cfg, s.active, s.reserved, req); r.Ok? && !r.value.exhausted
    ensures PreparedFor(cfg, req, Prepare(cfg, s.active, s.reserved, req).value, OriginOf(cfg, s, req))
  {
    hide PrepareFresh, MergeSuffix, Codec.Contract, StartsFrom, Extends, Budget, BaseOf, ChainOk, Select, Hasher.Injective, SameConversation;
    var q := QueryFor(cfg, s.reserved, req);
    match Select(q, s.active)
    case None => FreshSays(cfg, req);
    case Some(choice) =>
      SelectedSays(cfg, s.history.generations, s.active, s.reserved, req);
      BaseOfAccounts(cfg, choice);
      var base := BaseOf(cfg, choice).value;
      BaseStarts(cfg, choice);
      MergeSays(cfg, choice, base, req);
  }

  // --------------------------------------------------------------- what is received

  /** The request's buffer after the backend answered. */
  ghost predicate ReceivedInto(b: Buffer, logprobs: bool, out: Output, r: Buffer) {
    && r.prompt == b.prompt && r.response == b.response + out.tokens
    && r.mask == b.mask + Repeat(1, |out.tokens|)
    && r.versions == b.versions + [out.version]
    && (if logprobs then
          && out.logprobs.Some? && |out.logprobs.value| == |out.tokens|
          && (|b.logprobs| == |b.mask| ==> r.logprobs == b.logprobs + out.logprobs.value)
        else r.logprobs == [])
  }

  lemma ReceiveSays(cfg: Config, e: Encoded<Buffer>, out: Output)
    requires cfg.codec.Contract() && e.buffer.Aligned() && Receive(cfg, e, out).Ok?
    ensures ReceivedInto(e.buffer, e.logprobs, out, Receive(cfg, e, out).value)
  {
    var call := AssistantCall(e.buffer.Tokens(), out.tokens, e.buffer.mask,
                              if e.logprobs then Some(e.buffer.logprobs) else None,
                              if e.logprobs then out.logprobs else None);
    assert cfg.codec.AssistantContract(call) && cfg.codec.AssistantLogprobs(call);
    var marked := e.buffer.(versions := e.buffer.versions + [out.version]);
    AdoptAppends(marked, cfg.codec.mergeAssistant(call).value, out.tokens, Repeat(1, |out.tokens|));
  }

  // ------------------------------------------------------------------- in every run

  /** A request in flight carries what some request asked for, and what the backend answered to it. */
  ghost predicate FlightSays(cfg: Config, f: Flight<Buffer>) {
    match f
    case Calling(e, o) => exists req :: PreparedFor(cfg, req, e, o)
    case Generated(e, o, out) => exists req, b :: AnsweredFor(cfg, req, b, e, o, out)
    case Failing(_) => true
  }

  ghost predicate AnsweredFor(cfg: Config, req: Request, b: Buffer, e: Encoded<Buffer>, o: Origin, out: Output) {
    PreparedFor(cfg, req, e.(buffer := b), o) && ReceivedInto(b, e.logprobs, out, e.buffer)
  }

  ghost predicate FlightsSay(cfg: Config, flights: Flights) {
    forall r | r in flights :: FlightSays(cfg, flights[r])
  }

  lemma PrepareStepSays(cfg: Config, s: State, rid: nat, req: Request)
    requires cfg.codec.Contract() && Inv(cfg, s) && FlightsSay(cfg, s.flights)
    ensures FlightsSay(cfg, StepPrepare(cfg, s, rid, req).flights)
  {
    hide Prepare, OriginOf, PreparedFor, CloseExhausted, Codec.Contract;
    if s.phase == Active && rid !in s.flights && Prepare(cfg, s.active, s.reserved, req).Ok? {
      if Prepare(cfg, s.active, s.reserved, req).value.exhausted {
        CloseKeepsFlights(s, Prepare(cfg, s.active, s.reserved, req).value, OriginOf(cfg, s, req).stripped);
      } else {
        PreparationSays(cfg, s, req);
      }
    }
  }

  lemma CloseKeepsFlights(s: State, e: Encoded<Buffer>, stripped: nat)
    ensures CloseExhausted(s, e, stripped).flights == s.flights
  {
    hide Materialize, ClosingChain, RemoveAt;
  }

  lemma FailSays(cfg: Config, s: State, rid: nat)
    requires FlightsSay(cfg, s.flights) && rid in s.flights && !s.flights[rid].Failing?
    ensures FlightsSay(cfg, Fail(s, rid).flights)
  {
    hide PreparedFor, AnsweredFor;
  }

  lemma ReceivedSays(cfg: Config, f: Flight<Buffer>, out: Output)
    requires cfg.codec.Contract() && f.Calling? && FlightOk(cfg, f) && FlightSays(cfg, f)
    requires Receive(cfg, f.encoded, out).Ok?
    ensures FlightSays(cfg, Generated(f.encoded.(buffer := Receive(cfg, f.encoded, out).value), f.origin, out))
  {
    hide PreparedFor, ReceivedInto, Receive, Codec.Contract, Continues, KeptVersions;
    var e := f.encoded;
    var req :| PreparedFor(cfg, req, e, f.origin);
    ReceiveSays(cfg, e, out);
    var after := e.(buffer := Receive(cfg, e, out).value);
    assert after.(buffer := e.buffer) == e;
    assert AnsweredFor(cfg, req, e.buffer, after, f.origin, out);
  }

  lemma ReceiveStepSays(cfg: Config, s: State, rid: nat, outcome: Result<Output>)
    requires cfg.codec.Contract() && Inv(cfg, s) && FlightsSay(cfg, s.flights)
    ensures FlightsSay(cfg, StepReceive(cfg, s, rid, outcome).flights)
  {
    hide Inv, FlightSays, Receive, Codec.Contract, FlightOk;
    if rid in s.flights && s.flights[rid].Calling? {
      if outcome.Err? || Receive(cfg, s.flights[rid].encoded, outcome.value).Err? {
        FailSays(cfg, s, rid);
      } else {
        FlightOfRun(cfg, s, rid);
        ReceivedSays(cfg, s.flights[rid], outcome.value);
      }
    }
  }

  lemma OtherStepSays(cfg: Config, s: State, e: Event)
    requires FlightsSay(cfg, s.flights) && !e.PrepareEvent? && !e.ReceiveEvent?
    ensures FlightsSay(cfg, Step(cfg, s, e).flights)
  {
    hide PreparedFor, AnsweredFor, CommittedChain, CommitHistory, Materialize;
  }

  lemma StepSays(cfg: Config, s: State, e: Event)
    requires cfg.codec.Contract() && Inv(cfg, s) && FlightsSay(cfg, s.flights)
    ensures FlightsSay(cfg, Step(cfg, s, e).flights)
  {
    hide Inv, FlightsSay, Codec.Contract, StepCommit;
    match e
    case PrepareEvent(rid, req) => PrepareStepSays(cfg, s, rid, req);
    case ReceiveEvent(rid, outcome) => ReceiveStepSays(cfg, s, rid, outcome);
    case _ => OtherStepSays(cfg, s, e);
  }

  /** In every reachable state each request in flight sends its own messages, tools and budget: a new chain's
      context is the initial rendering of all its messages, a continued chain's is the chain's tokens, as they
      are or cut back, and the rendering of the messages the chain does not cover; and what came back is
      appended to exactly that. */
  lemma {:induction false} EveryRequestIsAsked(cfg: Config, events: seq<Event>)
    requires cfg.codec.Contract()
    ensures FlightsSay(cfg, Run(cfg, events).flights)
    decreases |events|
  {
    hide Codec.Contract, Step, Inv, FlightSays;
    if events != [] {
      EveryRequestIsAsked(cfg, events[..|events| - 1]);
      RunKeeps(cfg, events[..|events| - 1]);
      StepSays(cfg, Run(cfg, events[..|events| - 1]), events[|events| - 1]);
    }
  }

  /** And a request that is let through is the one that asked. */
  lemma PreparedForItsRequest(cfg: Config, events: seq<Event>, rid: nat, req: Request)
    requires cfg.codec.Contract() && rid !in Run(cfg, events).flights
    requires rid in Run(cfg, events + [PrepareEvent(rid, req)]).flights
    ensures var f := Run(cfg, events + [PrepareEvent(rid, req)]).flights[rid];
            f.Calling? && PreparedFor(cfg, req, f.encoded, f.origin)
  {
    hide Run, StepPrepare, PreparedFor, Inv, Codec.Contract;
    RunKeeps(cfg, events);
    RunPrepare(cfg, events, rid, req);
    PreparedStepSays(cfg, Run(cfg, events), rid, req);
  }

  lemma RunPrepare(cfg: Config, events: seq<Event>, rid: nat, req: Request)
    ensures Run(cfg, events + [PrepareEvent(rid, req)]) == StepPrepare(cfg, Run(cfg, events), rid, req)
  {
    hide StepPrepare;
    assert (events + [PrepareEvent(rid, req)])[..|events|] == events;
  }

  lemma PreparedStepSays(cfg: Config, s: State, rid: nat, req: Request)
    requires cfg.codec.Contract() && Inv(cfg, s) && rid !in s.flights
    requires rid in StepPrepare(cfg, s, rid, req).flights
    ensures var f := StepPrepare(cfg, s, rid, req).flights[rid];
            f.Calling? && PreparedFor(cfg, req, f.encoded, f.origin)
  {
    hide Prepare, OriginOf, PreparedFor, CloseExhausted, Codec.Contract;
    hide FlightsOk, AllClosedAligned, Owned, Partition, Ordered, ChainOk;
    if Prepare(cfg, s.active, s.reserved, req).value.exhausted {
      CloseKeepsFlights(s, Prepare(cfg, s.active, s.reserved, req).value, OriginOf(cfg, s, req).stripped);
    } else {
      PreparationSays(cfg, s, req);
    }
  }
}
