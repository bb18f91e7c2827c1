/** What every step of a gateway session keeps, part one: chains and requests in flight. */
module SessionInvariant {
  import opened Wrappers
  import opened Sequences
  import opened Messages
  import opened Codecs
  import opened Chains
  import opened Selection
  import opened SessionModel

  // ------------------------------------------------------------- chain contents

  /** What the end of a buffer looks like to a request that adds nothing. */
  ghost predicate EndBoundary(prefix: seq<Token>, b: Buffer) {
    b.Aligned() && (CleanBoundary(prefix, b, |b.response|) || EchoBoundary(b, |b.response|))
  }

  /** The tokens before the latest assistant end with an untrainable assistant prefix. */
  ghost predicate CleanBoundary(prefix: seq<Token>, b: Buffer, n: nat)
    requires b.Aligned() && n <= |b.response|
  {
    if n == 0 then EndsWith(b.prompt, prefix)
    else EndsWith(b.response[..n], prefix) && Sum(b.mask[n - |prefix|..n]) == 0
  }

  /** The last token before the boundary was generated: the request that set the boundary
      added no context of its own. */
  ghost predicate EchoBoundary(b: Buffer, n: nat)
    requires b.Aligned() && n <= |b.response|
  {
    n > 0 && b.mask[n - 1] == 1
  }

  /** The buffer is the generation's context followed by its output, which alone is trainable
      after `n`. A boundary is clean, always so when context was merged, or it is an echo. */
  ghost predicate Tracks(prefix: seq<Token>, b: Buffer, n: nat, context: seq<Token>, output: seq<Token>, merged: bool) {
    && b.Aligned()
    && n <= |b.response|
    && b.prompt + b.response[..n] == context
    && b.response[n..] == output
    && b.mask[n..] == Repeat(1, |output|)
    && (CleanBoundary(prefix, b, n) || (!merged && EchoBoundary(b, n)))
  }

  lemma TrackedTokens(prefix: seq<Token>, b: Buffer, n: nat, context: seq<Token>, output: seq<Token>, merged: bool)
    requires Tracks(prefix, b, n, context, output, merged)
    ensures b.Aligned() && n <= |b.response| && b.Tokens() == context + output
  {
    hide CleanBoundary, EchoBoundary;
    assert b.response == b.response[..n] + b.response[n..];
    assert b.prompt + (b.response[..n] + b.response[n..]) == b.prompt + b.response[..n] + b.response[n..];
  }

  function Versions(gens: seq<Generation>): (r: seq<Version>)
    ensures |r| == |gens|
  {
    seq(|gens|, i requires 0 <= i < |gens| => gens[i].version)
  }

  function Last<T>(s: seq<T>): T
    requires s != []
  {
    s[|s| - 1]
  }

  ghost predicate ChainOk(cfg: Config, gens: map<nat, seq<Generation>>, c: Chain<Buffer>) {
    && |c.history| >= 2
    && c.start.historyLen == |c.history| - 1
    && c.tipHash == cfg.hasher.Fold(c.history)
    && c.start.tipHash == cfg.hasher.Fold(c.history[..|c.history| - 1])
    && c.start.imageLen <= Count(c.images)
    && c.start.videoLen <= Count(c.videos)
    && c.id in gens && gens[c.id] != []
    && c.buffer.versions == Versions(gens[c.id])
    && var g := Last(gens[c.id]);
       Tracks(cfg.codec.AssistantPrefix(), c.buffer, c.start.responseLen, g.context, g.output, g.merged)
  }

  // ---------------------------------------------------------- requests in flight

  function BaseTrainable(base: Option<Chain<Buffer>>): nat {
    if base.Some? then base.value.buffer.Trainable() else 0
  }

  /** The version marks that survive preparation: a rollback drops the last one. */
  function KeptVersions(base: Option<Chain<Buffer>>, rollback: bool): seq<Version> {
    if base.None? then []
    else if rollback && base.value.buffer.versions != [] then
      base.value.buffer.versions[..|base.value.buffer.versions| - 1]
    else base.value.buffer.versions
  }

  /** The context sent to the backend extends the snapshot the request was prepared from. */
  ghost predicate Continues(cfg: Config, base: Option<Chain<Buffer>>, e: Encoded<Buffer>) {
    base.Some? ==>
      var r := BaseOf(cfg, Choice(base.value, e.rollback));
      r.Ok? && r.value.buffer.Tokens() <= e.context
  }

  ghost predicate RequestOk(cfg: Config, e: Encoded<Buffer>, o: Origin, output: seq<Token>, marks: seq<Version>) {
    && !e.exhausted && e.start.Some?
    && e.messages != [] && e.hashes == cfg.hasher.Prefixes(e.messages)
    && e.start.value.historyLen == |e.messages|
    && e.start.value.tipHash == cfg.hasher.Fold(e.messages)
    && e.start.value.imageLen == Count(e.images)
    && e.start.value.videoLen == Count(e.videos)
    && Tracks(cfg.codec.AssistantPrefix(), e.buffer, e.start.value.responseLen, e.context, output, o.merged)
    && (e.chainId.Some? <==> o.base.Some?)
    && (o.base.Some? ==> o.base.value.id == e.chainId.value)
    && (o.base.None? ==> !e.rollback)
    && (!e.rollback ==> e.dropped == 0 && o.stripped == 0)
    && e.buffer.versions == KeptVersions(o.base, e.rollback) + marks
    && e.buffer.Trainable() + e.dropped + o.stripped == BaseTrainable(o.base) + |output|
    && Continues(cfg, o.base, e)
  }

  ghost predicate FlightOk(cfg: Config, f: Flight<Buffer>) {
    match f
    case Calling(e, o) => RequestOk(cfg, e, o, [], [])
    case Generated(e, o, out) => RequestOk(cfg, e, o, out.tokens, [out.version])
    case Failing(_) => true
  }

  // ------------------------------------------------------------------- rollback

  lemma StripFromPrompt(prefix: seq<Token>, b: Buffer)
    requires b.Aligned() && b.response == [] && StripPrefix(prefix, b).Ok?
    ensures var r := StripPrefix(prefix, b).value;
            && r == b.(prompt := r.prompt)
            && r.Tokens() + prefix == b.Tokens()
  {
    CutSuffix(b.prompt, prefix);
    var r := StripPrefix(prefix, b).value;
    assert r.Tokens() == r.prompt && b.Tokens() == b.prompt;
  }

  lemma StripFromResponse(prefix: seq<Token>, b: Buffer)
    requires b.Aligned() && b.response != [] && StripPrefix(prefix, b).Ok?
    ensures |prefix| <= |b.mask|
    ensures var r := StripPrefix(prefix, b).value;
            && r.Aligned() && r.versions == b.versions && r.prompt == b.prompt
            && r.response + prefix == b.response
            && r.mask == b.mask[..|b.mask| - |prefix|]
  {
    CutSuffix(b.response, prefix);
  }

  lemma StripPrefixAccounts(prefix: seq<Token>, b: Buffer)
    requires b.Aligned() && StripPrefix(prefix, b).Ok?
    ensures var r := StripPrefix(prefix, b).value;
            && r.Aligned() && r.versions == b.versions
            && r.Tokens() + prefix == b.Tokens()
            && (b.response != [] ==> |prefix| <= |b.mask|)
            && r.Trainable() + (if b.response == [] then 0 else Sum(b.mask[|b.mask| - |prefix|..])) == b.Trainable()
  {
    if b.response == [] {
      StripFromPrompt(prefix, b);
    } else {
      StripFromResponse(prefix, b);
      hide StripPrefix;
      var r := StripPrefix(prefix, b).value;
      assert r.Tokens() + prefix == r.prompt + (r.response + prefix);
      SumSplit(b.mask, |b.mask| - |prefix|);
    }
  }

  lemma TruncateAccounts(b: Buffer, n: nat)
    requires b.Aligned() && n <= |b.response|
    ensures var r := Truncate(b, n);
            && r.Aligned() && r.Tokens() == b.prompt + b.response[..n]
            && r.Trainable() + Sum(Drop(b.mask, n)) == b.Trainable()
  {
    SumSplit(b.mask, n);
  }

  /** Rolling back keeps everything before the last generation except the assistant prefix,
      and accounts for every trainable token it removes. */
  lemma RollBackAccounts(prefix: seq<Token>, c: Chain<Buffer>)
    requires c.buffer.Aligned()
    requires RollBack(prefix, c).Ok?
    ensures var r := RollBack(prefix, c).value;
            && r.buffer.Aligned()
            && r.buffer.Tokens() + prefix == c.buffer.prompt + c.buffer.response[..c.start.responseLen]
            && r.buffer.Trainable() + r.dropped + StrippedBy(prefix, c) == c.buffer.Trainable()
            && r.buffer.versions == KeptVersions(Some(c), true)
  {
    var n := c.start.responseLen;
    var b := Truncate(c.buffer, n);
    TruncateAccounts(c.buffer, n);
    StripPrefixAccounts(prefix, b);
    if n > 0 {
      assert b.mask[n - |prefix|..] == c.buffer.mask[n - |prefix|..n];
    }
  }

  /** A well-formed chain whose boundary is clean can always be rolled back, and no
      trainable token is lost with the prefix. */
  lemma CleanBoundaryRollsBack(prefix: seq<Token>, c: Chain<Buffer>)
    requires c.buffer.Aligned() && c.start.responseLen <= |c.buffer.response|
    requires c.start.imageLen <= Count(c.images) && c.start.videoLen <= Count(c.videos)
    requires CleanBoundary(prefix, c.buffer, c.start.responseLen)
    ensures RollBack(prefix, c).Ok? && StrippedBy(prefix, c) == 0
  {
    var n := c.start.responseLen;
    var b := Truncate(c.buffer, n);
    TruncateAccounts(c.buffer, n);
    if n == 0 {
      SliceFromTestsSuffix(b.prompt, prefix);
    } else {
      SliceFromTestsSuffix(b.response, prefix);
    }
    StripPrefixAccounts(prefix, b);
    hide StripPrefix, Truncate, CleanBoundary;
  }

  lemma BaseOfAccounts(cfg: Config, choice: Choice<Buffer>)
    requires choice.chain.buffer.Aligned()
    requires BaseOf(cfg, choice).Ok?
    ensures var r := BaseOf(cfg, choice).value;
            && r.buffer.Aligned()
            && r.buffer.versions == KeptVersions(Some(choice.chain), choice.rollback)
            && r.buffer.Trainable() + r.dropped
               + (if choice.rollback then StrippedBy(cfg.codec.AssistantPrefix(), choice.chain) else 0)
               == choice.chain.buffer.Trainable()
            && (!choice.rollback ==> r.dropped == 0)
  {
    if choice.rollback {
      RollBackAccounts(cfg.codec.AssistantPrefix(), choice.chain);
    }
  }

  // ---------------------------------------------------------------- preparation

  lemma SealTracks(cfg: Config, req: Request, base: Base, chainId: Option<nat>, rollback: bool, merged: bool)
    requires req.messages != []
    requires base.buffer.Aligned()
    requires CleanBoundary(cfg.codec.AssistantPrefix(), base.buffer, |base.buffer.response|)
             || (!merged && EchoBoundary(base.buffer, |base.buffer.response|))
    ensures var r := Seal(cfg, req, cfg.hasher.Prefixes(req.messages), base, chainId, rollback, false);
            && r.Ok?
            && r.value.start.Some?
            && r.value.start.value.tipHash == cfg.hasher.Fold(req.messages)
            && Tracks(cfg.codec.AssistantPrefix(), r.value.buffer, r.value.start.value.responseLen,
                      r.value.context, [], merged)
  {
    PrefixesTip(cfg.hasher, req.messages);
    var b := base.buffer;
    assert b.response[..|b.response|] == b.response;
    assert b.mask[|b.response|..] == Repeat(1, 0);
  }

  lemma PrepareFreshOk(cfg: Config, req: Request)
    requires cfg.codec.Contract()
    requires var r := PrepareFresh(cfg, req, cfg.hasher.Prefixes(req.messages)); r.Ok? && !r.value.exhausted
    ensures RequestOk(cfg, PrepareFresh(cfg, req, cfg.hasher.Prefixes(req.messages)).value,
                      Origin(None, true, 0), [], [])
  {
    var media := cfg.codec.extractMedia(req.messages).value;
    var call := InitialCall(req.messages, req.tools, media);
    assert cfg.codec.InitialContract(call);
    var b := Buffer(cfg.codec.buildInitial(call).value, [], [], [], []);
    SealTracks(cfg, req, Base(b, media.images, media.videos, 0), None, false, true);
    assert b.mask == [];
  }

  /** Adopting a merge of `added` tokens keeps the old tokens and appends the new ones. */
  lemma AdoptAppends(b: Buffer, m: Merged, added: seq<Token>, marks: seq<nat>)
    requires b.Aligned()
    requires m.ids == b.Tokens() + added
    requires m.mask == b.mask + marks && |marks| == |added|
    requires Adopt(b, m).Ok?
    ensures var r := Adopt(b, m).value;
            && r.Aligned() && r.prompt == b.prompt && r.response == b.response + added
            && r.mask == b.mask + marks && r.versions == b.versions
            && r.Tokens() == b.Tokens() + added
            && r.Trainable() == b.Trainable() + Sum(marks)
  {
    assert m.ids == b.prompt + (b.response + added);
    assert m.ids[|b.prompt|..] == b.response + added;
    SumAppend(b.mask, marks);
  }

  lemma FreshContextIsClean(prefix: seq<Token>, b: Buffer, added: seq<Token>, r: Buffer)
    requires b.Aligned() && r.Aligned()
    requires r.prompt == b.prompt && r.response == b.response + added
    requires r.mask == b.mask + Repeat(0, |added|)
    requires EndsWith(added, prefix)
    ensures CleanBoundary(prefix, r, |r.response|)
  {
    var n := |r.response|;
    if n == 0 {
      assert prefix == [];
      assert r.prompt[|r.prompt|..] == [];
    } else {
      EndsWithAppend(b.response, added, prefix);
      assert r.response[..n] == r.response;
      SumRepeat(0, |prefix|);
      assert r.mask[n - |prefix|..n] == Repeat(0, |prefix|);
    }
  }

  /** Sealing a buffer that extends the base of a chosen chain gives a sound request. */
  lemma SealContinuationOk(cfg: Config, choice: Choice<Buffer>, base: Base, grown: Base, req: Request, merged: bool)
    requires choice.chain.buffer.Aligned()
    requires BaseOf(cfg, choice) == Ok(base)
    requires req.messages != []
    requires grown.buffer.Aligned() && base.buffer.Tokens() <= grown.buffer.Tokens()
    requires grown.buffer.versions == base.buffer.versions
    requires grown.buffer.Trainable() == base.buffer.Trainable() && grown.dropped == base.dropped
    requires CleanBoundary(cfg.codec.AssistantPrefix(), grown.buffer, |grown.buffer.response|)
             || (!merged && EchoBoundary(grown.buffer, |grown.buffer.response|))
    ensures var stripped := if choice.rollback then StrippedBy(cfg.codec.AssistantPrefix(), choice.chain) else 0;
            var r := Seal(cfg, req, cfg.hasher.Prefixes(req.messages), grown, Some(choice.chain.id), choice.rollback, false);
            r.Ok? && RequestOk(cfg, r.value, Origin(Some(choice.chain), merged, stripped), [], [])
  {
    BaseOfAccounts(cfg, choice);
    SealTracks(cfg, req, grown, Some(choice.chain.id), choice.rollback, merged);
  }

  /** What merging new context into a base leaves in the buffer. */
  lemma MergedBufferOk(cfg: Config, base: Buffer, call: ContextCall)
    requires cfg.codec.Contract()
    requires base.Aligned() && call.runtime == base.Tokens() && call.mask == base.mask
    requires cfg.codec.appendContext(call).Ok?
    requires Adopt(base, cfg.codec.appendContext(call).value).Ok?
    ensures var r := Adopt(base, cfg.codec.appendContext(call).value).value;
            && r.Aligned() && base.Tokens() <= r.Tokens()
            && r.versions == base.versions && r.Trainable() == base.Trainable()
            && CleanBoundary(cfg.codec.AssistantPrefix(), r, |r.response|)
  {
    assert cfg.codec.ContextContract(call);
    var merged := cfg.codec.appendContext(call).value;
    var added := merged.ids[|call.runtime|..];
    assert merged.ids == base.Tokens() + added;
    AdoptAppends(base, merged, added, Repeat(0, |added|));
    SumRepeat(0, |added|);
    FreshContextIsClean(cfg.codec.AssistantPrefix(), base, added, Adopt(base, merged).value);
  }

  /** What merging the uncovered messages into a base leaves in the encoded data. */
  lemma MergeSuffixOk(cfg: Config, choice: Choice<Buffer>, base: Base, req: Request)
    requires cfg.codec.Contract()
    requires choice.chain.buffer.Aligned()
    requires BaseOf(cfg, choice) == Ok(base)
    requires req.messages != []
    requires choice.rollback ==> Covered(choice) < |req.messages|
    requires EndBoundary(cfg.codec.AssistantPrefix(), choice.chain.buffer)
    requires var r := MergeSuffix(cfg, choice, base, req, cfg.hasher.Prefixes(req.messages)); r.Ok? && !r.value.exhausted
    ensures var stripped := if choice.rollback then StrippedBy(cfg.codec.AssistantPrefix(), choice.chain) else 0;
            RequestOk(cfg, MergeSuffix(cfg, choice, base, req, cfg.hasher.Prefixes(req.messages)).value,
                      Origin(Some(choice.chain), Drop(req.messages, Covered(choice)) != [], stripped), [], [])
  {
    BaseOfAccounts(cfg, choice);
    var suffix := Drop(req.messages, Covered(choice));
    if suffix == [] {
      SealContinuationOk(cfg, choice, base, base, req, false);
    } else {
      var previous := if choice.rollback then Take(req.messages, Covered(choice)) else choice.chain.history;
      var media := cfg.codec.extractMedia(suffix).value;
      var call := ContextCall(previous, previous + suffix, base.buffer.Tokens(), base.buffer.mask,
                              if req.logprobs then Some(base.buffer.logprobs) else None, req.tools);
      MergedBufferOk(cfg, base.buffer, call);
      var buffer := Adopt(base.buffer, cfg.codec.appendContext(call).value).value;
      var grown := base.(buffer := buffer, images := ExtendMedia(base.images, media.images),
                         videos := ExtendMedia(base.videos, media.videos));
      SealContinuationOk(cfg, choice, base, grown, req, true);
    }
  }

  /** After a generation the buffer ends in a generated token, or, if none was generated,
      at the boundary it started from. */
  lemma TracksEnd(prefix: seq<Token>, b: Buffer, n: nat, context: seq<Token>, output: seq<Token>, merged: bool)
    requires Tracks(prefix, b, n, context, output, merged)
    ensures EndBoundary(prefix, b)
  {
    if output != [] {
      assert b.mask[n..][|output| - 1] == 1;
    }
  }

  /** A selected chain covers no more than the request holds, and a rollback leaves a rest. */
  lemma SelectedCovers(cfg: Config, gens: map<nat, seq<Generation>>, active: seq<Chain<Buffer>>, reserved: set<nat>, req: Request)
    requires forall c | c in active :: ChainOk(cfg, gens, c)
    requires Select(QueryFor(cfg, reserved, req), active).Some?
    ensures var choice := Select(QueryFor(cfg, reserved, req), active).value;
            && choice.chain in active && choice.chain.id !in reserved
            && Covered(choice) <= |req.messages|
            && (choice.rollback ==> Covered(choice) < |req.messages|)
            && req.messages != []
  {
  }

  /** A successful preparation that does not exhaust the capacity is a sound request. */
  lemma PrepareOk(cfg: Config, s: State, req: Request)
    requires cfg.codec.Contract()
    requires forall c | c in s.active :: ChainOk(cfg, s.history.generations, c)
    requires var r := Prepare(cfg, s.active, s.reserved, req); r.Ok? && !r.value.exhausted
    ensures FlightOk(cfg, Calling(Prepare(cfg, s.active, s.reserved, req).value, OriginOf(cfg, s, req)))
  {
    match Select(QueryFor(cfg, s.reserved, req), s.active)
    case None =>
      PrepareFreshOk(cfg, req);
    case Some(choice) =>
      SelectedCovers(cfg, s.history.generations, s.active, s.reserved, req);
      var g := Last(s.history.generations[choice.chain.id]);
      TracksEnd(cfg.codec.AssistantPrefix(), choice.chain.buffer, choice.chain.start.responseLen,
                g.context, g.output, g.merged);
      hide Select, ChainOk, Tracks, EndBoundary, BaseOf, QueryFor;
      MergeSuffixOk(cfg, choice, BaseOf(cfg, choice).value, req);
  }

  lemma MergeSuffixExhausted(cfg: Config, choice: Choice<Buffer>, base: Base, req: Request, hashes: seq<Hash>)
    requires var r := MergeSuffix(cfg, choice, base, req, hashes); r.Ok? && r.value.exhausted
    ensures var e := MergeSuffix(cfg, choice, base, req, hashes).value;
            && e.buffer == base.buffer && e.dropped == base.dropped
            && e.rollback == choice.rollback && e.chainId == Some(choice.chain.id)
  {
  }

  /** An exhausted preparation hands over the cut-back buffer, still aligned and accounted for. */
  lemma PrepareExhausted(cfg: Config, s: State, req: Request)
    requires forall c | c in s.active :: ChainOk(cfg, s.history.generations, c)
    requires var r := Prepare(cfg, s.active, s.reserved, req); r.Ok? && r.value.exhausted
    ensures var e := Prepare(cfg, s.active, s.reserved, req).value;
            var o := OriginOf(cfg, s, req);
            && (e.chainId.None? <==> o.base.None?)
            && (o.base.None? ==> !e.rollback)
            && (o.base.Some? ==>
                  var c := o.base.value;
                  && c in s.active && c.id == e.chainId.value && c.id !in s.reserved
                  && BaseOf(cfg, Choice(c, e.rollback)).Ok?
                  && e.buffer == BaseOf(cfg, Choice(c, e.rollback)).value.buffer
                  && e.dropped == BaseOf(cfg, Choice(c, e.rollback)).value.dropped
                  && o.stripped == (if e.rollback then StrippedBy(cfg.codec.AssistantPrefix(), c) else 0))
  {
    var q := QueryFor(cfg, s.reserved, req);
    match Select(q, s.active)
    case None =>
    case Some(choice) =>
      SelectedCovers(cfg, s.history.generations, s.active, s.reserved, req);
      hide Select, BaseOf, QueryFor, StrippedBy;
      MergeSuffixExhausted(cfg, choice, BaseOf(cfg, choice).value, req, q.hashes);
      hide MergeSuffix;
  }

  // ------------------------------------------------------------- backend output

  /** Appending generated tokens keeps the boundary where it was. */
  lemma GeneratedTracks(prefix: seq<Token>, before: Buffer, after: Buffer, output: seq<Token>, merged: bool)
    requires Tracks(prefix, before, |before.response|, before.Tokens(), [], merged)
    requires after.Aligned() && after.prompt == before.prompt
    requires after.response == before.response + output
    requires after.mask == before.mask + Repeat(1, |output|)
    ensures Tracks(prefix, after, |before.response|, before.Tokens(), output, merged)
  {
    var n := |before.response|;
    assert after.response[..n] == before.response == before.response[..n];
    if n > 0 && CleanBoundary(prefix, before, n) {
      assert after.mask[n - |prefix|..n] == before.mask[n - |prefix|..n];
    }
  }

  lemma ReceiveOk(cfg: Config, e: Encoded<Buffer>, o: Origin, out: Output)
    requires cfg.codec.Contract()
    requires RequestOk(cfg, e, o, [], [])
    requires Receive(cfg, e, out).Ok?
    ensures RequestOk(cfg, e.(buffer := Receive(cfg, e, out).value), o, out.tokens, [out.version])
  {
    var call := AssistantCall(e.buffer.Tokens(), out.tokens, e.buffer.mask,
                              if e.logprobs then Some(e.buffer.logprobs) else None,
                              if e.logprobs then out.logprobs else None);
    assert cfg.codec.AssistantContract(call);
    var marked := e.buffer.(versions := e.buffer.versions + [out.version]);
    AdoptAppends(marked, cfg.codec.mergeAssistant(call).value, out.tokens, Repeat(1, |out.tokens|));
    SumRepeat(1, |out.tokens|);
    var n := e.start.value.responseLen;
    assert n == |e.buffer.response| by {
      assert e.buffer.response[n..] == [];
    }
    assert e.buffer.response[..n] == e.buffer.response;
    GeneratedTracks(cfg.codec.AssistantPrefix(), e.buffer, Receive(cfg, e, out).value, out.tokens, o.merged);
  }

  // --------------------------------------------------------------------- commit

  /** The chain a commit writes is well formed against the new history. */
  lemma CommittedChainOk(cfg: Config, h: History, f: Flight<Buffer>, reply: Message, id: nat, order: nat)
    requires f.Generated? && FlightOk(cfg, f)
    requires f.origin.base.Some? ==> id == f.origin.base.value.id && ChainOk(cfg, h.generations, f.origin.base.value)
    ensures ChainOk(cfg, CommitHistory(h, f, id).generations, CommittedChain(cfg, f.encoded, reply, id, order))
  {
    hide Continues, CleanBoundary, EchoBoundary, BaseTrainable, Buffer.Trainable, Buffer.Tokens, Repeat;
    var e := f.encoded;
    var c := CommittedChain(cfg, e, reply, id, order);
    PrefixesTip(cfg.hasher, e.messages);
    assert c.history[..|c.history| - 1] == e.messages;
    var gens := CommitHistory(h, f, id).generations[id];
    var kept := Surviving(h, e, id);
    assert gens[|gens| - 1] == Last(gens);
    assert Versions(gens) == Versions(kept) + [f.output.version];
    assert Versions(kept) == KeptVersions(f.origin.base, e.rollback);
  }
}
