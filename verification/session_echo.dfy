/** A concrete run on which conservation and rollback fail. A request that repeats a chain's
    whole history adds no context, so the next boundary sits behind a generated token. */
module SessionEcho {
  import opened Wrappers
  import opened Sequences
  import opened Messages
  import opened Codecs
  import opened Chains
  import opened Selection
  import opened SessionModel
  import opened SessionInvariant
  import opened SessionSafety

  const PROMPT_TOKEN: Token := 7

  function BuildInitial(call: InitialCall): Result<seq<Token>> {
    Ok([1, PROMPT_TOKEN])
  }

  function MergeAssistant(call: AssistantCall): Result<Merged> {
    Ok(Merged(call.runtime + call.assistant, call.mask + Repeat(1, |call.assistant|),
              if call.logprobs.Some? && call.assistantLogprobs.Some? then
                Some(call.logprobs.value + call.assistantLogprobs.value)
              else None))
  }

  function AppendContext(call: ContextCall): Result<Merged> {
    Ok(Merged(call.runtime + [PROMPT_TOKEN], call.mask + Repeat(0, 1),
              if call.logprobs.Some? then Some(call.logprobs.value + Zeros(1)) else None))
  }

  function NoMedia(messages: seq<Message>): Result<MediaPair> {
    Ok(MediaPair(None, None))
  }

  /** A codec whose assistant turns open with a single token. */
  function TinyCodec(): (c: Codec)
    ensures c.AssistantPrefix() == [PROMPT_TOKEN]
  {
    Codec([], [PROMPT_TOKEN], NoMedia, BuildInitial, MergeAssistant, AppendContext)
  }

  lemma TinyCodecKeepsContract()
    ensures TinyCodec().Contract()
  {
    var c := TinyCodec();
    forall call ensures c.InitialContract(call) {
      assert [1, PROMPT_TOKEN][1..] == [PROMPT_TOKEN];
    }
    forall call ensures c.AssistantContract(call) && c.AssistantLogprobs(call) {
    }
    forall call ensures c.ContextContract(call) && c.ContextLogprobs(call) {
      assert (call.runtime + [PROMPT_TOKEN])[|call.runtime|..] == [PROMPT_TOKEN];
      assert [PROMPT_TOKEN][0..] == [PROMPT_TOKEN];
    }
  }

  function TinyConfig(h: Hasher): Config {
    Config(TinyCodec(), h, None, true)
  }

  function Say(role: string, content: string): Message {
    Message(role, content, None, None)
  }

  const USER := Say("user", "u")
  const FIRST := Say("assistant", "a")
  const SECOND := Say("assistant", "b")
  const REWRITTEN := Say("user", "c")

  const V := Version(None, None)

  function Ask(messages: seq<Message>): Request {
    Request(messages, None, None, false)
  }

  /** The chain after one ordinary and one echoing generation; the first generated `t`. */
  function EchoedChain(h: Hasher, t: Token): Chain<Buffer> {
    Chain(1, [USER, FIRST, SECOND], h.Fold([USER, FIRST, SECOND]), None,
          Buffer([1, PROMPT_TOKEN], [t, 9], [1, 1], [], [V, V]), None, None,
          Start(1, 2, 0, 0, h.Fold([USER, FIRST])), 2)
  }

  function FirstChain(h: Hasher, t: Token): Chain<Buffer> {
    Chain(1, [USER, FIRST], h.Fold([USER, FIRST]), None,
          Buffer([1, PROMPT_TOKEN], [t], [1], [], [V]), None, None,
          Start(0, 1, 0, 0, h.Fold([USER])), 1)
  }

  /** With a single active chain, that chain is chosen as soon as it is a candidate. */
  lemma OnlyCandidate(q: Query, c: Chain<Buffer>)
    requires Candidate(q, c)
    ensures Select(q, [c]) == Some(Choice(c, !Exact(q, c)))
  {
    assert Best(q, [c], c);
  }

  lemma FirstHashes(h: Hasher)
    ensures h.Prefixes([USER]) == [h.Fold([USER])]
    ensures h.Prefixes([USER, FIRST]) == [h.Fold([USER]), h.Fold([USER, FIRST])]
    ensures forall m :: h.Prefixes([USER, FIRST, m]) == [h.Fold([USER]), h.Fold([USER, FIRST]), h.Fold([USER, FIRST, m])]
  {
    assert [USER][..1] == [USER] && [USER, FIRST][..1] == [USER] && [USER, FIRST][..2] == [USER, FIRST];
    forall m ensures h.Prefixes([USER, FIRST, m]) == [h.Fold([USER]), h.Fold([USER, FIRST]), h.Fold([USER, FIRST, m])] {
      var s := [USER, FIRST, m];
      assert s[..1] == [USER] && s[..2] == [USER, FIRST] && s[..3] == s;
    }
  }

  lemma FoldSnoc(h: Hasher, messages: seq<Message>, m: Message)
    ensures h.Fold(messages + [m]) == h.Next(h.Fold(messages), m)
  {
    assert (messages + [m])[..|messages|] == messages;
  }

  /** The encoded data of the two opening requests. */
  function FirstEncoded(h: Hasher): Encoded<Buffer> {
    Encoded(Buffer([1, PROMPT_TOKEN], [], [], [], []), [1, PROMPT_TOKEN], None, false, [USER], None, None, None,
            false, None, [h.Fold([USER])], Some(Start(0, 1, 0, 0, h.Fold([USER]))), false, 0)
  }

  function SecondEncoded(h: Hasher, t: Token): Encoded<Buffer> {
    Encoded(Buffer([1, PROMPT_TOKEN], [t], [1], [], [V]), [1, PROMPT_TOKEN, t], None, false, [USER, FIRST], None, None, None,
            false, Some(1), [h.Fold([USER]), h.Fold([USER, FIRST])], Some(Start(1, 2, 0, 0, h.Fold([USER, FIRST]))), false, 0)
  }

  function Out(t: Token): Output {
    Output([t], None, V)
  }

  lemma FirstPrepared(h: Hasher)
    ensures Prepare(TinyConfig(h), [], {}, Ask([USER])) == Ok(FirstEncoded(h))
    ensures OriginOf(TinyConfig(h), INITIAL, Ask([USER])) == Origin(None, true, 0)
  {
    FirstHashes(h);
    var b := Buffer([1, PROMPT_TOKEN], [], [], [], []);
    assert b.Tokens() == [1, PROMPT_TOKEN];
  }

  lemma Received(h: Hasher, e: Encoded<Buffer>, t: Token)
    requires !e.logprobs && e.buffer.Aligned()
    ensures var r := Receive(TinyConfig(h), e, Out(t));
            && r.Ok?
            && r.value == Buffer(e.buffer.prompt, e.buffer.response + [t], e.buffer.mask + [1], [], e.buffer.versions + [V])
  {
    var b := e.buffer;
    assert b.Tokens() + [t] == b.prompt + (b.response + [t]);
    assert (b.Tokens() + [t])[..|b.prompt|] == b.prompt;
    assert (b.Tokens() + [t])[|b.prompt|..] == b.response + [t];
    assert Repeat(1, 1) == [1];
  }

  lemma ThreeSteps(cfg: Config, before: seq<Event>, a: Event, b: Event, c: Event)
    ensures Run(cfg, before + [a, b, c]) == Step(cfg, Step(cfg, Step(cfg, Run(cfg, before), a), b), c)
  {
    hide Step, Run;
    RunSnoc(cfg, before, a);
    RunSnoc(cfg, before + [a], b);
    RunSnoc(cfg, before + [a] + [b], c);
    assert before + [a] + [b] + [c] == before + [a, b, c];
  }

  function FirstRound(t: Token): seq<Event> {
    [PrepareEvent(0, Ask([USER])), ReceiveEvent(0, Ok(Out(t))), CommitEvent(0, Ok(FIRST))]
  }

  function SecondRound(): seq<Event> {
    [PrepareEvent(1, Ask([USER, FIRST])), ReceiveEvent(1, Ok(Out(9))), CommitEvent(1, Ok(SECOND))]
  }

  function ThirdRound(): seq<Event> {
    [PrepareEvent(2, Ask([USER, FIRST, REWRITTEN])), ReceiveEvent(2, Ok(Out(9))), CommitEvent(2, Ok(SECOND))]
  }

  /** A request that is prepared, answered and committed from a quiet state. */
  ghost predicate Round(cfg: Config, s: State, rid: nat, req: Request, e: Encoded<Buffer>, o: Origin)
  {
    && s.phase == Active && rid !in s.flights
    && Prepare(cfg, s.active, s.reserved, req) == Ok(e) && !e.exhausted && e.start.Some?
    && OriginOf(cfg, s, req) == o
    && !e.logprobs && e.buffer.Aligned()
  }

  function Answered(e: Encoded<Buffer>, t: Token): Encoded<Buffer> {
    e.(buffer := Buffer(e.buffer.prompt, e.buffer.response + [t], e.buffer.mask + [1], [], e.buffer.versions + [V]))
  }

  /** What such a request leaves behind. */
  lemma RoundResult(h: Hasher, s: State, rid: nat, req: Request, t: Token, e: Encoded<Buffer>, o: Origin)
    requires Round(TinyConfig(h), s, rid, req, e, o)
    ensures var cfg := TinyConfig(h);
            var reserved := s.reserved + (if e.chainId.Some? then {e.chainId.value} else {});
            var s2 := s.(reserved := reserved, flights := s.flights[rid := Generated(Answered(e, t), o, Out(t))]);
            StepReceive(cfg, StepPrepare(cfg, s, rid, req), rid, Ok(Out(t))) == s2
  {
    hide Prepare, OriginOf;
    var cfg := TinyConfig(h);
    Received(h, e, t);
    hide Receive;
    var s1 := StepPrepare(cfg, s, rid, req);
    assert s1.flights == s.flights[rid := Calling(e, o)];
    assert s1.flights[rid := Generated(Answered(e, t), o, Out(t))] == s.flights[rid := Generated(Answered(e, t), o, Out(t))];
  }

  function FirstState(h: Hasher, t: Token): State {
    State([FirstChain(h, t)], [], {}, 2, 1, 0, 0, Active, map[],
          History(1, 0, {}, 0, map[1 := [Generation([1, PROMPT_TOKEN], [t], V, true)]]))
  }

  function SecondState(h: Hasher, t: Token): State {
    State([EchoedChain(h, t)], [], {}, 2, 2, 0, 0, Active, map[],
          History(2, 0, {}, 0, map[1 := [Generation([1, PROMPT_TOKEN], [t], V, true),
                                         Generation([1, PROMPT_TOKEN, t], [9], V, false)]]))
  }

  lemma FirstCommit(h: Hasher, t: Token)
    ensures var f := Generated(Answered(FirstEncoded(h), t), Origin(None, true, 0), Out(t));
            StepCommit(TinyConfig(h), INITIAL.(flights := map[0 := f]), 0, Ok(FIRST)) == FirstState(h, t)
  {
    var f := Generated(Answered(FirstEncoded(h), t), Origin(None, true, 0), Out(t));
    FoldSnoc(h, [USER], FIRST);
    assert [USER] + [FIRST] == [USER, FIRST];
    assert [] + [t] == [t] && [] + [1] == [1] && [] + [V] == [V];
    assert Without(map[0 := f], 0) == map[];
    hide Hasher.Fold, Hasher.Next;
    assert CommittedChain(TinyConfig(h), f.encoded, FIRST, 1, 1) == FirstChain(h, t);
    assert [] + [FirstChain(h, t)] == [FirstChain(h, t)];
    var g := Generation([1, PROMPT_TOKEN], [t], V, true);
    assert [] + [g] == [g];
  }

  lemma AfterFirstRound(h: Hasher, t: Token)
    ensures Run(TinyConfig(h), FirstRound(t)) == FirstState(h, t)
  {
    var cfg := TinyConfig(h);
    var r := FirstRound(t);
    ThreeSteps(cfg, [], r[0], r[1], r[2]);
    assert [] + [r[0], r[1], r[2]] == r;
    FirstPrepared(h);
    hide Prepare, OriginOf, StepPrepare, StepReceive, StepCommit;
    RoundResult(h, INITIAL, 0, Ask([USER]), t, FirstEncoded(h), Origin(None, true, 0));
    var nobody: set<nat> := {};
    assert nobody + {} == nobody;
    FirstCommit(h, t);
  }

  /** The echo: the request equals the chain's whole history, so nothing is merged. */
  lemma SecondPrepared(h: Hasher, t: Token)
    ensures Prepare(TinyConfig(h), [FirstChain(h, t)], {}, Ask([USER, FIRST])) == Ok(SecondEncoded(h, t))
    ensures OriginOf(TinyConfig(h), FirstState(h, t), Ask([USER, FIRST])) == Origin(Some(FirstChain(h, t)), false, 0)
  {
    var c := FirstChain(h, t);
    var q := QueryFor(TinyConfig(h), {}, Ask([USER, FIRST]));
    FirstHashes(h);
    hide Hasher.Fold;
    OnlyCandidate(q, c);
    hide Select;
    assert Exact(q, c);
    assert [1, PROMPT_TOKEN] + [t] == [1, PROMPT_TOKEN, t];
  }

  lemma SecondCommit(h: Hasher, t: Token)
    ensures var f := Generated(Answered(SecondEncoded(h, t), 9), Origin(Some(FirstChain(h, t)), false, 0), Out(9));
            StepCommit(TinyConfig(h), FirstState(h, t).(reserved := {1}, flights := map[1 := f]), 1, Ok(SECOND))
            == SecondState(h, t)
  {
    var f := Generated(Answered(SecondEncoded(h, t), 9), Origin(Some(FirstChain(h, t)), false, 0), Out(9));
    FoldSnoc(h, [USER, FIRST], SECOND);
    assert [USER, FIRST] + [SECOND] == [USER, FIRST, SECOND];
    assert [t] + [9] == [t, 9] && [1] + [1] == [1, 1] && [V] + [V] == [V, V];
    assert Without(map[1 := f], 1) == map[];
    hide Hasher.Fold, Hasher.Next;
    assert CommittedChain(TinyConfig(h), f.encoded, SECOND, 1, 2) == EchoedChain(h, t);
    assert [FirstChain(h, t)][0 := EchoedChain(h, t)] == [EchoedChain(h, t)];
    var g1, g2 := Generation([1, PROMPT_TOKEN], [t], V, true), Generation([1, PROMPT_TOKEN, t], [9], V, false);
    assert [g1] + [g2] == [g1, g2];
    assert {1} - {1} == {};
  }

  lemma AfterSecondRound(h: Hasher, t: Token)
    ensures Run(TinyConfig(h), FirstRound(t) + SecondRound()) == SecondState(h, t)
  {
    var cfg := TinyConfig(h);
    var r := SecondRound();
    ThreeSteps(cfg, FirstRound(t), r[0], r[1], r[2]);
    assert [r[0], r[1], r[2]] == r;
    AfterFirstRound(h, t);
    SecondPrepared(h, t);
    hide Prepare, OriginOf, StepPrepare, StepReceive, StepCommit, Run;
    RoundResult(h, FirstState(h, t), 1, Ask([USER, FIRST]), 9, SecondEncoded(h, t),
                Origin(Some(FirstChain(h, t)), false, 0));
    SecondCommit(h, t);
  }

  /** Rewriting the echoed assistant selects the chain for rollback. */
  lemma RewriteSelects(h: Hasher, t: Token)
    requires h.Injective()
    ensures Select(QueryFor(TinyConfig(h), {}, Ask([USER, FIRST, REWRITTEN])), [EchoedChain(h, t)])
            == Some(Choice(EchoedChain(h, t), true))
  {
    var c := EchoedChain(h, t);
    var q := QueryFor(TinyConfig(h), {}, Ask([USER, FIRST, REWRITTEN]));
    FirstHashes(h);
    EqualHashesMeanSameConversation(h, [USER, FIRST, SECOND], [USER, FIRST, REWRITTEN]);
    assert Canonical([USER, FIRST, SECOND][2]) != Canonical([USER, FIRST, REWRITTEN][2]);
    hide Hasher.Fold, Hasher.Injective;
    assert !Exact(q, c);
    OnlyCandidate(q, c);
  }

  /** Unless the echoed text happens to end like an assistant prefix, rewriting the echoed
      assistant is refused: the code raises instead of rolling back. */
  lemma EchoBlocksRollback(h: Hasher, t: Token)
    requires h.Injective() && t != PROMPT_TOKEN
    ensures var s := Run(TinyConfig(h), FirstRound(t) + SecondRound());
            && s.phase == Active && s.active == [EchoedChain(h, t)]
            && Prepare(TinyConfig(h), s.active, s.reserved, Ask([USER, FIRST, REWRITTEN])) == Err(ValueRejected)
  {
    AfterSecondRound(h, t);
    RewriteSelects(h, t);
    hide Run, Select;
    var c := EchoedChain(h, t);
    var b := Truncate(c.buffer, 1);
    assert b.response == [t];
    assert StripPrefix([PROMPT_TOKEN], b).Err?;
    hide Truncate;
  }

  function RolledBack(): Base {
    Base(Buffer([1, PROMPT_TOKEN], [], [], [], [V]), None, None, 1)
  }

  lemma EchoStripped()
    ensures StripPrefix([PROMPT_TOKEN], Buffer([1, PROMPT_TOKEN], [PROMPT_TOKEN], [1], [], [V])) == Ok(RolledBack().buffer)
  {
    assert SliceFrom([PROMPT_TOKEN], 0) == [PROMPT_TOKEN];
  }

  lemma EchoTruncated(h: Hasher)
    ensures Truncate(EchoedChain(h, PROMPT_TOKEN).buffer, 1)
            == Buffer([1, PROMPT_TOKEN], [PROMPT_TOKEN], [1], [], [V])
    ensures Sum(Drop(EchoedChain(h, PROMPT_TOKEN).buffer.mask, 1)) == 1
    ensures Sum(EchoedChain(h, PROMPT_TOKEN).buffer.mask[0..1]) == 1
  {
    var mask := EchoedChain(h, PROMPT_TOKEN).buffer.mask;
    assert mask[1..] == [1] && mask[0..1] == [1];
    assert Sum([1]) == 1 + Sum([]);
  }

  lemma EchoRollsBack(h: Hasher)
    ensures RollBack([PROMPT_TOKEN], EchoedChain(h, PROMPT_TOKEN)) == Ok(RolledBack())
    ensures StrippedBy([PROMPT_TOKEN], EchoedChain(h, PROMPT_TOKEN)) == 1
  {
    EchoTruncated(h);
    EchoStripped();
    hide StripPrefix, Truncate, Sum, Hasher.Fold;
  }

  function ThirdEncoded(h: Hasher): Encoded<Buffer> {
    Encoded(Buffer([1, PROMPT_TOKEN], [PROMPT_TOKEN], [0], [], [V]), [1, PROMPT_TOKEN, PROMPT_TOKEN], None, false,
            [USER, FIRST, REWRITTEN], None, None, None, false, Some(1), h.Prefixes([USER, FIRST, REWRITTEN]),
            Some(Start(1, 3, 0, 0, h.Fold([USER, FIRST, REWRITTEN]))), true, 1)
  }

  lemma ThirdMerged(h: Hasher)
    ensures MergeSuffix(TinyConfig(h), Choice(EchoedChain(h, PROMPT_TOKEN), true), RolledBack(),
                        Ask([USER, FIRST, REWRITTEN]), h.Prefixes([USER, FIRST, REWRITTEN])) == Ok(ThirdEncoded(h))
  {
    FirstHashes(h);
    hide Hasher.Fold;
    assert Drop([USER, FIRST, REWRITTEN], 2) == [REWRITTEN];
    assert RolledBack().buffer.Tokens() == [1, PROMPT_TOKEN];
    var ids := [1, PROMPT_TOKEN] + [PROMPT_TOKEN];
    assert ids[..2] == [1, PROMPT_TOKEN] && ids[2..] == [PROMPT_TOKEN];
    assert [] + Repeat(0, 1) == [0];
    assert ids == [1, PROMPT_TOKEN, PROMPT_TOKEN];
  }

  lemma ThirdPrepared(h: Hasher)
    requires h.Injective()
    ensures Prepare(TinyConfig(h), [EchoedChain(h, PROMPT_TOKEN)], {}, Ask([USER, FIRST, REWRITTEN])) == Ok(ThirdEncoded(h))
    ensures OriginOf(TinyConfig(h), SecondState(h, PROMPT_TOKEN), Ask([USER, FIRST, REWRITTEN]))
            == Origin(Some(EchoedChain(h, PROMPT_TOKEN)), true, 1)
  {
    RewriteSelects(h, PROMPT_TOKEN);
    EchoRollsBack(h);
    ThirdMerged(h);
    hide Select, RollBack, MergeSuffix, StrippedBy, Hasher.Fold, Hasher.Injective;
    assert Drop([USER, FIRST, REWRITTEN], 2) == [REWRITTEN];
  }

  /** Conservation fails on an echo: three tokens were generated and committed, one is
      still in the chain, one is reported as dropped, and one is gone. */
  lemma EchoLosesTokens(h: Hasher)
    requires h.Injective()
    ensures TinyCodec().Contract()
    ensures var s := Run(TinyConfig(h), FirstRound(PROMPT_TOKEN) + SecondRound() + ThirdRound());
            && s.phase == Active
            && s.history.completed == 3
            && TotalTrainable(s.active) + TotalClosed(s.closed) + s.rollbackDropped == 2
  {
    TinyCodecKeepsContract();
    var cfg := TinyConfig(h);
    var r := ThirdRound();
    ThreeSteps(cfg, FirstRound(PROMPT_TOKEN) + SecondRound(), r[0], r[1], r[2]);
    assert [r[0], r[1], r[2]] == r;
    AfterSecondRound(h, PROMPT_TOKEN);
    ThirdPrepared(h);
    hide Prepare, OriginOf, StepPrepare, StepReceive, StepCommit, Run, Hasher.Injective, Codec.Contract;
    var o := Origin(Some(EchoedChain(h, PROMPT_TOKEN)), true, 1);
    var s := SecondState(h, PROMPT_TOKEN);
    RoundResult(h, s, 2, Ask([USER, FIRST, REWRITTEN]), 9, ThirdEncoded(h), o);
    ThirdCommit(h);
  }

  lemma ThirdCommit(h: Hasher)
    ensures var f := Generated(Answered(ThirdEncoded(h), 9), Origin(Some(EchoedChain(h, PROMPT_TOKEN)), true, 1), Out(9));
            var s := StepCommit(TinyConfig(h), SecondState(h, PROMPT_TOKEN).(reserved := {1}, flights := map[2 := f]), 2, Ok(SECOND));
            && s.phase == Active && s.history.completed == 3 && s.closed == [] && s.rollbackDropped == 1
            && TotalTrainable(s.active) == 1
  {
    var f := Generated(Answered(ThirdEncoded(h), 9), Origin(Some(EchoedChain(h, PROMPT_TOKEN)), true, 1), Out(9));
    var c := CommittedChain(TinyConfig(h), f.encoded, SECOND, 1, 3);
    assert [EchoedChain(h, PROMPT_TOKEN)][0 := c] == [c];
    assert c.buffer.mask == [0, 1];
    assert Sum([0, 1]) == 0 + Sum([1]) && Sum([1]) == 1 + Sum([]);
    assert [0, 1][1..] == [1];
    assert TotalTrainable([c]) == c.buffer.Trainable() + TotalTrainable([]);
  }
}
