/** The tool-calling agent loop: what it appends to the transcript and what it counts. */
module ReAct {
  import opened Sequences
  import opened Wrappers

  datatype ToolCall = ToolCall(id: Option<string>, name: string)

  datatype Outcome = Success | TimedOut | Failed | Raises

  /** A transcript entry. `Observed` answers carry what the tool reported. */
  datatype Message =
    | Other(role: string)
    | Assistant(calls: seq<ToolCall>)
    | Tool(id: Option<string>, name: string, answer: Answer)

  datatype Answer = Observed(outcome: Outcome) | Skipped

  /** What the policy returns for one query. */
  datatype Reply = Reply(calls: seq<ToolCall>, promptTokens: nat, completionTokens: nat, truncated: bool)

  /** Everything outside the loop: replies and tool outcomes by step, and whether the tools start. */
  datatype World = World(starts: bool, reply: nat -> Option<Reply>, outcome: (nat, nat) -> Outcome)

  datatype Config = Config(maxSteps: int, timeoutBudget: int, maxTotalTokens: Option<int>)

  datatype Reason = Completed | Finished | TokenLimit | TimeoutLimit | MaxSteps | UnknownError

  predicate IsFinishTool(name: string) {
    name == "submit" || name == "finish"
  }

  // -------------------------------------------------------------------------- pairing

  /** The messages right after an assistant answer its calls, one each, same ids, same order. */
  predicate Answers(calls: seq<ToolCall>, rest: seq<Message>) {
    |calls| <= |rest| && forall i | 0 <= i < |calls| :: rest[i].Tool? && rest[i].id == calls[i].id
  }

  /** Every tool call is answered by exactly one tool message, in order, and there is no other
      tool message. */
  predicate Paired(t: seq<Message>)
    decreases |t|
  {
    t == []
    || match t[0]
       case Other(_) => Paired(t[1..])
       case Tool(_, _, _) => false
       case Assistant(calls) => Answers(calls, t[1..]) && Paired(t[1 + |calls|..])
  }

  /** Everything is paired except that the last message may be an assistant with open calls. */
  predicate PairedButLast(t: seq<Message>) {
    Paired(t) || (t != [] && t[|t| - 1].Assistant? && Paired(t[..|t| - 1]))
  }

  lemma AnswersAppend(calls: seq<ToolCall>, rest: seq<Message>, more: seq<Message>)
    requires Answers(calls, rest)
    ensures Answers(calls, rest + more)
  {
  }

  lemma {:induction false} PairedAppend(a: seq<Message>, b: seq<Message>)
    requires Paired(a) && Paired(b)
    ensures Paired(a + b)
    decreases |a|
  {
    if a == [] {
      assert a + b == b;
    } else {
      assert (a + b)[1..] == a[1..] + b;
      if a[0].Assistant? {
        var n := 1 + |a[0].calls|;
        AnswersAppend(a[0].calls, a[1..], b);
        hide Answers;
        assert (a + b)[n..] == a[n..] + b;
        PairedAppend(a[n..], b);
      } else {
        PairedAppend(a[1..], b);
      }
    }
  }

  lemma TurnIsPaired(calls: seq<ToolCall>, answers: seq<Message>)
    requires |answers| == |calls| && Answers(calls, answers)
    ensures Paired([Assistant(calls)] + answers)
  {
    var turn := [Assistant(calls)] + answers;
    assert turn[1..] == answers && turn[1 + |calls|..] == [];
  }

  // --------------------------------------------------------------------------- one turn

  function Timeouts(outcomes: seq<Outcome>): nat {
    if outcomes == [] then 0
    else Timeouts(outcomes[..|outcomes| - 1]) + (if outcomes[|outcomes| - 1].TimedOut? then 1 else 0)
  }

  function Errors(outcomes: seq<Outcome>): nat {
    if outcomes == [] then 0
    else Errors(outcomes[..|outcomes| - 1]) + (if outcomes[|outcomes| - 1].Failed? then 1 else 0)
  }

  /** The answers of a turn in which the first `done` calls were executed. */
  function AnswersOf(calls: seq<ToolCall>, outcomes: seq<Outcome>, done: nat): (r: seq<Message>)
    requires done <= |calls| && done <= |outcomes|
    ensures |r| == |calls|
    ensures forall i | 0 <= i < |calls| ::
              r[i].Tool? && r[i].id == calls[i].id && r[i].name == calls[i].name
              && r[i].answer == if i < done then Observed(outcomes[i]) else Skipped
  {
    seq(|calls|, i requires 0 <= i < |calls| =>
      Tool(calls[i].id, calls[i].name, if i < done then Observed(outcomes[i]) else Skipped))
  }

  /** The outcomes of the first `n` calls of a step. */
  function OutcomesOf(w: World, step: nat, n: nat): (r: seq<Outcome>)
    ensures |r| == n
  {
    seq(n, i requires 0 <= i < n => w.outcome(step, i))
  }

  lemma CountsBound(outcomes: seq<Outcome>)
    ensures Timeouts(outcomes) + Errors(outcomes) <= |outcomes|
  {
  }

  /** A token limit ends the turn: before it starts, or by what the reply used or was cut to. */
  predicate TokenLimited(cfg: Config, w: World, step: nat, totalTokens: int) {
    || (cfg.maxTotalTokens.Some? && cfg.maxTotalTokens.value - totalTokens <= 0)
    || (w.reply(step).Some?
        && (w.reply(step).value.truncated
            || (cfg.maxTotalTokens.Some?
                && w.reply(step).value.promptTokens + w.reply(step).value.completionTokens >= cfg.maxTotalTokens.value)))
  }

  /** A turn gets as far as its first tool call. */
  predicate ReachesCalls(cfg: Config, w: World, step: nat, totalTokens: int) {
    !TokenLimited(cfg, w, step, totalTokens) && w.reply(step).Some? && w.reply(step).value.calls != []
  }

  /** None of the first `n` calls raises. */
  predicate NoneRaises(w: World, step: nat, n: nat) {
    forall i | 0 <= i < n :: !w.outcome(step, i).Raises?
  }

  /** The timeouts counted once the first `n` calls were executed. */
  function TimeoutsAfter(w: World, step: nat, timeouts: int, n: nat): int {
    timeouts + Timeouts(OutcomesOf(w, step, n))
  }

  /** The budget is used up exactly by the `n`-th call executed. */
  predicate ExhaustedBy(cfg: Config, w: World, step: nat, timeouts: int, n: nat) {
    && n >= 1 && NoneRaises(w, step, n) && TimeoutsAfter(w, step, timeouts, n) > cfg.timeoutBudget
    && forall k | 1 <= k < n :: TimeoutsAfter(w, step, timeouts, k) <= cfg.timeoutBudget
  }

  /** All the turn's calls are executed within the budget. */
  predicate AllExecuted(cfg: Config, w: World, step: nat, timeouts: int, calls: seq<ToolCall>) {
    && NoneRaises(w, step, |calls|)
    && forall k | 1 <= k <= |calls| :: TimeoutsAfter(w, step, timeouts, k) <= cfg.timeoutBudget
  }

  /** Why a turn that reaches its calls ends. */
  ghost predicate CallsEnd(cfg: Config, w: World, step: nat, timeouts: int, calls: seq<ToolCall>, r: Reason) {
    match r
    case Finished => AllExecuted(cfg, w, step, timeouts, calls) && Finishes(w, step, calls, |calls|)
    case Completed => AllExecuted(cfg, w, step, timeouts, calls) && !Finishes(w, step, calls, |calls|)
    case TimeoutLimit => exists n: nat :: n <= |calls| && ExhaustedBy(cfg, w, step, timeouts, n)
    case UnknownError => exists n: nat :: n < |calls| && w.outcome(step, n).Raises? && NoneRaises(w, step, n)
                                     && forall k | 1 <= k <= n :: TimeoutsAfter(w, step, timeouts, k) <= cfg.timeoutBudget
    case _ => false
  }

  /** Why a turn ends, from what the policy and the tools answer. */
  ghost predicate Ends(cfg: Config, w: World, step: nat, timeouts: int, totalTokens: int, r: Reason) {
    if TokenLimited(cfg, w, step, totalTokens) then r == TokenLimit
    else if w.reply(step).None? then r == UnknownError
    else if w.reply(step).value.calls == [] then r == Finished
    else CallsEnd(cfg, w, step, timeouts, w.reply(step).value.calls, r)
  }

  /** The reasons for which a turn ends exclude each other. */
  lemma EndsForOneReason(cfg: Config, w: World, step: nat, timeouts: int, totalTokens: int, a: Reason, b: Reason)
    requires Ends(cfg, w, step, timeouts, totalTokens, a) && Ends(cfg, w, step, timeouts, totalTokens, b)
    ensures a == b
  {
    hide TimeoutsAfter, Finishes;
  }

  /** The finish tools are these two. */
  lemma FinishTools(name: string)
    ensures IsFinishTool(name) <==> name in {"submit", "finish"}
  {
  }

  /** What a turn adds to the transcript: nothing when it is not started, else the policy's message and, once
      its calls were dispatched, one answer to each, those not executed any more as skipped. */
  ghost predicate Appends(cfg: Config, w: World, step: nat, timeouts: int, totalTokens: int,
                          before: seq<Message>, after: seq<Message>, r: Reason)
  {
    if (cfg.maxTotalTokens.Some? && cfg.maxTotalTokens.value - totalTokens <= 0) || w.reply(step).None? then
      after == before
    else
      var calls := w.reply(step).value.calls;
      && before + [Assistant(calls)] <= after
      && (r.TokenLimit? || calls == [] ==> after == before + [Assistant(calls)])
      && (r.Completed? || (r.Finished? && calls != []) ==>
            after == before + [Assistant(calls)] + AnswersOf(calls, OutcomesOf(w, step, |calls|), |calls|))
      && (r.TimeoutLimit? ==> exists n: nat :: n <= |calls| && ExhaustedBy(cfg, w, step, timeouts, n)
                                          && after == before + [Assistant(calls)] + AnswersOf(calls, OutcomesOf(w, step, n), n))
  }

  /** Every call of the turn is counted once, timeouts and failures as such. */
  ghost predicate AllCounted(w: World, step: nat, calls: seq<ToolCall>, was: Counts, now: Counts) {
    && now.toolCalls == was.toolCalls + |calls|
    && now.timeouts == was.timeouts + Timeouts(OutcomesOf(w, step, |calls|))
    && now.errors == was.errors + Errors(OutcomesOf(w, step, |calls|))
  }

  /** A turn that completed is followed by one that starts where it ended. */
  lemma CompletedIsFollowed(cfg: Config, w: World, step: nat, turn: Turn, was: Counts, now: Counts,
                            totalTokens: int, after: seq<Message>)
    requires Ends(cfg, w, step, turn.timeouts, turn.totalTokens, Completed)
    requires Appends(cfg, w, step, turn.timeouts, turn.totalTokens, turn.transcript, after, Completed)
    requires w.reply(step).Some? && AllCounted(w, step, w.reply(step).value.calls, was, now)
    requires was.timeouts == turn.timeouts
    requires totalTokens == w.reply(step).value.promptTokens + w.reply(step).value.completionTokens
    ensures Follows(w, step, turn, Turn(now.timeouts, totalTokens, after, Completed))
  {
    hide AnswersOf, OutcomesOf, Timeouts, Errors, CallsEnd;
  }

  lemma NoTurns(cfg: Config, w: World)
    ensures TurnsRun(cfg, w, [])
  {
  }

  /** One more turn, which starts where the last one ended. */
  lemma OneMoreTurn(cfg: Config, w: World, turns: seq<Turn>, turn: Turn)
    requires TurnsRun(cfg, w, turns)
    requires Ends(cfg, w, |turns| + 1, turn.timeouts, turn.totalTokens, turn.reason)
    requires turns == [] ==> turn.timeouts == 0 && turn.totalTokens == 0
    requires turns != [] ==> turns[|turns| - 1].reason == Completed
                             && Follows(w, |turns|, turns[|turns| - 1], turn.(reason := Completed))
    ensures TurnsRun(cfg, w, turns + [turn])
  {
    hide Ends, AnswersOf, OutcomesOf, Timeouts;
  }

  lemma ExecutedAll(cfg: Config, w: World, step: nat, calls: seq<ToolCall>, was: Counts, now: Counts)
    requires Executed(cfg, w, step, calls, was, now, |calls|)
    ensures AllCounted(w, step, calls, was, now)
  {
  }

  /** The first tool call of the episode is executed and times out. */
  predicate FirstCallTimesOut(cfg: Config, w: World) {
    w.starts && cfg.maxSteps > 0 && ReachesCalls(cfg, w, 1, 0) && w.outcome(1, 0).TimedOut?
  }

  /** What a turn starts from, and why it ended. */
  datatype Turn = Turn(timeouts: int, totalTokens: int, transcript: seq<Message>, reason: Reason)

  /** The turns of an episode: each ends as its replies and outcomes say, all but the last simply complete,
      and each starts where the one before it ended. */
  ghost predicate TurnsRun(cfg: Config, w: World, turns: seq<Turn>) {
    && (forall i | 0 <= i < |turns| ::
          Ends(cfg, w, i + 1, turns[i].timeouts, turns[i].totalTokens, turns[i].reason))
    && (forall i | 0 <= i < |turns| - 1 :: turns[i].reason == Completed && Follows(w, i + 1, turns[i], turns[i + 1]))
    && (turns != [] ==> turns[0].timeouts == 0 && turns[0].totalTokens == 0)
  }

  /** A turn that follows a completed one: all its calls were executed and answered. */
  ghost predicate Follows(w: World, step: nat, before: Turn, next: Turn) {
    w.reply(step).Some? &&
    var reply := w.reply(step).value;
    && next.timeouts == before.timeouts + Timeouts(OutcomesOf(w, step, |reply.calls|))
    && next.totalTokens == reply.promptTokens + reply.completionTokens
    && next.transcript == before.transcript + [Assistant(reply.calls)]
                          + AnswersOf(reply.calls, OutcomesOf(w, step, |reply.calls|), |reply.calls|)
  }

  class Episode {
    var transcript: seq<Message>
    var steps: nat
    var toolCalls: nat
    var timeouts: nat
    var errors: nat
    var totalTokens: int
    ghost var sent: seq<seq<Message>>
    ghost var turns: seq<Turn>

    constructor (messages: seq<Message>)
      ensures transcript == messages && sent == [] && turns == []
      ensures steps == 0 && toolCalls == 0 && timeouts == 0 && errors == 0 && totalTokens == 0
    {
      transcript, sent, turns := messages, [], [];
      steps, toolCalls, timeouts, errors, totalTokens := 0, 0, 0, 0, 0;
    }

    ghost function Count(): Counts
      reads this
    {
      Counts(toolCalls, timeouts, errors)
    }

    /** Run the turn's tool calls. All of them are answered, in order, even when the timeout budget
        ends the turn early; only an exception leaves calls open. */
    method Dispatch(cfg: Config, w: World, calls: seq<ToolCall>) returns (r: Reason, done: nat)
      requires calls != []
      modifies this`transcript, this`toolCalls, this`timeouts, this`errors
      ensures done <= |calls| && Executed(cfg, w, steps, calls, old(Count()), Count(), done)
      ensures r == WhyEnded(cfg, w, calls, done)
      ensures CallsEnd(cfg, w, steps, old(timeouts), calls, r)
      ensures r.Completed? || r.Finished? ==> done == |calls|
      ensures r.TimeoutLimit? ==> ExhaustedBy(cfg, w, steps, old(timeouts), done)
      ensures r.UnknownError? <==> done < |calls| && w.outcome(steps, done).Raises?
                                   && (done > 0 ==> timeouts <= cfg.timeoutBudget)
      ensures !r.UnknownError? ==> transcript == old(transcript) + AnswersOf(calls, OutcomesOf(w, steps, done), done)
      ensures old(transcript) <= transcript
    {
      var sawFinish := false;
      ghost var before, was := transcript, Count();
      ProgressStart(cfg, w, steps, calls, before, was);
      hide Progress, Executed, Finishes, AnswersOf, OutcomesOf, CallsEnd, ExhaustedBy;
      done := 0;
      while done < |calls|
        invariant done <= |calls| && Progress(cfg, w, steps, calls, before, was, transcript, Count(), done)
        invariant done > 0 ==> timeouts <= cfg.timeoutBudget
        invariant sawFinish <==> Finishes(w, steps, calls, done)
      {
        var call := calls[done];
        var outcome := w.outcome(steps, done);
        if outcome.Raises? {
          ProgressCounts(cfg, w, steps, calls, before, was, transcript, Count(), done);
          ExecutedEnds(cfg, w, steps, calls, was, Count(), done);
          return UnknownError, done;
        }
        ProgressMore(cfg, w, steps, calls, before, was, transcript, Count(), done);
        FinishesMore(w, steps, calls, done);
        Record(call, outcome);
        done := done + 1;
        if timeouts > cfg.timeoutBudget {
          ProgressCounts(cfg, w, steps, calls, before, was, transcript, Count(), done);
          ExecutedEnds(cfg, w, steps, calls, was, Count(), done);
          SkipRest(calls, done, OutcomesOf(w, steps, done));
          return TimeoutLimit, done;
        }
        if IsFinishTool(call.name) && outcome.Success? {
          sawFinish := true;
        }
      }
      ProgressCounts(cfg, w, steps, calls, before, was, transcript, Count(), done);
      ExecutedEnds(cfg, w, steps, calls, was, Count(), done);
      return if sawFinish then Finished else Completed, done;
    }

    /** One turn: query the policy, record its message, run its tool calls. */
    method TakeStep(cfg: Config, w: World) returns (r: Reason)
      requires Paired(transcript) && Within(cfg, Count())
      modifies this`transcript, this`toolCalls, this`timeouts, this`errors, this`totalTokens, this`sent
      ensures sent == old(sent) || sent == old(sent) + [old(transcript)]
      ensures old(transcript) <= transcript
      ensures r.Completed? || r.Finished? || r.TimeoutLimit? ==> Paired(transcript)
      ensures r.TokenLimit? ==> PairedButLast(transcript)
      ensures timeouts <= Max(cfg.timeoutBudget, 0) + 1 && timeouts + errors <= toolCalls
      ensures r.Completed? ==> Within(cfg, Count())
      ensures r.TimeoutLimit? ==> timeouts > cfg.timeoutBudget
      ensures !r.MaxSteps?
      ensures Ends(cfg, w, steps, old(timeouts), old(totalTokens), r)
      ensures Appends(cfg, w, steps, old(timeouts), old(totalTokens), old(transcript), transcript, r)
      ensures r.Completed? ==> w.reply(steps).Some?
      ensures r.Completed? ==> totalTokens == w.reply(steps).value.promptTokens + w.reply(steps).value.completionTokens
      ensures r.Completed? ==> AllCounted(w, steps, w.reply(steps).value.calls, old(Count()), Count())
      ensures cfg.timeoutBudget < 0 && old(timeouts) == 0 ==>
                && !r.Completed? && toolCalls <= old(toolCalls) + 1
                && timeouts == (if ReachesCalls(cfg, w, steps, old(totalTokens)) && w.outcome(steps, 0).TimedOut? then 1 else 0)
    {
      hide Paired, Executed, CallsEnd, ExhaustedBy, AnswersOf, OutcomesOf, AllCounted;
      ghost var before := transcript;
      if cfg.maxTotalTokens.Some? && cfg.maxTotalTokens.value - totalTokens <= 0 {
        return TokenLimit;
      }
      sent := sent + [transcript];
      var reply := w.reply(steps);
      if reply.None? {
        return UnknownError;
      }
      totalTokens := reply.value.promptTokens + reply.value.completionTokens;
      var calls := reply.value.calls;
      transcript := transcript + [Assistant(calls)];
      assert transcript[..|before|] == before;
      if cfg.maxTotalTokens.Some? && totalTokens >= cfg.maxTotalTokens.value {
        return TokenLimit;
      }
      if reply.value.truncated {
        return TokenLimit;
      }
      if calls == [] {
        TurnIsPaired([], []);
        assert [Assistant([])] + [] == [Assistant([])];
        PairedAppend(before, [Assistant([])]);
        return Finished;
      }
      ghost var was := Count();
      var done;
      r, done := Dispatch(cfg, w, calls);
      ExecutedBound(cfg, w, steps, calls, was, Count(), done);
      if done == |calls| {
        ExecutedAll(cfg, w, steps, calls, was, Count());
      }
      if cfg.timeoutBudget < 0 && was.timeouts == 0 {
        ExecutedOnNoBudget(cfg, w, steps, calls, was, Count(), done);
      }
      TurnAnswered(cfg, w, steps, calls, before, done);
    }

    /** The whole episode: at most `maxSteps` turns, stopping at the first that does not simply complete. */
    method RunEpisode(cfg: Config, w: World) returns (r: Reason)
      requires Paired(transcript)
      requires sent == [] && turns == []
      requires steps == 0 && toolCalls == 0 && timeouts == 0 && errors == 0 && totalTokens == 0
      modifies this
      ensures forall i | 0 <= i < |sent| :: Paired(sent[i]) && old(transcript) <= sent[i] <= transcript
      ensures steps <= Max(cfg.maxSteps, 0) && |sent| <= steps
      ensures timeouts <= Max(cfg.timeoutBudget, 0) + 1
      ensures timeouts + errors <= toolCalls
      ensures r.Finished? || r.TimeoutLimit? || r.MaxSteps? ==> Paired(transcript)
      ensures r.TokenLimit? ==> PairedButLast(transcript)
      ensures r.MaxSteps? ==> steps == Max(cfg.maxSteps, 0)
      ensures r.TimeoutLimit? ==> timeouts > cfg.timeoutBudget
      ensures !r.Completed?
      ensures TurnsRun(cfg, w, turns) && |turns| == steps
      ensures !w.starts ==> r == UnknownError && turns == []
      ensures w.starts && !r.MaxSteps? ==> turns != [] && turns[|turns| - 1].reason == r
      ensures r.MaxSteps? ==> w.starts && forall i | 0 <= i < |turns| :: turns[i].reason == Completed
      ensures turns != [] ==> turns[0].transcript == old(transcript)
      ensures cfg.timeoutBudget < 0 ==> toolCalls <= 1
      ensures timeouts <= cfg.timeoutBudget + 1
              <==> cfg.timeoutBudget >= 0 || (cfg.timeoutBudget == -1 && !FirstCallTimesOut(cfg, w))
    {
      hide Paired, PairedButLast, Ends, Appends, AllCounted, Follows, TurnsRun, ReachesCalls;
      NoTurns(cfg, w);
      if !w.starts {
        return UnknownError;
      }
      while steps < cfg.maxSteps
        invariant steps <= Max(cfg.maxSteps, 0) && |sent| <= steps
        invariant Paired(transcript) && Within(cfg, Count())
        invariant old(transcript) <= transcript
        invariant steps == 0 ==> toolCalls == 0 && timeouts == 0 && totalTokens == 0
        invariant cfg.timeoutBudget < 0 ==> steps == 0
        invariant |turns| == steps && TurnsRun(cfg, w, turns)
        invariant forall i | 0 <= i < |turns| :: turns[i].reason == Completed
        invariant turns == [] ==> transcript == old(transcript)
        invariant turns != [] ==>
                    turns[0].transcript == old(transcript)
                    && Follows(w, |turns|, turns[|turns| - 1], Turn(timeouts, totalTokens, transcript, Completed))
        invariant forall i | 0 <= i < |sent| :: Paired(sent[i]) && old(transcript) <= sent[i] <= transcript
        decreases cfg.maxSteps - steps
      {
        steps := steps + 1;
        ghost var was := Count();
        ghost var turn := Turn(timeouts, totalTokens, transcript, Completed);
        var stop := TakeStep(cfg, w);
        OneMoreTurn(cfg, w, turns, turn.(reason := stop));
        turns := turns + [turn.(reason := stop)];
        if stop.Completed? {
          CompletedIsFollowed(cfg, w, steps, turn, was, Count(), totalTokens, transcript);
        }
        if stop != Completed {
          return stop;
        }
      }
      return MaxSteps;
    }

    /** Count one executed call and append its answer. */
    method Record(call: ToolCall, outcome: Outcome)
      modifies this`transcript, this`toolCalls, this`timeouts, this`errors
      ensures toolCalls == old(toolCalls) + 1
      ensures timeouts == old(timeouts) + (if outcome.TimedOut? then 1 else 0)
      ensures errors == old(errors) + (if outcome.Failed? || outcome.Raises? then 1 else 0)
      ensures transcript == old(transcript) + [Tool(call.id, call.name, Observed(outcome))]
    {
      toolCalls := toolCalls + 1;
      if outcome.TimedOut? {
        timeouts := timeouts + 1;
      } else if !outcome.Success? {
        errors := errors + 1;
      }
      transcript := transcript + [Tool(call.id, call.name, Observed(outcome))];
    }

    /** Why a turn ended after `done` calls. */
    ghost function WhyEnded(cfg: Config, w: World, calls: seq<ToolCall>, done: nat): Reason
      requires done <= |calls|
      reads this
    {
      if done > 0 && timeouts > cfg.timeoutBudget then TimeoutLimit
      else if done < |calls| then UnknownError
      else if Finishes(w, steps, calls, done) then Finished
      else Completed
    }

    /** Answer the calls that are not executed any more. */
    method SkipRest(calls: seq<ToolCall>, from: nat, ghost outcomes: seq<Outcome>)
      requires from <= |calls| && |outcomes| == from
      modifies this`transcript
      ensures transcript == old(transcript) + AnswersOf(calls, outcomes, from)[from..]
    {
      for i := from to |calls|
        invariant transcript == old(transcript) + AnswersOf(calls, outcomes, from)[from..i]
      {
        transcript := transcript + [Tool(calls[i].id, calls[i].name, Skipped)];
      }
    }
  }

  datatype Counts = Counts(toolCalls: int, timeouts: int, errors: int)

  /** The first `done` calls were executed and counted, and none but the last exhausted the budget. */
  ghost predicate Executed(cfg: Config, w: World, step: nat, calls: seq<ToolCall>, was: Counts, now: Counts, done: nat) {
    && done <= |calls|
    && now.toolCalls == was.toolCalls + done
    && now.timeouts == was.timeouts + Timeouts(OutcomesOf(w, step, done))
    && now.errors == was.errors + Errors(OutcomesOf(w, step, done))
    && (forall i | 0 <= i < done :: !w.outcome(step, i).Raises?)
    && (forall i | 1 <= i < done :: was.timeouts + Timeouts(OutcomesOf(w, step, i)) <= cfg.timeoutBudget)
  }

  lemma ExecutedMore(cfg: Config, w: World, step: nat, calls: seq<ToolCall>, was: Counts, now: Counts, done: nat)
    requires done < |calls| && Executed(cfg, w, step, calls, was, now, done)
    requires !w.outcome(step, done).Raises? && (done > 0 ==> now.timeouts <= cfg.timeoutBudget)
    ensures var o := w.outcome(step, done);
            Executed(cfg, w, step, calls, was,
                     Counts(now.toolCalls + 1, now.timeouts + (if o.TimedOut? then 1 else 0),
                            now.errors + (if o.Failed? then 1 else 0)), done + 1)
  {
    AnswerOneMore(w, step, calls, done);
    hide Timeouts, Errors, OutcomesOf, AnswersOf;
  }

  /** Where a turn stands after `done` calls: counted, and answered in order. */
  ghost predicate Progress(cfg: Config, w: World, step: nat, calls: seq<ToolCall>, before: seq<Message>, was: Counts,
                           now: seq<Message>, counts: Counts, done: nat)
  {
    && done <= |calls| && Executed(cfg, w, step, calls, was, counts, done)
    && now == before + AnswersOf(calls, OutcomesOf(w, step, done), done)[..done]
  }

  lemma ProgressStart(cfg: Config, w: World, step: nat, calls: seq<ToolCall>, before: seq<Message>, was: Counts)
    ensures Progress(cfg, w, step, calls, before, was, before, was, 0) && !Finishes(w, step, calls, 0)
  {
    NothingAnswered(w, step, calls);
  }

  lemma ProgressMore(cfg: Config, w: World, step: nat, calls: seq<ToolCall>, before: seq<Message>, was: Counts,
                     now: seq<Message>, counts: Counts, done: nat)
    requires Progress(cfg, w, step, calls, before, was, now, counts, done) && done < |calls|
    requires !w.outcome(step, done).Raises? && (done > 0 ==> counts.timeouts <= cfg.timeoutBudget)
    ensures var o := w.outcome(step, done);
            Progress(cfg, w, step, calls, before, was,
                     now + [Tool(calls[done].id, calls[done].name, Observed(o))],
                     Counts(counts.toolCalls + 1, counts.timeouts + (if o.TimedOut? then 1 else 0),
                            counts.errors + (if o.Failed? then 1 else 0)), done + 1)
  {
    AnswerOneMore(w, step, calls, done);
    ExecutedMore(cfg, w, step, calls, was, counts, done);
    hide AnswersOf, OutcomesOf, Executed;
  }

  /** What is left to append completes the turn's answers. */
  lemma ProgressCounts(cfg: Config, w: World, step: nat, calls: seq<ToolCall>, before: seq<Message>, was: Counts,
                       now: seq<Message>, counts: Counts, done: nat)
    requires Progress(cfg, w, step, calls, before, was, now, counts, done)
    ensures done <= |calls| && Executed(cfg, w, step, calls, was, counts, done) && before <= now
    ensures var answers := AnswersOf(calls, OutcomesOf(w, step, done), done);
            now + answers[done..] == before + answers && (done == |calls| ==> now == before + answers)
  {
    hide AnswersOf, OutcomesOf, Executed;
    var answers := AnswersOf(calls, OutcomesOf(w, step, done), done);
    Whole(before, answers, done);
    if done == |calls| {
      assert answers[..done] == answers;
    }
  }

  /** One turn counts at most one timeout beyond the budget. */
  lemma ExecutedBound(cfg: Config, w: World, step: nat, calls: seq<ToolCall>, was: Counts, now: Counts, done: nat)
    requires Executed(cfg, w, step, calls, was, now, done)
    requires was.timeouts <= Max(cfg.timeoutBudget, 0) && was.timeouts + was.errors <= was.toolCalls
    ensures now.timeouts <= Max(cfg.timeoutBudget, 0) + 1
    ensures now.timeouts + now.errors <= now.toolCalls
  {
    CountsBound(OutcomesOf(w, step, done));
    if done > 0 {
      assert OutcomesOf(w, step, done)[..done - 1] == OutcomesOf(w, step, done - 1);
      assert OutcomesOf(w, step, 0) == [];
    }
  }

  /** Where the calls of a turn stop says why the turn ends. */
  lemma ExecutedEnds(cfg: Config, w: World, step: nat, calls: seq<ToolCall>, was: Counts, now: Counts, done: nat)
    requires Executed(cfg, w, step, calls, was, now, done) && calls != []
    ensures done > 0 && now.timeouts > cfg.timeoutBudget ==>
              ExhaustedBy(cfg, w, step, was.timeouts, done) && CallsEnd(cfg, w, step, was.timeouts, calls, TimeoutLimit)
    ensures done < |calls| && w.outcome(step, done).Raises? && (done > 0 ==> now.timeouts <= cfg.timeoutBudget) ==>
              CallsEnd(cfg, w, step, was.timeouts, calls, UnknownError)
    ensures done == |calls| && now.timeouts <= cfg.timeoutBudget ==>
              CallsEnd(cfg, w, step, was.timeouts, calls, if Finishes(w, step, calls, done) then Finished else Completed)
  {
    hide Timeouts, Errors, OutcomesOf, Finishes;
  }

  /** With a budget below 0 a turn executes one call at most. */
  lemma ExecutedOnNoBudget(cfg: Config, w: World, step: nat, calls: seq<ToolCall>, was: Counts, now: Counts, done: nat)
    requires Executed(cfg, w, step, calls, was, now, done)
    requires cfg.timeoutBudget < 0 && was.timeouts == 0
    ensures done <= 1 && now.toolCalls == was.toolCalls + done
    ensures now.timeouts == if done > 0 && w.outcome(step, 0).TimedOut? then 1 else 0
  {
    hide Timeouts, Errors, OutcomesOf;
    NothingAnswered(w, step, calls);
    if calls != [] {
      AnswerOneMore(w, step, calls, 0);
    }
  }

  /** Exactly when a first turn keeps the timeouts within one of the budget itself: with a budget from 0 on it
      always does; with -1 it does unless the one call it executes times out; below that it never does. */
  lemma TimeoutBoundIff(cfg: Config, w: World, step: nat, calls: seq<ToolCall>, now: Counts, done: nat)
    requires Executed(cfg, w, step, calls, Counts(0, 0, 0), now, done)
    ensures cfg.timeoutBudget < 0 ==> done <= 1
    ensures now.timeouts <= cfg.timeoutBudget + 1
            <==> cfg.timeoutBudget >= 0
                 || (cfg.timeoutBudget == -1 && !(done > 0 && w.outcome(step, 0).TimedOut?))
  {
    hide Executed, Timeouts, Errors, OutcomesOf;
    if cfg.timeoutBudget < 0 {
      ExecutedOnNoBudget(cfg, w, step, calls, Counts(0, 0, 0), now, done);
    } else {
      ExecutedBound(cfg, w, step, calls, Counts(0, 0, 0), now, done);
    }
  }

  /** A first turn whose first call times out: with any budget below 0 it counts one timeout and ends there. */
  method NegativeBudgetAllowsOne(cfg: Config, w: World, calls: seq<ToolCall>) returns (timeouts: int, r: Reason)
    requires cfg.timeoutBudget < 0 && calls != [] && w.outcome(0, 0).TimedOut?
    ensures timeouts == 1 > cfg.timeoutBudget + 1 && r == TimeoutLimit
  {
    hide Executed;
    var episode := new Episode([Assistant(calls)]);
    var done;
    r, done := episode.Dispatch(cfg, w, calls);
    timeouts := episode.timeouts;
    ExecutedOnNoBudget(cfg, w, 0, calls, Counts(0, 0, 0), episode.Count(), done);
  }

  lemma {:induction false} AnswersAnswer(calls: seq<ToolCall>, outcomes: seq<Outcome>, done: nat)
    requires done <= |calls| && done <= |outcomes|
    ensures Answers(calls, AnswersOf(calls, outcomes, done))
  {
  }

  /** No timeout beyond the budget so far. */
  predicate Within(cfg: Config, counts: Counts) {
    counts.timeouts <= Max(cfg.timeoutBudget, 0) && counts.timeouts + counts.errors <= counts.toolCalls
  }

  lemma TurnAnswered(cfg: Config, w: World, step: nat, calls: seq<ToolCall>, before: seq<Message>, done: nat)
    requires Paired(before) && done <= |calls|
    ensures Paired(before + [Assistant(calls)] + AnswersOf(calls, OutcomesOf(w, step, done), done))
  {
    hide Paired, Answers, AnswersOf;
    var answers := AnswersOf(calls, OutcomesOf(w, step, done), done);
    AnswersAnswer(calls, OutcomesOf(w, step, done), done);
    TurnIsPaired(calls, answers);
    PairedAppend(before, [Assistant(calls)] + answers);
    assert before + [Assistant(calls)] + answers == before + ([Assistant(calls)] + answers);
  }

  /** A finish tool among the first `done` calls succeeded. */
  predicate Finishes(w: World, step: nat, calls: seq<ToolCall>, done: nat)
    requires done <= |calls|
  {
    exists i | 0 <= i < done :: IsFinishTool(calls[i].name) && w.outcome(step, i).Success?
  }

  lemma FinishesMore(w: World, step: nat, calls: seq<ToolCall>, n: nat)
    requires n < |calls|
    ensures !Finishes(w, step, calls, 0)
    ensures Finishes(w, step, calls, n + 1)
            <==> Finishes(w, step, calls, n) || (IsFinishTool(calls[n].name) && w.outcome(step, n).Success?)
  {
  }

  lemma Whole(before: seq<Message>, answers: seq<Message>, n: nat)
    requires n <= |answers|
    ensures before + answers[..n] + answers[n..] == before + answers
  {
  }

  lemma NothingAnswered(w: World, step: nat, calls: seq<ToolCall>)
    ensures OutcomesOf(w, step, 0) == [] && Timeouts([]) == Errors([]) == 0
    ensures AnswersOf(calls, OutcomesOf(w, step, 0), 0)[..0] == []
  {
  }

  lemma AnswerOneMore(w: World, step: nat, calls: seq<ToolCall>, n: nat)
    requires n < |calls|
    ensures var before, after := OutcomesOf(w, step, n), OutcomesOf(w, step, n + 1);
            && AnswersOf(calls, after, n + 1)[..n + 1]
               == AnswersOf(calls, before, n)[..n] + [Tool(calls[n].id, calls[n].name, Observed(w.outcome(step, n)))]
            && Timeouts(after) == Timeouts(before) + (if w.outcome(step, n).TimedOut? then 1 else 0)
            && Errors(after) == Errors(before) + (if w.outcome(step, n).Failed? then 1 else 0)
  {
    assert OutcomesOf(w, step, n + 1)[..n] == OutcomesOf(w, step, n);
  }
}
