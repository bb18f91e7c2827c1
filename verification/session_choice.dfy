/** Which chain a request continues, told by the messages alone: exactly, in every reachable state. */
module SessionChoice {
  import opened Wrappers
  import opened Sequences
  import opened Messages
  import opened Codecs
  import opened Chains
  import opened Selection
  import opened SessionModel
  import opened SessionInvariant
  import opened SessionSafety
  import opened SessionTheorems

  /** The request repeats the chain's whole conversation. */
  ghost predicate RepeatsAll(c: Chain<Buffer>, req: Request) {
    |c.history| <= |req.messages| && SameConversation(c.history, req.messages[..|c.history|])
  }

  /** The request repeats everything before the chain's last assistant, and has a message in its place. */
  ghost predicate RepeatsStart(c: Chain<Buffer>, req: Request) {
    1 <= |c.history| <= |req.messages|
    && SameConversation(c.history[..|c.history| - 1], req.messages[..|c.history| - 1])
  }

  /** A free chain with the request's tools that the request continues as it is or, where that is enabled,
      from before its last assistant. */
  ghost predicate Continuable(cfg: Config, s: State, req: Request, c: Chain<Buffer>) {
    && c in s.active && c.id !in s.reserved && c.tools == req.tools
    && RepeatsStart(c, req) && (RepeatsAll(c, req) || cfg.rollbackEnabled)
  }

  /** How many of the request's messages the chain already holds. */
  ghost function Shared(c: Chain<Buffer>, req: Request): int {
    if RepeatsAll(c, req) then |c.history| else |c.history| - 1
  }

  /** Another chain is no reason against `c`: it shares less, or as much without being repeated whole, or it
      was committed earlier. A chain to be cut back gives way to every chain that shares as much. */
  ghost predicate Yields(d: Chain<Buffer>, c: Chain<Buffer>, req: Request) {
    || Shared(d, req) < Shared(c, req)
    || (Shared(d, req) == Shared(c, req) && RepeatsAll(c, req) && (RepeatsAll(d, req) ==> d.updatedSeq < c.updatedSeq))
  }

  ghost predicate Chosen(cfg: Config, s: State, req: Request, c: Chain<Buffer>) {
    Continuable(cfg, s, req, c) && forall d | d != c && Continuable(cfg, s, req, d) :: Yields(d, c, req)
  }

  lemma CandidateIff(cfg: Config, s: State, req: Request, c: Chain<Buffer>)
    requires cfg.hasher.Injective() && ChainOk(cfg, s.history.generations, c) && c in s.active
    ensures Candidate(QueryFor(cfg, s.reserved, req), c) <==> Continuable(cfg, s, req, c)
    ensures Continuable(cfg, s, req, c) ==>
              && (Exact(QueryFor(cfg, s.reserved, req), c) <==> RepeatsAll(c, req))
              && Depth(QueryFor(cfg, s.reserved, req), c) == Shared(c, req)
  {
    var q, n := QueryFor(cfg, s.reserved, req), |c.history| - 1;
    assert c.tipHash == cfg.hasher.Fold(c.history) && c.start.tipHash == cfg.hasher.Fold(c.history[..n]);
    if n < |req.messages| {
      assert q.hashes[n - 1] == cfg.hasher.Fold(req.messages[..n]);
      assert q.hashes[n] == cfg.hasher.Fold(req.messages[..n + 1]);
      hide ChainOk, Hasher.Injective, Hasher.Fold, QueryFor, SameConversation;
      EqualHashesMeanSameConversation(cfg.hasher, c.history[..n], req.messages[..n]);
      EqualHashesMeanSameConversation(cfg.hasher, c.history, req.messages[..n + 1]);
    }
  }

  lemma OneCommitEach(s: State, c: Chain<Buffer>, d: Chain<Buffer>)
    requires Ordered(s.active, s.closed, s.orderSeq) && c in s.active && d in s.active && c != d
    ensures c.updatedSeq != d.updatedSeq
  {
  }

  lemma IdsApart(s: State, c: Chain<Buffer>, d: Chain<Buffer>)
    requires DistinctIds(s.active) && c in s.active && d in s.active
    ensures c.id == d.id <==> c == d
  {
    if c.id == d.id {
      SameIdSameChain(s.active, c, d);
    }
  }

  lemma BestIff(cfg: Config, s: State, req: Request, c: Chain<Buffer>)
    requires cfg.hasher.Injective() && Inv(cfg, s) && DistinctIds(s.active)
    ensures Best(QueryFor(cfg, s.reserved, req), s.active, c) <==> Chosen(cfg, s, req, c)
  {
    hide FlightsOk, AllClosedAligned, Owned, Partition, Ordered, Balanced, Terminal, ChainOk, Hasher.Injective;
    hide Candidate, Exact, Depth, Continuable, RepeatsAll, RepeatsStart, Shared, QueryFor;
    var q := QueryFor(cfg, s.reserved, req);
    forall d | d in s.active
      ensures Candidate(q, d) <==> Continuable(cfg, s, req, d)
      ensures Candidate(q, d) ==> (Exact(q, d) <==> RepeatsAll(d, req)) && Depth(q, d) == Shared(d, req)
    {
      CandidateIff(cfg, s, req, d);
    }
    ContinuableIsActive(cfg, s, req);
    if c in s.active {
      forall d | d in s.active && d != c ensures c.updatedSeq != d.updatedSeq && c.id != d.id {
        OneCommitEach(s, c, d);
        IdsApart(s, c, d);
      }
    }
  }

  lemma ContinuableIsActive(cfg: Config, s: State, req: Request)
    ensures forall d | Continuable(cfg, s, req, d) :: d in s.active
  {
  }

  /** In every reachable state, with a collision-free hash, exactly this chain is continued: the one that shares
      most of the request, a whole one before one that has to be cut back, the latest committed among whole
      ones; a chain is cut back only if no other shares as much. */
  lemma ChosenIff(cfg: Config, events: seq<Event>, req: Request, c: Chain<Buffer>, rollback: bool)
    requires cfg.codec.Contract() && cfg.hasher.Injective()
    ensures var s := Run(cfg, events);
            Select(QueryFor(cfg, s.reserved, req), s.active) == Some(Choice(c, rollback))
            <==> Chosen(cfg, s, req, c) && (rollback <==> !RepeatsAll(c, req))
  {
    hide Run, Inv, Chosen, QueryFor, RepeatsAll, Best, Hasher.Injective, Codec.Contract;
    RunKeeps(cfg, events);
    SelectedIff(cfg, Run(cfg, events), req, c, rollback);
  }

  lemma SelectedIff(cfg: Config, s: State, req: Request, c: Chain<Buffer>, rollback: bool)
    requires cfg.hasher.Injective() && Inv(cfg, s)
    ensures Select(QueryFor(cfg, s.reserved, req), s.active) == Some(Choice(c, rollback))
            <==> Chosen(cfg, s, req, c) && (rollback <==> !RepeatsAll(c, req))
  {
    hide FlightsOk, AllClosedAligned, Owned, Partition, Ordered, Balanced, Terminal, ChainOk, Hasher.Injective;
    hide Chosen, QueryFor, RepeatsAll, Best, Exact;
    var q := QueryFor(cfg, s.reserved, req);
    DistinctActive(s);
    BestIff(cfg, s, req, c);
    if Best(q, s.active, c) {
      BestIsActive(q, s.active, c);
      assert Select(q, s.active).Some?;
      BestIsUnique(q, s.active, Select(q, s.active).value.chain, c);
      CandidateIff(cfg, s, req, c);
    }
  }

  lemma BestIsActive(q: Query, chains: seq<Chain<Buffer>>, c: Chain<Buffer>)
    requires Best(q, chains, c)
    ensures c in chains && Candidate(q, c)
  {
  }
}
