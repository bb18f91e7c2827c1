/** What every step of a gateway session keeps, part two: reservations, the fate of every
    chain id, the commit order and the token balance. Each part of the invariant names
    only the fields it is about, so a step has to argue only about what it changes. */
module SessionSafety {
  import opened Wrappers
  import opened Sequences
  import opened Messages
  import opened Codecs
  import opened Chains
  import opened Selection
  import opened SessionModel
  import opened SessionInvariant

  type Flights = map<nat, Flight<Buffer>>
  type ChainList = seq<Chain<Buffer>>

  // ------------------------------------------------------------ exclusive ownership

  /** The chain a request in flight holds. */
  function Held<B>(f: Flight<B>): Option<nat> {
    if f.Failing? then Some(f.chainId) else f.encoded.chainId
  }

  /** The snapshot a request in flight will extend. */
  function BaseChain(f: Flight<Buffer>): Option<Chain<Buffer>> {
    if f.Failing? then None else f.origin.base
  }

  /** No two requests in flight hold the same chain. */
  ghost predicate Exclusive(flights: Flights) {
    forall r, q | r in flights && q in flights && r != q && Held(flights[r]).Some? ::
      Held(flights[r]) != Held(flights[q])
  }

  ghost predicate HeldBySome(flights: Flights, id: nat) {
    exists r :: r in flights && Held(flights[r]) == Some(id)
  }

  /** While the session is active, exactly the chains in flight are reserved, and a chain
      being continued is still the snapshot its request was prepared from. */
  ghost predicate Owned(phase: Phase, active: ChainList, reserved: set<nat>, flights: Flights) {
    && Exclusive(flights)
    && (phase == Active ==>
          && (forall r | r in flights && Held(flights[r]).Some? :: Held(flights[r]).value in reserved)
          && (forall id | id in reserved :: HeldBySome(flights, id))
          && (forall r | r in flights && BaseChain(flights[r]).Some? :: BaseChain(flights[r]).value in active))
    && (phase != Active ==> reserved == {})
  }

  // --------------------------------------------------------------- fate of chain ids

  ghost predicate InActive(active: ChainList, id: nat) {
    exists c :: c in active && c.id == id
  }

  ghost predicate InClosed(closed: seq<Closed>, id: nat) {
    exists t :: t in closed && t.trajectory.chainId == id
  }

  ghost predicate DistinctClosed(closed: seq<Closed>) {
    forall i, j | 0 <= i < j < |closed| :: closed[i].trajectory.chainId != closed[j].trajectory.chainId
  }

  /** Every chain id handed out is in exactly one place. */
  ghost predicate Partition(phase: Phase, active: ChainList, closed: seq<Closed>, dropped: set<nat>, nextId: nat) {
    && 1 <= nextId
    && DistinctIds(active) && DistinctClosed(closed)
    && (forall id: nat | InActive(active, id) :: !InClosed(closed, id) && id !in dropped)
    && (forall id: nat | InClosed(closed, id) :: id !in dropped)
    && (forall id: nat | InActive(active, id) || InClosed(closed, id) || id in dropped :: 1 <= id < nextId)
    && (phase != Aborted ==>
          forall id | 1 <= id < nextId :: InActive(active, id) || InClosed(closed, id) || id in dropped)
  }

  // ------------------------------------------------------------------- commit order

  /** All commits and closes carry different sequence numbers. */
  ghost predicate Ordered(active: ChainList, closed: seq<Closed>, orderSeq: nat) {
    && (forall i | 0 <= i < |active| :: 1 <= active[i].updatedSeq <= orderSeq)
    && (forall i | 0 <= i < |closed| :: 1 <= closed[i].orderSeq <= orderSeq)
    && (forall i, j | 0 <= i < j < |active| :: active[i].updatedSeq != active[j].updatedSeq)
    && (forall i, j | 0 <= i < j < |closed| :: closed[i].orderSeq != closed[j].orderSeq)
    && (forall i, j | 0 <= i < |active| && 0 <= j < |closed| :: active[i].updatedSeq != closed[j].orderSeq)
  }

  // ------------------------------------------------------------------ token balance

  ghost predicate Balanced(s: State) {
    s.phase != Aborted ==>
      TotalTrainable(s.active) + TotalClosed(s.closed) + s.rollbackDropped + s.history.stripped == s.history.completed
  }

  ghost predicate Terminal(s: State) {
    && (s.phase != Active ==> s.active == [])
    && (s.phase == Aborted ==> s.closed == [])
    && s.history.finalizes == (if s.phase == Finalized then 1 else 0)
  }

  ghost predicate ClosedAligned(t: Closed) {
    && |t.trajectory.mask| == |t.trajectory.response|
    && (t.trajectory.logprobs.Some? ==> |t.trajectory.logprobs.value| == |t.trajectory.response|)
  }

  ghost predicate ChainsOk(cfg: Config, gens: map<nat, seq<Generation>>, active: ChainList) {
    forall c | c in active :: ChainOk(cfg, gens, c)
  }

  ghost predicate FlightsOk(cfg: Config, flights: Flights) {
    forall r | r in flights :: FlightOk(cfg, flights[r])
  }

  ghost predicate AllClosedAligned(closed: seq<Closed>) {
    forall t | t in closed :: ClosedAligned(t)
  }

  ghost predicate Inv(cfg: Config, s: State) {
    && ChainsOk(cfg, s.history.generations, s.active)
    && FlightsOk(cfg, s.flights)
    && AllClosedAligned(s.closed)
    && Owned(s.phase, s.active, s.reserved, s.flights)
    && Partition(s.phase, s.active, s.closed, s.history.dropped, s.nextId)
    && Ordered(s.active, s.closed, s.orderSeq)
    && Balanced(s)
    && Terminal(s)
  }

  // ------------------------------------------------- requests: fail, release, receive

  /** Replacing a request's record by one that holds the same chain and continues
      the same snapshot, or none. */
  lemma OwnedReplace(phase: Phase, active: ChainList, reserved: set<nat>, flights: Flights, rid: nat, f: Flight<Buffer>)
    requires Owned(phase, active, reserved, flights)
    requires rid in flights && Held(f) == Held(flights[rid])
    requires BaseChain(f).None? || BaseChain(f) == BaseChain(flights[rid])
    ensures Owned(phase, active, reserved, flights[rid := f])
  {
    var flights' := flights[rid := f];
    forall id | phase == Active && id in reserved ensures HeldBySome(flights', id) {
      assert HeldBySome(flights, id);
      var r :| r in flights && Held(flights[r]) == Some(id);
      assert r in flights' && Held(flights'[r]) == Some(id);
    }
  }

  /** A request leaves and gives its chain back. */
  lemma OwnedLeave(phase: Phase, active: ChainList, reserved: set<nat>, flights: Flights, rid: nat)
    requires Owned(phase, active, reserved, flights)
    requires rid in flights
    ensures Owned(phase, active,
                  reserved - (if Held(flights[rid]).Some? then {Held(flights[rid]).value} else {}),
                  Without(flights, rid))
  {
    var flights' := Without(flights, rid);
    var freed := if Held(flights[rid]).Some? then {Held(flights[rid]).value} else {};
    forall id | phase == Active && id in reserved - freed ensures HeldBySome(flights', id) {
      assert HeldBySome(flights, id);
      var r :| r in flights && Held(flights[r]) == Some(id);
      assert r in flights' && Held(flights'[r]) == Some(id);
    }
  }

  lemma FlightsOkWithout(cfg: Config, flights: Flights, rid: nat)
    requires FlightsOk(cfg, flights)
    ensures FlightsOk(cfg, Without(flights, rid))
  {
  }

  lemma FlightsOkReplace(cfg: Config, flights: Flights, rid: nat, f: Flight<Buffer>)
    requires FlightsOk(cfg, flights) && FlightOk(cfg, f)
    ensures FlightsOk(cfg, flights[rid := f])
  {
  }

  lemma FailKeeps(cfg: Config, s: State, rid: nat)
    requires Inv(cfg, s)
    requires rid in s.flights && !s.flights[rid].Failing?
    ensures Inv(cfg, Fail(s, rid))
  {
    hide ChainsOk, FlightsOk, AllClosedAligned, Owned, Partition, Ordered;
    match s.flights[rid].encoded.chainId
    case None =>
      OwnedLeave(s.phase, s.active, s.reserved, s.flights, rid);
      assert s.reserved - {} == s.reserved;
      FlightsOkWithout(cfg, s.flights, rid);
    case Some(id) =>
      OwnedReplace(s.phase, s.active, s.reserved, s.flights, rid, Failing(id));
      FlightsOkReplace(cfg, s.flights, rid, Failing(id));
  }

  lemma ReleaseKeeps(cfg: Config, s: State, rid: nat)
    requires Inv(cfg, s)
    ensures Inv(cfg, StepRelease(s, rid))
  {
    hide ChainsOk, FlightsOk, AllClosedAligned, Owned, Partition, Ordered;
    if rid in s.flights && s.flights[rid].Failing? {
      OwnedLeave(s.phase, s.active, s.reserved, s.flights, rid);
      FlightsOkWithout(cfg, s.flights, rid);
    }
  }

  lemma FlightOfRun(cfg: Config, s: State, rid: nat)
    requires Inv(cfg, s) && rid in s.flights
    ensures FlightOk(cfg, s.flights[rid])
  {
  }

  lemma ReceivedFlight(cfg: Config, f: Flight<Buffer>, out: Output)
    requires cfg.codec.Contract() && f.Calling? && FlightOk(cfg, f)
    requires Receive(cfg, f.encoded, out).Ok?
    ensures FlightOk(cfg, Generated(f.encoded.(buffer := Receive(cfg, f.encoded, out).value), f.origin, out))
  {
    ReceiveOk(cfg, f.encoded, f.origin, out);
    hide RequestOk, Receive;
  }

  /** The merged output is recorded in the request's own record and nowhere else. */
  lemma ReceivedKeeps(cfg: Config, s: State, rid: nat, out: Output)
    requires cfg.codec.Contract() && Inv(cfg, s)
    requires rid in s.flights && s.flights[rid].Calling? && FlightOk(cfg, s.flights[rid])
    requires Receive(cfg, s.flights[rid].encoded, out).Ok?
    ensures Inv(cfg, StepReceive(cfg, s, rid, Ok(out)))
  {
    hide ChainsOk, FlightsOk, AllClosedAligned, Owned, Partition, Ordered, FlightOk, Receive, Codec.Contract;
    var f := s.flights[rid];
    ReceivedFlight(cfg, f, out);
    var g := Generated(f.encoded.(buffer := Receive(cfg, f.encoded, out).value), f.origin, out);
    OwnedReplace(s.phase, s.active, s.reserved, s.flights, rid, g);
    FlightsOkReplace(cfg, s.flights, rid, g);
  }

  lemma ReceiveKeeps(cfg: Config, s: State, rid: nat, outcome: Result<Output>)
    requires cfg.codec.Contract() && Inv(cfg, s)
    ensures Inv(cfg, StepReceive(cfg, s, rid, outcome))
  {
    hide Inv, FlightOk, Receive, Codec.Contract;
    if rid in s.flights && s.flights[rid].Calling? {
      FlightOfRun(cfg, s, rid);
      if outcome.Err? || Receive(cfg, s.flights[rid].encoded, outcome.value).Err? {
        FailKeeps(cfg, s, rid);
      } else {
        ReceivedKeeps(cfg, s, rid, outcome.value);
      }
    }
  }

  // ------------------------------------------------------------------- terminal steps

  lemma OwnedTerminal(phase: Phase, active: ChainList, reserved: set<nat>, flights: Flights, after: Phase)
    requires Owned(phase, active, reserved, flights) && after != Active
    ensures Owned(after, [], {}, flights)
  {
  }

  lemma NothingLeft(cfg: Config, gens: map<nat, seq<Generation>>, orderSeq: nat)
    ensures ChainsOk(cfg, gens, []) && AllClosedAligned([]) && Ordered([], [], orderSeq)
  {
  }

  lemma PartitionAbort(active: ChainList, closed: seq<Closed>, dropped: set<nat>, nextId: nat)
    requires Partition(Active, active, closed, dropped, nextId)
    ensures Partition(Aborted, [], [], dropped, nextId)
  {
  }

  lemma AbortKeeps(cfg: Config, s: State)
    requires Inv(cfg, s)
    ensures Inv(cfg, StepAbort(s))
  {
    hide ChainsOk, FlightsOk, AllClosedAligned, Owned, Partition, Ordered;
    if s.phase == Active {
      OwnedTerminal(s.phase, s.active, s.reserved, s.flights, Aborted);
      NothingLeft(cfg, s.history.generations, s.orderSeq);
      PartitionAbort(s.active, s.closed, s.history.dropped, s.nextId);
    }
  }

  lemma {:induction false} MaterializeAllTotal(chains: ChainList)
    ensures TotalClosed(MaterializeAll(chains)) == TotalTrainable(chains)
  {
    if chains != [] {
      MaterializeAllTotal(chains[1..]);
      assert MaterializeAll(chains)[1..] == MaterializeAll(chains[1..]);
    }
  }

  /** Where ids and sequence numbers go when all active chains are closed. */
  lemma MaterializedIds(active: ChainList)
    ensures forall i | 0 <= i < |active| :: MaterializeAll(active)[i].trajectory.chainId == active[i].id
  {
  }

  lemma PartitionFinalize(active: ChainList, closed: seq<Closed>, dropped: set<nat>, nextId: nat)
    requires Partition(Active, active, closed, dropped, nextId)
    ensures Partition(Finalized, [], closed + MaterializeAll(active), dropped, nextId)
  {
    var all := closed + MaterializeAll(active);
    MaterializedIds(active);
    hide MaterializeAll, Materialize;
    forall id ensures InClosed(all, id) <==> InActive(active, id) || InClosed(closed, id) {
      if InActive(active, id) {
        var c :| c in active && c.id == id;
        var i :| 0 <= i < |active| && active[i] == c;
        assert all[|closed| + i] in all;
      }
      if InClosed(closed, id) {
        var t :| t in closed && t.trajectory.chainId == id;
        assert t in all;
      }
      if InClosed(all, id) {
        var t :| t in all && t.trajectory.chainId == id;
        var i :| 0 <= i < |all| && all[i] == t;
        if i >= |closed| {
          assert active[i - |closed|] in active;
        }
      }
    }
    forall i, j | 0 <= i < j < |all| ensures all[i].trajectory.chainId != all[j].trajectory.chainId {
      if i < |closed| <= j {
        assert closed[i] in closed && active[j - |closed|] in active;
        assert InClosed(closed, closed[i].trajectory.chainId) && InActive(active, active[j - |closed|].id);
      }
    }
  }

  lemma OrderedFinalize(active: ChainList, closed: seq<Closed>, orderSeq: nat)
    requires Ordered(active, closed, orderSeq)
    ensures Ordered([], closed + MaterializeAll(active), orderSeq)
  {
  }

  lemma AlignedFinalize(cfg: Config, gens: map<nat, seq<Generation>>, active: ChainList, closed: seq<Closed>)
    requires ChainsOk(cfg, gens, active) && AllClosedAligned(closed)
    ensures AllClosedAligned(closed + MaterializeAll(active))
  {
    var added := MaterializeAll(active);
    forall t | t in added ensures ClosedAligned(t) {
      var i :| 0 <= i < |added| && added[i] == t;
      assert ChainOk(cfg, gens, active[i]);
    }
  }

  lemma FinalizeBalances(s: State)
    requires Balanced(s) && Terminal(s) && s.phase == Active
    ensures Balanced(StepFinalize(s)) && Terminal(StepFinalize(s))
  {
    MaterializeAllTotal(s.active);
    TotalClosedAppend(s.closed, MaterializeAll(s.active));
  }

  lemma FinalizeKeeps(cfg: Config, s: State)
    requires Inv(cfg, s)
    ensures Inv(cfg, StepFinalize(s))
  {
    hide ChainsOk, FlightsOk, AllClosedAligned, Owned, Partition, Ordered;
    if s.phase == Active {
      FinalizeBalances(s);
      hide Balanced, Terminal;
      AlignedFinalize(cfg, s.history.generations, s.active, s.closed);
      NothingLeft(cfg, s.history.generations, s.orderSeq);
      PartitionFinalize(s.active, s.closed, s.history.dropped, s.nextId);
      OrderedFinalize(s.active, s.closed, s.orderSeq);
      OwnedTerminal(s.phase, s.active, s.reserved, s.flights, Finalized);
    }
  }

  // ------------------------------------------------------------- preparing a request

  /** A new request reserves a chain nobody holds. */
  lemma OwnedReserve(active: ChainList, reserved: set<nat>, flights: Flights, rid: nat, f: Flight<Buffer>)
    requires Owned(Active, active, reserved, flights)
    requires rid !in flights
    requires Held(f).Some? ==> Held(f).value !in reserved
    requires BaseChain(f).Some? ==> BaseChain(f).value in active
    ensures Owned(Active, active, reserved + (if Held(f).Some? then {Held(f).value} else {}), flights[rid := f])
  {
    var flights' := flights[rid := f];
    var reserved' := reserved + (if Held(f).Some? then {Held(f).value} else {});
    forall id | id in reserved' ensures HeldBySome(flights', id) {
      if id in reserved {
        assert HeldBySome(flights, id);
        var r :| r in flights && Held(flights[r]) == Some(id);
        assert r in flights' && Held(flights'[r]) == Some(id);
      } else {
        assert rid in flights' && Held(flights'[rid]) == Some(id);
      }
    }
  }

  lemma ReservedFlight(cfg: Config, s: State, req: Request)
    requires cfg.codec.Contract()
    requires ChainsOk(cfg, s.history.generations, s.active)
    requires var r := Prepare(cfg, s.active, s.reserved, req); r.Ok? && !r.value.exhausted
    ensures var e := Prepare(cfg, s.active, s.reserved, req).value;
            var o := OriginOf(cfg, s, req);
            && FlightOk(cfg, Calling(e, o))
            && (e.chainId.Some? ==> e.chainId.value !in s.reserved)
            && (o.base.Some? ==> o.base.value in s.active)
  {
    PrepareOk(cfg, s, req);
    if Select(QueryFor(cfg, s.reserved, req), s.active).Some? {
      SelectedCovers(cfg, s.history.generations, s.active, s.reserved, req);
    }
    hide Prepare, Select, QueryFor;
  }

  lemma ReserveKeeps(cfg: Config, s: State, rid: nat, req: Request)
    requires cfg.codec.Contract() && Inv(cfg, s)
    requires s.phase == Active && rid !in s.flights
    requires var r := Prepare(cfg, s.active, s.reserved, req); r.Ok? && !r.value.exhausted
    ensures Inv(cfg, StepPrepare(cfg, s, rid, req))
  {
    hide ChainsOk, FlightsOk, AllClosedAligned, Owned, Partition, Ordered;
    hide Prepare, OriginOf, FlightOk;
    ReservedFlight(cfg, s, req);
    var f := Calling(Prepare(cfg, s.active, s.reserved, req).value, OriginOf(cfg, s, req));
    FlightsOkReplace(cfg, s.flights, rid, f);
    OwnedReserve(s.active, s.reserved, s.flights, rid, f);
  }

  lemma RemoveAtMembers(chains: ChainList, i: nat)
    requires i < |chains| && DistinctIds(chains)
    ensures DistinctIds(RemoveAt(chains, i))
    ensures forall c :: c in RemoveAt(chains, i) <==> c in chains && c.id != chains[i].id
    ensures forall id :: InActive(RemoveAt(chains, i), id) <==> InActive(chains, id) && id != chains[i].id
  {
    var r := RemoveAt(chains, i);
    forall c | c in chains && c.id != chains[i].id ensures c in r {
      var k :| 0 <= k < |chains| && chains[k] == c;
      assert c == if k < i then r[k] else r[k - 1];
    }
    forall id ensures InActive(r, id) <==> InActive(chains, id) && id != chains[i].id {
      if InActive(chains, id) && id != chains[i].id {
        var c :| c in chains && c.id == id;
        assert c in r;
      }
    }
  }

  /** A chain nobody holds can be removed. */
  lemma OwnedRemove(active: ChainList, reserved: set<nat>, flights: Flights, i: nat)
    requires Owned(Active, active, reserved, flights)
    requires forall r | r in flights && BaseChain(flights[r]).Some? :: Held(flights[r]) == Some(BaseChain(flights[r]).value.id)
    requires DistinctIds(active) && i < |active| && active[i].id !in reserved
    ensures Owned(Active, RemoveAt(active, i), reserved, flights)
  {
    RemoveAtMembers(active, i);
  }

  lemma BaseIsHeld(cfg: Config, flights: Flights)
    requires FlightsOk(cfg, flights)
    ensures forall r | r in flights && BaseChain(flights[r]).Some? :: Held(flights[r]) == Some(BaseChain(flights[r]).value.id)
  {
    forall r | r in flights && BaseChain(flights[r]).Some?
      ensures Held(flights[r]) == Some(BaseChain(flights[r]).value.id)
    {
      assert FlightOk(cfg, flights[r]);
    }
  }

  lemma PartitionDrop(active: ChainList, closed: seq<Closed>, dropped: set<nat>, nextId: nat, i: nat)
    requires Partition(Active, active, closed, dropped, nextId) && i < |active|
    ensures Partition(Active, RemoveAt(active, i), closed, dropped + {active[i].id}, nextId)
  {
    RemoveAtMembers(active, i);
    assert active[i] in active && InActive(active, active[i].id);
  }

  lemma PartitionClose(active: ChainList, closed: seq<Closed>, dropped: set<nat>, nextId: nat, i: nat, t: Closed)
    requires Partition(Active, active, closed, dropped, nextId) && i < |active|
    requires t.trajectory.chainId == active[i].id
    ensures Partition(Active, RemoveAt(active, i), closed + [t], dropped, nextId)
  {
    RemoveAtMembers(active, i);
    assert active[i] in active && InActive(active, active[i].id);
    var all := closed + [t];
    forall id ensures InClosed(all, id) <==> InClosed(closed, id) || id == active[i].id {
      if InClosed(closed, id) {
        var u :| u in closed && u.trajectory.chainId == id;
        assert u in all;
      }
      assert t in all;
    }
    forall k | 0 <= k < |closed| ensures closed[k].trajectory.chainId != active[i].id {
      assert closed[k] in closed;
      assert InClosed(closed, closed[k].trajectory.chainId);
    }
  }

  lemma OrderedDrop(active: ChainList, closed: seq<Closed>, orderSeq: nat, i: nat)
    requires Ordered(active, closed, orderSeq) && i < |active|
    ensures Ordered(RemoveAt(active, i), closed, orderSeq)
  {
    var r := RemoveAt(active, i);
    assert forall k | 0 <= k < |r| :: r[k] == if k < i then active[k] else active[k + 1];
  }

  lemma OrderedClose(active: ChainList, closed: seq<Closed>, orderSeq: nat, t: Closed)
    requires Ordered(active, closed, orderSeq) && t.orderSeq == orderSeq + 1
    ensures Ordered(active, closed + [t], orderSeq + 1)
  {
  }

  /** What the removed chain held is recorded, or materialized, or was part of a prefix. */
  lemma CloseBalances(active: ChainList, closed: seq<Closed>, i: nat, t: Closed)
    requires i < |active|
    ensures TotalTrainable(RemoveAt(active, i)) + TotalClosed(closed + [t]) + active[i].buffer.Trainable()
            == TotalTrainable(active) + TotalClosed(closed) + Sum(t.trajectory.mask)
    ensures TotalTrainable(RemoveAt(active, i)) + active[i].buffer.Trainable() == TotalTrainable(active)
  {
    TotalTrainableSplit(active, i);
    TotalClosedAppend(closed, [t]);
    assert TotalClosed([t]) == Sum(t.trajectory.mask);
  }

  /** The chain an exhausted preparation closes, and what becomes of its tokens. */
  lemma ClosingFacts(cfg: Config, s: State, req: Request)
    requires Inv(cfg, s) && s.phase == Active
    requires var r := Prepare(cfg, s.active, s.reserved, req); r.Ok? && r.value.exhausted && r.value.chainId.Some?
    ensures var e := Prepare(cfg, s.active, s.reserved, req).value;
            var f := Find(s.active, e.chainId.value);
            f.Some? &&
            var c := s.active[f.value];
            && c.id !in s.reserved
            && ClosingChain(c, e).buffer.Aligned()
            && ClosingChain(c, e).buffer.Trainable() + e.dropped + OriginOf(cfg, s, req).stripped == c.buffer.Trainable()
            && (!e.rollback ==> e.dropped == 0 && OriginOf(cfg, s, req).stripped == 0)
            && (e.rollback && c.start.responseLen == 0 ==> e.dropped == c.buffer.Trainable())
  {
    PrepareExhausted(cfg, s, req);
    var e := Prepare(cfg, s.active, s.reserved, req).value;
    var o := OriginOf(cfg, s, req);
    hide Prepare, OriginOf, Owned, Partition, Ordered, FlightsOk;
    var c := o.base.value;
    FindMember(s.active, c) by {
      DistinctActive(s);
    }
    assert ChainOk(cfg, s.history.generations, c);
    ClosingAccounts(cfg, c, e, o.stripped);
  }

  lemma DistinctActive(s: State)
    requires Partition(s.phase, s.active, s.closed, s.history.dropped, s.nextId)
    ensures DistinctIds(s.active)
  {
  }

  lemma ClosingAccounts(cfg: Config, c: Chain<Buffer>, e: Encoded<Buffer>, stripped: nat)
    requires c.buffer.Aligned()
    requires BaseOf(cfg, Choice(c, e.rollback)).Ok?
    requires e.buffer == BaseOf(cfg, Choice(c, e.rollback)).value.buffer
    requires e.dropped == BaseOf(cfg, Choice(c, e.rollback)).value.dropped
    requires stripped == (if e.rollback then StrippedBy(cfg.codec.AssistantPrefix(), c) else 0)
    ensures ClosingChain(c, e).buffer.Aligned()
    ensures ClosingChain(c, e).buffer.Trainable() + e.dropped + stripped == c.buffer.Trainable()
    ensures !e.rollback ==> e.dropped == 0 && stripped == 0
    ensures e.rollback && c.start.responseLen == 0 ==> e.dropped == c.buffer.Trainable()
  {
    BaseOfAccounts(cfg, Choice(c, e.rollback));
  }

  /** Removing a free chain, whatever becomes of it. */
  lemma RemovalKeeps(cfg: Config, s: State, i: nat)
    requires Inv(cfg, s) && s.phase == Active && i < |s.active| && s.active[i].id !in s.reserved
    ensures ChainsOk(cfg, s.history.generations, RemoveAt(s.active, i))
    ensures Owned(Active, RemoveAt(s.active, i), s.reserved, s.flights)
    ensures Ordered(RemoveAt(s.active, i), s.closed, s.orderSeq)
  {
    BaseIsHeld(cfg, s.flights);
    OwnedRemove(s.active, s.reserved, s.flights, i);
    RemoveAtMembers(s.active, i);
    OrderedDrop(s.active, s.closed, s.orderSeq, i);
  }

  lemma MaterializedId(c: Chain<Buffer>, e: Encoded<Buffer>)
    ensures Materialize(ClosingChain(c, e), true).chainId == c.id
  {
  }

  lemma ClosePlaces(s: State, e: Encoded<Buffer>, stripped: nat, i: nat)
    requires s.phase == Active && e.chainId.Some? && Find(s.active, e.chainId.value) == Some(i)
    requires Partition(Active, s.active, s.closed, s.history.dropped, s.nextId)
    requires Ordered(RemoveAt(s.active, i), s.closed, s.orderSeq)
    ensures var s' := CloseExhausted(s, e, stripped);
            && Partition(Active, s'.active, s'.closed, s'.history.dropped, s'.nextId)
            && Ordered(s'.active, s'.closed, s'.orderSeq)
  {
    hide Partition, Ordered, Materialize;
    var c := s.active[i];
    if e.rollback && c.start.responseLen == 0 {
      PartitionDrop(s.active, s.closed, s.history.dropped, s.nextId, i);
    } else {
      var t := Closed(Materialize(ClosingChain(c, e), true), s.orderSeq + 1);
      assert t.trajectory.chainId == c.id by { MaterializedId(c, e); }
      PartitionClose(s.active, s.closed, s.history.dropped, s.nextId, i, t);
      OrderedClose(RemoveAt(s.active, i), s.closed, s.orderSeq, t);
    }
  }

  lemma AlignedClose(closed: seq<Closed>, c: Chain<Buffer>, order: nat)
    requires AllClosedAligned(closed) && c.buffer.Aligned()
    ensures AllClosedAligned(closed + [Closed(Materialize(c, true), order)])
  {
    var t := Closed(Materialize(c, true), order);
    assert ClosedAligned(t);
  }

  /** What closing a full chain changes: it is removed, and materialized unless nothing is left of it. */
  lemma CloseFields(s: State, e: Encoded<Buffer>, stripped: nat, i: nat)
    requires e.chainId.Some? && Find(s.active, e.chainId.value) == Some(i)
    ensures var s' := CloseExhausted(s, e, stripped);
            var empty := e.rollback && s.active[i].start.responseLen == 0;
            var t := Closed(Materialize(ClosingChain(s.active[i], e), true), s.orderSeq + 1);
            && s'.phase == s.phase && s'.active == RemoveAt(s.active, i)
            && s'.closed == s.closed + (if empty then [] else [t])
            && s'.rollbackCount == s.rollbackCount + (if e.rollback then 1 else 0)
            && s'.rollbackDropped == s.rollbackDropped + (if e.rollback then e.dropped else 0)
            && s'.history.generations == s.history.generations
            && s'.history.dropped == s.history.dropped + (if empty then {s.active[i].id} else {})
            && s'.history.stripped == s.history.stripped + (if empty then 0 else stripped)
            && s'.history.completed == s.history.completed && s'.history.finalizes == s.history.finalizes
  {
    hide Materialize, ClosingChain, RemoveAt;
    assert s.closed + [] == s.closed;
  }

  lemma CloseContents(s: State, e: Encoded<Buffer>, stripped: nat, i: nat)
    requires s.phase == Active && e.chainId.Some? && Find(s.active, e.chainId.value) == Some(i)
    requires ClosingChain(s.active[i], e).buffer.Aligned()
    requires ClosingChain(s.active[i], e).buffer.Trainable() + e.dropped + stripped == s.active[i].buffer.Trainable()
    requires !e.rollback ==> e.dropped == 0 && stripped == 0
    requires e.rollback && s.active[i].start.responseLen == 0 ==> e.dropped == s.active[i].buffer.Trainable()
    requires AllClosedAligned(s.closed) && Balanced(s) && Terminal(s)
    ensures var s' := CloseExhausted(s, e, stripped);
            AllClosedAligned(s'.closed) && Balanced(s') && Terminal(s')
  {
    var c := ClosingChain(s.active[i], e);
    var t := Closed(Materialize(c, true), s.orderSeq + 1);
    assert Sum(t.trajectory.mask) == c.buffer.Trainable();
    hide AllClosedAligned, Materialize, ClosingChain, Buffer.Trainable, Buffer.Aligned, Sum, RemoveAt, Find;
    hide TotalTrainable, TotalClosed, CloseExhausted;
    AlignedClose(s.closed, c, s.orderSeq + 1);
    CloseBalances(s.active, s.closed, i, t);
    CloseFields(s, e, stripped, i);
    assert s.closed + [] == s.closed;
  }

  /** Closing a free chain because the trajectory is full. */
  lemma CloseKeeps(cfg: Config, s: State, e: Encoded<Buffer>, stripped: nat, i: nat)
    requires Inv(cfg, s) && s.phase == Active
    requires e.chainId.Some? && Find(s.active, e.chainId.value) == Some(i)
    requires s.active[i].id !in s.reserved
    requires ClosingChain(s.active[i], e).buffer.Aligned()
    requires ClosingChain(s.active[i], e).buffer.Trainable() + e.dropped + stripped == s.active[i].buffer.Trainable()
    requires !e.rollback ==> e.dropped == 0 && stripped == 0
    requires e.rollback && s.active[i].start.responseLen == 0 ==> e.dropped == s.active[i].buffer.Trainable()
    ensures Inv(cfg, CloseExhausted(s, e, stripped))
  {
    hide ChainsOk, FlightsOk, AllClosedAligned, Owned, Partition, Ordered;
    RemovalKeeps(cfg, s, i);
    ClosePlaces(s, e, stripped, i);
    CloseContents(s, e, stripped, i);
  }

  lemma PrepareKeeps(cfg: Config, s: State, rid: nat, req: Request)
    requires cfg.codec.Contract() && Inv(cfg, s)
    ensures Inv(cfg, StepPrepare(cfg, s, rid, req))
  {
    if s.phase == Active && rid !in s.flights && Prepare(cfg, s.active, s.reserved, req).Ok? {
      if Prepare(cfg, s.active, s.reserved, req).value.exhausted {
        var e := Prepare(cfg, s.active, s.reserved, req).value;
        if e.chainId.Some? {
          ClosingFacts(cfg, s, req);
          CloseKeeps(cfg, s, e, OriginOf(cfg, s, req).stripped, Find(s.active, e.chainId.value).value);
        }
      } else {
        ReserveKeeps(cfg, s, rid, req);
      }
    }
  }

  // -------------------------------------------------------------------------- commit

  /** A commit that continues a chain finds it, unchanged, where it was. */
  lemma CommitFindsItsChain(cfg: Config, s: State, rid: nat)
    requires Inv(cfg, s) && s.phase == Active
    requires rid in s.flights && s.flights[rid].Generated? && s.flights[rid].encoded.chainId.Some?
    ensures Find(s.active, s.flights[rid].encoded.chainId.value).Some?
    ensures s.flights[rid].origin.base ==
            Some(s.active[Find(s.active, s.flights[rid].encoded.chainId.value).value])
  {
    assert FlightOk(cfg, s.flights[rid]);
    var base := BaseChain(s.flights[rid]).value;
    FindMember(s.active, base);
  }

  lemma PartitionAppend(active: ChainList, closed: seq<Closed>, dropped: set<nat>, nextId: nat, c: Chain<Buffer>)
    requires Partition(Active, active, closed, dropped, nextId) && c.id == nextId
    ensures Partition(Active, active + [c], closed, dropped, nextId + 1)
  {
    var all := active + [c];
    forall id ensures InActive(all, id) <==> InActive(active, id) || id == c.id {
      if InActive(active, id) {
        var d :| d in active && d.id == id;
        assert d in all;
      }
      assert c in all;
    }
    forall k | 0 <= k < |active| ensures active[k].id != c.id {
      assert active[k] in active;
      assert InActive(active, active[k].id);
    }
  }

  lemma PartitionReplace(active: ChainList, closed: seq<Closed>, dropped: set<nat>, nextId: nat, i: nat, c: Chain<Buffer>)
    requires Partition(Active, active, closed, dropped, nextId) && i < |active| && c.id == active[i].id
    ensures Partition(Active, active[i := c], closed, dropped, nextId)
  {
    var all := active[i := c];
    forall id ensures InActive(all, id) <==> InActive(active, id) {
      if InActive(active, id) {
        var k :| 0 <= k < |active| && active[k].id == id;
        assert all[k] in all && all[k].id == id;
      }
      if InActive(all, id) {
        var k :| 0 <= k < |all| && all[k].id == id;
        assert active[k] in active && active[k].id == id;
      }
    }
  }

  /** Writing a commit's generations leaves the other chains well formed. */
  lemma ChainsOkAfter(cfg: Config, gens: map<nat, seq<Generation>>, gens': map<nat, seq<Generation>>,
                      active: ChainList, active': ChainList, c: Chain<Buffer>)
    requires ChainsOk(cfg, gens, active)
    requires ChainOk(cfg, gens', c)
    requires forall d | d in active' && d != c :: d in active && d.id != c.id
    requires forall id | id in gens && id != c.id :: id in gens' && gens'[id] == gens[id]
    ensures ChainsOk(cfg, gens', active')
  {
    forall d | d in active' ensures ChainOk(cfg, gens', d) {
      if d != c {
        assert ChainOk(cfg, gens, d);
      }
    }
  }

  lemma OrderedAppend(active: ChainList, closed: seq<Closed>, orderSeq: nat, c: Chain<Buffer>)
    requires Ordered(active, closed, orderSeq) && c.updatedSeq == orderSeq + 1
    ensures Ordered(active + [c], closed, orderSeq + 1)
  {
  }

  lemma OrderedReplace(active: ChainList, closed: seq<Closed>, orderSeq: nat, i: nat, c: Chain<Buffer>)
    requires Ordered(active, closed, orderSeq) && i < |active| && c.updatedSeq == orderSeq + 1
    ensures Ordered(active[i := c], closed, orderSeq + 1)
  {
  }

  /** What a commit that opens a chain changes. */
  lemma CommitNewFields(cfg: Config, s: State, rid: nat, reply: Message)
    requires s.phase == Active && rid in s.flights && s.flights[rid].Generated?
    requires s.flights[rid].encoded.chainId.None? && s.flights[rid].encoded.start.Some?
    ensures var s' := StepCommit(cfg, s, rid, Ok(reply));
            var e := s.flights[rid].encoded;
            && s'.phase == s.phase && s'.closed == s.closed && s'.nextId == s.nextId + 1
            && s'.active == s.active + [CommittedChain(cfg, e, reply, s.nextId, s.orderSeq + 1)]
            && s'.reserved == s.reserved && s'.orderSeq == s.orderSeq + 1
            && s'.flights == Without(s.flights, rid)
            && s'.rollbackCount == s.rollbackCount + (if e.rollback then 1 else 0)
            && s'.rollbackDropped == s.rollbackDropped + (if e.rollback then e.dropped else 0)
            && s'.history == CommitHistory(s.history, s.flights[rid], s.nextId)
  {
    hide CommitHistory, CommittedChain, Without;
  }

  /** What a continuing commit changes. */
  lemma CommitOverFields(cfg: Config, s: State, rid: nat, reply: Message, i: nat)
    requires s.phase == Active && rid in s.flights && s.flights[rid].Generated?
    requires s.flights[rid].encoded.chainId.Some? && s.flights[rid].encoded.start.Some?
    requires Find(s.active, s.flights[rid].encoded.chainId.value) == Some(i)
    ensures var s' := StepCommit(cfg, s, rid, Ok(reply));
            var id := s.active[i].id;
            var c := CommittedChain(cfg, s.flights[rid].encoded, reply, id, s.orderSeq + 1);
            && s'.phase == s.phase && s'.closed == s.closed && s'.nextId == s.nextId
            && s'.active == s.active[i := c] && s'.reserved == s.reserved - {c.id}
            && s'.orderSeq == s.orderSeq + 1 && s'.flights == Without(s.flights, rid)
            && s'.rollbackCount == s.rollbackCount + (if s.flights[rid].encoded.rollback then 1 else 0)
            && s'.rollbackDropped
               == s.rollbackDropped + (if s.flights[rid].encoded.rollback then s.flights[rid].encoded.dropped else 0)
            && s'.history == CommitHistory(s.history, s.flights[rid], id)
  {
    hide CommitHistory, Without;
  }

  lemma CommitNewContents(cfg: Config, h: History, active: ChainList, f: Flight<Buffer>, reply: Message, id: nat, order: nat)
    requires f.Generated? && FlightOk(cfg, f) && f.encoded.chainId.None?
    requires ChainsOk(cfg, h.generations, active) && forall c | c in active :: c.id != id
    ensures ChainsOk(cfg, CommitHistory(h, f, id).generations, active + [CommittedChain(cfg, f.encoded, reply, id, order)])
  {
    var c := CommittedChain(cfg, f.encoded, reply, id, order);
    CommittedChainOk(cfg, h, f, reply, id, order);
    hide ChainsOk, FlightOk;
    ChainsOkAfter(cfg, h.generations, CommitHistory(h, f, id).generations, active, active + [c], c);
  }

  lemma CommitNewPlaces(cfg: Config, s: State, rid: nat, c: Chain<Buffer>)
    requires rid in s.flights && Held(s.flights[rid]).None?
    requires FlightsOk(cfg, s.flights)
    requires Owned(Active, s.active, s.reserved, s.flights)
    requires Partition(Active, s.active, s.closed, s.history.dropped, s.nextId)
    requires Ordered(s.active, s.closed, s.orderSeq)
    requires c.id == s.nextId && c.updatedSeq == s.orderSeq + 1
    ensures Owned(Active, s.active + [c], s.reserved, Without(s.flights, rid))
    ensures Partition(Active, s.active + [c], s.closed, s.history.dropped, s.nextId + 1)
    ensures Ordered(s.active + [c], s.closed, s.orderSeq + 1)
    ensures FlightsOk(cfg, Without(s.flights, rid))
  {
    hide FlightsOk, Owned, Partition, Ordered;
    PartitionAppend(s.active, s.closed, s.history.dropped, s.nextId, c);
    OwnedNewChain(s.active, s.reserved, s.flights, rid, c);
    OrderedAppend(s.active, s.closed, s.orderSeq, c);
    FlightsOkWithout(cfg, s.flights, rid);
  }

  lemma NewIdIsFree(s: State)
    requires Partition(s.phase, s.active, s.closed, s.history.dropped, s.nextId)
    ensures forall c | c in s.active :: c.id != s.nextId
  {
    forall c | c in s.active ensures c.id != s.nextId {
      assert InActive(s.active, c.id);
    }
  }

  lemma CommitNewKeeps(cfg: Config, s: State, rid: nat, reply: Message)
    requires Inv(cfg, s) && s.phase == Active
    requires rid in s.flights && s.flights[rid].Generated? && s.flights[rid].encoded.chainId.None?
    requires s.flights[rid].encoded.start.Some? && FlightOk(cfg, s.flights[rid])
    ensures Inv(cfg, StepCommit(cfg, s, rid, Ok(reply)))
  {
    hide ChainsOk, FlightsOk, AllClosedAligned, Owned, Partition, Ordered, Balanced, Terminal;
    hide StepCommit, FlightOk, Without, CommitHistory;
    NewIdIsFree(s);
    var c := CommittedChain(cfg, s.flights[rid].encoded, reply, s.nextId, s.orderSeq + 1);
    CommitNewContents(cfg, s.history, s.active, s.flights[rid], reply, s.nextId, s.orderSeq + 1);
    CommitNewPlaces(cfg, s, rid, c);
    CommitBalances(cfg, s, rid, reply);
    CommitNewFields(cfg, s, rid, reply);
    assert CommitHistory(s.history, s.flights[rid], s.nextId).dropped == s.history.dropped by {
      HistoryKeepsDropped(s.history, s.flights[rid], s.nextId);
    }
  }

  lemma HistoryKeepsDropped(h: History, f: Flight<Buffer>, id: nat)
    requires f.Generated?
    ensures CommitHistory(h, f, id).dropped == h.dropped
  {
  }

  /** What a commit adds to its base. */
  lemma CommittedTokens(cfg: Config, f: Flight<Buffer>)
    requires f.Generated? && FlightOk(cfg, f)
    ensures f.encoded.buffer.Trainable() + f.encoded.dropped + f.origin.stripped
            == BaseTrainable(f.origin.base) + |f.output.tokens|
    ensures f.encoded.start.Some?
    ensures !f.encoded.rollback ==> f.encoded.dropped == 0
    ensures f.encoded.chainId.None? ==> f.origin.base.None? && !f.encoded.rollback
  {
  }

  /** A commit adds exactly the tokens it completed. */
  lemma CommitBalances(cfg: Config, s: State, rid: nat, reply: Message)
    requires s.phase == Active && rid in s.flights && s.flights[rid].Generated?
    requires FlightOk(cfg, s.flights[rid]) && Balanced(s) && Terminal(s)
    requires s.flights[rid].encoded.chainId.Some? ==>
               var i := Find(s.active, s.flights[rid].encoded.chainId.value);
               i.Some? && s.flights[rid].origin.base == Some(s.active[i.value])
    ensures Balanced(StepCommit(cfg, s, rid, Ok(reply))) && Terminal(StepCommit(cfg, s, rid, Ok(reply)))
  {
    var f := s.flights[rid];
    CommittedTokens(cfg, f);
    hide FlightOk, Balanced, Terminal;
    match f.encoded.chainId
    case None =>
      var c := CommittedChain(cfg, f.encoded, reply, s.nextId, s.orderSeq + 1);
      CommitNewFields(cfg, s, rid, reply);
      TotalTrainableAppend(s.active, [c]);
      assert TotalTrainable([c]) == c.buffer.Trainable();
      hide StepCommit, Buffer.Trainable;
      BalancedAfter(s, StepCommit(cfg, s, rid, Ok(reply)), f, s.nextId);
    case Some(id) =>
      var i := Find(s.active, id).value;
      CommitOverFields(cfg, s, rid, reply, i);
      TotalTrainableUpdate(s.active, i, CommittedChain(cfg, f.encoded, reply, id, s.orderSeq + 1));
      hide StepCommit, Buffer.Trainable;
      BalancedAfter(s, StepCommit(cfg, s, rid, Ok(reply)), f, id);
  }

  lemma BalancedAfter(s: State, s': State, f: Flight<Buffer>, id: nat)
    requires Balanced(s) && Terminal(s) && f.Generated?
    requires s'.phase == s.phase == Active && s'.closed == s.closed
    requires s'.history == CommitHistory(s.history, f, id)
    requires s'.rollbackDropped == s.rollbackDropped + f.encoded.dropped
    requires TotalTrainable(s'.active) + f.encoded.dropped + f.origin.stripped
             == TotalTrainable(s.active) + |f.output.tokens|
    ensures Balanced(s') && Terminal(s')
  {
    hide TotalTrainable, TotalClosed;
  }

  lemma OwnedNewChain(active: ChainList, reserved: set<nat>, flights: Flights, rid: nat, c: Chain<Buffer>)
    requires Owned(Active, active, reserved, flights)
    requires rid in flights && Held(flights[rid]).None?
    ensures Owned(Active, active + [c], reserved, Without(flights, rid))
  {
    OwnedLeave(Active, active, reserved, flights, rid);
    assert reserved - {} == reserved;
  }

  /** The other requests' snapshots survive a commit. */
  lemma OwnedCommit(active: ChainList, reserved: set<nat>, flights: Flights, rid: nat, i: nat, c: Chain<Buffer>)
    requires Owned(Active, active, reserved, flights)
    requires forall r | r in flights && BaseChain(flights[r]).Some? :: Held(flights[r]) == Some(BaseChain(flights[r]).value.id)
    requires rid in flights && i < |active| && Held(flights[rid]) == Some(active[i].id) && c.id == active[i].id
    ensures Owned(Active, active[i := c], reserved - {c.id}, Without(flights, rid))
  {
    OwnedLeave(Active, active, reserved, flights, rid);
    var flights' := Without(flights, rid);
    forall r | r in flights' && BaseChain(flights'[r]).Some? ensures BaseChain(flights'[r]).value in active[i := c] {
      var base := BaseChain(flights[r]).value;
      assert base.id != c.id;
      var k :| 0 <= k < |active| && active[k] == base;
      assert active[i := c][k] == base;
    }
  }

  lemma CommitOverContents(cfg: Config, h: History, active: ChainList, f: Flight<Buffer>, reply: Message, order: nat, i: nat)
    requires f.Generated? && FlightOk(cfg, f) && i < |active| && f.origin.base == Some(active[i])
    requires ChainsOk(cfg, h.generations, active) && DistinctIds(active)
    ensures ChainsOk(cfg, CommitHistory(h, f, active[i].id).generations,
                     active[i := CommittedChain(cfg, f.encoded, reply, active[i].id, order)])
  {
    var id := active[i].id;
    assert ChainOk(cfg, h.generations, active[i]);
    var c := CommittedChain(cfg, f.encoded, reply, id, order);
    CommittedChainOk(cfg, h, f, reply, id, order);
    ReplacedMembers(active, i, c);
    ChainsOkAfter(cfg, h.generations, CommitHistory(h, f, id).generations, active, active[i := c], c);
  }

  lemma CommitOverPlaces(cfg: Config, s: State, rid: nat, i: nat, c: Chain<Buffer>)
    requires FlightsOk(cfg, s.flights)
    requires Owned(Active, s.active, s.reserved, s.flights)
    requires Partition(Active, s.active, s.closed, s.history.dropped, s.nextId)
    requires Ordered(s.active, s.closed, s.orderSeq)
    requires rid in s.flights && i < |s.active| && Held(s.flights[rid]) == Some(s.active[i].id)
    requires c.id == s.active[i].id && c.updatedSeq == s.orderSeq + 1
    ensures Owned(Active, s.active[i := c], s.reserved - {c.id}, Without(s.flights, rid))
    ensures Partition(Active, s.active[i := c], s.closed, s.history.dropped, s.nextId)
    ensures Ordered(s.active[i := c], s.closed, s.orderSeq + 1)
    ensures FlightsOk(cfg, Without(s.flights, rid))
  {
    hide ChainsOk, FlightsOk, AllClosedAligned, Owned, Partition, Ordered;
    PartitionReplace(s.active, s.closed, s.history.dropped, s.nextId, i, c);
    BaseIsHeld(cfg, s.flights);
    OwnedCommit(s.active, s.reserved, s.flights, rid, i, c);
    OrderedReplace(s.active, s.closed, s.orderSeq, i, c);
    FlightsOkWithout(cfg, s.flights, rid);
  }

  lemma CommitOverKeeps(cfg: Config, s: State, rid: nat, reply: Message, i: nat)
    requires Inv(cfg, s) && s.phase == Active
    requires rid in s.flights && s.flights[rid].Generated? && s.flights[rid].encoded.chainId.Some?
    requires s.flights[rid].encoded.start.Some? && FlightOk(cfg, s.flights[rid])
    requires Find(s.active, s.flights[rid].encoded.chainId.value) == Some(i)
    requires s.flights[rid].origin.base == Some(s.active[i]) && DistinctIds(s.active)
    ensures Inv(cfg, StepCommit(cfg, s, rid, Ok(reply)))
  {
    hide ChainsOk, FlightsOk, AllClosedAligned, Owned, Partition, Ordered, Balanced, Terminal;
    hide StepCommit, Without, CommitHistory;
    var c := CommittedChain(cfg, s.flights[rid].encoded, reply, s.active[i].id, s.orderSeq + 1);
    CommitOverContents(cfg, s.history, s.active, s.flights[rid], reply, s.orderSeq + 1, i);
    CommitOverPlaces(cfg, s, rid, i, c);
    CommitBalances(cfg, s, rid, reply);
    CommitOverFields(cfg, s, rid, reply, i);
    HistoryKeepsDropped(s.history, s.flights[rid], s.active[i].id);
  }

  lemma ReplacedMembers(active: ChainList, i: nat, c: Chain<Buffer>)
    requires DistinctIds(active) && i < |active| && c.id == active[i].id
    ensures forall d | d in active[i := c] && d != c :: d in active && d.id != c.id
  {
    forall d | d in active[i := c] && d != c ensures d in active && d.id != c.id {
      var k :| 0 <= k < |active| && active[i := c][k] == d;
      assert d == active[k];
    }
  }

  lemma CommitKeeps(cfg: Config, s: State, rid: nat, decoded: Result<Message>)
    requires Inv(cfg, s)
    ensures Inv(cfg, StepCommit(cfg, s, rid, decoded))
  {
    if rid in s.flights && s.flights[rid].Generated? {
      if s.phase != Active || decoded.Err? || s.flights[rid].encoded.start.None? {
        FailKeeps(cfg, s, rid);
      } else if s.flights[rid].encoded.chainId.None? {
        assert FlightOk(cfg, s.flights[rid]);
        CommitNewKeeps(cfg, s, rid, decoded.value);
      } else {
        assert FlightOk(cfg, s.flights[rid]);
        CommitFindsItsChain(cfg, s, rid);
        CommitOverKeeps(cfg, s, rid, decoded.value, Find(s.active, s.flights[rid].encoded.chainId.value).value);
      }
    }
  }

  // ----------------------------------------------------------------------- every run

  lemma StepKeeps(cfg: Config, s: State, e: Event)
    requires cfg.codec.Contract() && Inv(cfg, s)
    ensures Inv(cfg, Step(cfg, s, e))
  {
    hide Inv;
    match e
    case PrepareEvent(rid, req) => PrepareKeeps(cfg, s, rid, req);
    case ReceiveEvent(rid, outcome) => ReceiveKeeps(cfg, s, rid, outcome);
    case CommitEvent(rid, decoded) => CommitKeeps(cfg, s, rid, decoded);
    case ReleaseEvent(rid) => ReleaseKeeps(cfg, s, rid);
    case CancelEvent(rid) => if rid in s.flights && !s.flights[rid].Failing? { FailKeeps(cfg, s, rid); }
    case FinalizeEvent => FinalizeKeeps(cfg, s);
    case AbortEvent => AbortKeeps(cfg, s);
  }

  lemma RunSnoc(cfg: Config, before: seq<Event>, e: Event)
    ensures Run(cfg, before + [e]) == Step(cfg, Run(cfg, before), e)
  {
    assert (before + [e])[..|before|] == before;
    hide Step;
  }

  lemma InitialInv(cfg: Config)
    ensures Inv(cfg, INITIAL)
  {
  }

  /** The whole invariant holds after every run, in every interleaving. */
  lemma {:induction false} RunKeeps(cfg: Config, events: seq<Event>)
    requires cfg.codec.Contract()
    ensures Inv(cfg, Run(cfg, events))
    decreases |events|
  {
    hide Inv;
    if events == [] {
      InitialInv(cfg);
    } else {
      RunKeeps(cfg, events[..|events| - 1]);
      StepKeeps(cfg, Run(cfg, events[..|events| - 1]), events[|events| - 1]);
    }
  }
}
