/** In-flight accounting: what dispatch and completion do to the per-replica gauges, to the
    per-request rows, and to the balancer's own counters. */
module Inflight {
  import opened Wrappers
  import opened Sequences

  datatype Metric = InflightCount | InflightTokens | InflightTurnSum | Dispatched | Completed | PromptLenSum

  type Deltas = map<Metric, int>
  type Replicas = map<string, Deltas>

  /** What dispatch recorded about a request. */
  datatype RequestRow = RequestRow(turn: int, promptLen: int)

  const NO_ROW := RequestRow(0, 0)

  function Field(node: Deltas, key: Metric): int {
    if key in node then node[key] else 0
  }

  function Node(replicas: Replicas, id: string): Deltas {
    if id in replicas then replicas[id] else map[]
  }

  /** A gauge of one replica; 0 while nothing was written. */
  function Gauge(replicas: Replicas, id: string, key: Metric): int {
    Field(Node(replicas, id), key)
  }

  function Merge(node: Deltas, deltas: Deltas): Deltas {
    map k | k in node.Keys + deltas.Keys :: Field(node, k) + Field(deltas, k)
  }

  function Apply(replicas: Replicas, id: string, deltas: Deltas): Replicas {
    replicas[id := Merge(Node(replicas, id), deltas)]
  }

  function RowOf(rows: map<string, RequestRow>, rid: string): RequestRow {
    if rid in rows then rows[rid] else NO_ROW
  }

  /** What dispatching a request records about it: one more turn, and the prompt's length. */
  function RowAfterAcquire(row: RequestRow, length: int): RequestRow {
    RequestRow(row.turn + 1, length)
  }

  function AcquireDeltas(length: int): Deltas {
    map[InflightCount := 1, InflightTokens := length, Dispatched := 1, PromptLenSum := length]
  }

  const RELEASE_DELTAS: Deltas := map[InflightCount := -1, Completed := 1]

  /** The deltas as the collector writes them: dispatch adds the request's new turn, completion
      subtracts the turn and the length its row holds by then. Without an id neither is folded. */
  function AcquireWrites(rid: Option<string>, row: RequestRow, length: int): Deltas {
    if rid.None? then AcquireDeltas(length)
    else AcquireDeltas(length)[InflightTurnSum := row.turn + 1]
  }

  function ReleaseWrites(rid: Option<string>, row: RequestRow): Deltas {
    if rid.None? then RELEASE_DELTAS
    else RELEASE_DELTAS[InflightTurnSum := -row.turn][InflightTokens := -row.promptLen]
  }

  // ------------------------------------------------------------------------- the ledger

  /** The three tables: replica gauges, request rows, and the balancer's counters. */
  datatype Ledger = Ledger(replicas: Replicas, rows: map<string, RequestRow>,
                           servers: set<string>, inflight: map<string, int>)

  datatype Event =
    | Acquire(rid: Option<string>, server: string, length: nat)
    | Release(rid: Option<string>, server: string)
    | Join(added: set<string>)
    | Leave(removed: set<string>)
    | Evict(gone: set<string>)

  function Counter(inflight: map<string, int>, server: string): int {
    if server in inflight then inflight[server] else 0
  }

  /** Counters at 0 for the servers that have none yet. */
  function Widened(inflight: map<string, int>, added: set<string>): map<string, int> {
    map s | s in inflight.Keys + added :: Counter(inflight, s)
  }

  function RowFor(l: Ledger, rid: Option<string>): RequestRow {
    if rid.Some? then RowOf(l.rows, rid.value) else NO_ROW
  }

  function Step(l: Ledger, e: Event): Ledger {
    match e
    case Acquire(rid, server, length) =>
      if server !in l.servers then l
      else
        l.(inflight := l.inflight[server := Counter(l.inflight, server) + 1],
           replicas := Apply(l.replicas, server, AcquireWrites(rid, RowFor(l, rid), length)),
           rows := if rid.Some? then l.rows[rid.value := RowAfterAcquire(RowFor(l, rid), length)] else l.rows)
    case Release(rid, server) =>
      l.(inflight := if Counter(l.inflight, server) > 0 then l.inflight[server := l.inflight[server] - 1] else l.inflight,
         replicas := Apply(l.replicas, server, ReleaseWrites(rid, RowFor(l, rid))))
    case Join(added) =>
      l.(servers := l.servers + added,
         inflight := Widened(l.inflight, added))
    case Leave(removed) =>
      l.(servers := l.servers - removed, inflight := l.inflight - removed)
    case Evict(gone) =>
      l.(rows := l.rows - gone)
  }

  /** A request between its dispatch and its completion. */
  datatype Ticket = Ticket(rid: Option<string>, server: string, length: nat, turn: int)

  datatype Trace = Trace(ledger: Ledger, outstanding: seq<Ticket>)

  function FindTicket(tickets: seq<Ticket>, rid: Option<string>, server: string): (r: Option<nat>)
    ensures r.Some? ==> r.value < |tickets| && tickets[r.value].rid == rid && tickets[r.value].server == server
    ensures r.None? ==> forall t | t in tickets :: !(t.rid == rid && t.server == server)
  {
    if tickets == [] then None
    else if tickets[0].rid == rid && tickets[0].server == server then Some(0)
    else match FindTicket(tickets[1..], rid, server)
         case None => None
         case Some(i) => Some(i + 1)
  }

  function Follow(t: Trace, e: Event): Trace {
    Trace(Step(t.ledger, e),
          match e
          case Acquire(rid, server, length) =>
            if server !in t.ledger.servers then t.outstanding
            else t.outstanding + [Ticket(rid, server, length, RowFor(t.ledger, rid).turn + 1)]
          case Release(rid, server) =>
            var i := FindTicket(t.outstanding, rid, server);
            if i.Some? then RemoveAt(t.outstanding, i.value) else t.outstanding
          case _ => t.outstanding)
  }

  function Run(events: seq<Event>): Trace {
    if events == [] then Trace(Ledger(map[], map[], {}, map[]), [])
    else Follow(Run(events[..|events| - 1]), events[|events| - 1])
  }

  predicate Outstanding(t: Trace, rid: string) {
    exists i | 0 <= i < |t.outstanding| :: t.outstanding[i].rid == Some(rid)
  }

  /** At most one outstanding dispatch per id, every release answers one, and no row is evicted
      while its request is outstanding. */
  predicate Proper(t: Trace, e: Event) {
    match e
    case Acquire(rid, server, length) => rid.Some? && !Outstanding(t, rid.value)
    case Release(rid, server) => rid.Some? && FindTicket(t.outstanding, rid, server).Some?
    case Evict(gone) => forall i | 0 <= i < |t.outstanding| :: t.outstanding[i].rid.Some? ==> t.outstanding[i].rid.value !in gone
    case _ => true
  }

  predicate Disciplined(events: seq<Event>) {
    events == [] || (Disciplined(events[..|events| - 1]) && Proper(Run(events[..|events| - 1]), events[|events| - 1]))
  }

  // --------------------------------------------------------------------- sums over requests

  function SumOn(tickets: seq<Ticket>, server: string, f: Ticket -> int): int {
    if tickets == [] then 0
    else (if tickets[0].server == server then f(tickets[0]) else 0) + SumOn(tickets[1..], server, f)
  }

  function One(t: Ticket): int { 1 }

  function Length(t: Ticket): int { t.length }

  function Turn(t: Ticket): int { t.turn }

  lemma {:induction false} SumAppend(a: seq<Ticket>, t: Ticket, server: string, f: Ticket -> int)
    ensures SumOn(a + [t], server, f) == SumOn(a, server, f) + (if t.server == server then f(t) else 0)
  {
    if a != [] {
      SumAppend(a[1..], t, server, f);
      assert (a + [t])[1..] == a[1..] + [t];
    }
  }

  lemma {:induction false} SumRemoveAt(a: seq<Ticket>, i: nat, server: string, f: Ticket -> int)
    requires i < |a|
    ensures SumOn(a, server, f) == SumOn(RemoveAt(a, i), server, f) + (if a[i].server == server then f(a[i]) else 0)
  {
    if i == 0 {
      assert RemoveAt(a, 0) == a[1..];
    } else {
      SumRemoveAt(a[1..], i - 1, server, f);
      assert RemoveAt(a, i) == [a[0]] + RemoveAt(a[1..], i - 1);
    }
  }

  // ------------------------------------------------------------- laws of every run whatever

  /** In-flight is always dispatched less completed, and the balancer's own counters never
      go below zero. */
  lemma {:induction false} CountIsDispatchedLessCompleted(events: seq<Event>, server: string)
    ensures var l := Run(events).ledger;
            && Gauge(l.replicas, server, InflightCount)
               == Gauge(l.replicas, server, Dispatched) - Gauge(l.replicas, server, Completed)
            && Counter(l.inflight, server) >= 0
    decreases |events|
  {
    if events != [] {
      CountIsDispatchedLessCompleted(events[..|events| - 1], server);
      DifferenceKept(Run(events[..|events| - 1]).ledger, events[|events| - 1], server);
    }
  }

  lemma DifferenceKept(l: Ledger, e: Event, server: string)
    requires Gauge(l.replicas, server, InflightCount) == Gauge(l.replicas, server, Dispatched) - Gauge(l.replicas, server, Completed)
    requires Counter(l.inflight, server) >= 0
    ensures var l' := Step(l, e);
            Gauge(l'.replicas, server, InflightCount) == Gauge(l'.replicas, server, Dispatched) - Gauge(l'.replicas, server, Completed)
            && Counter(l'.inflight, server) >= 0
  {
    if e.Acquire? {
      var deltas := AcquireWrites(e.rid, RowFor(l, e.rid), e.length);
      assert Field(deltas, InflightCount) == Field(deltas, Dispatched) - Field(deltas, Completed);
      hide AcquireWrites;
      GaugesMove(l.replicas, server, e.server, deltas);
    } else if e.Release? {
      var deltas := ReleaseWrites(e.rid, RowFor(l, e.rid));
      assert Field(deltas, InflightCount) == Field(deltas, Dispatched) - Field(deltas, Completed);
      hide ReleaseWrites;
      GaugesMove(l.replicas, server, e.server, deltas);
    }
    hide Apply, Gauge, Field;
  }

  lemma GaugesMove(replicas: Replicas, server: string, s: string, deltas: Deltas)
    ensures forall key :: Gauge(Apply(replicas, s, deltas), server, key)
                          == Gauge(replicas, server, key) + (if server == s then Field(deltas, key) else 0)
  {
  }

  // ----------------------------------------------------- the gauges that only count up

  /** The servers in the pool: those whose last change added them. */
  predicate InPool(events: seq<Event>, server: string) {
    if events == [] then false
    else match events[|events| - 1]
         case Join(added) => server in added || InPool(events[..|events| - 1], server)
         case Leave(removed) => server !in removed && InPool(events[..|events| - 1], server)
         case _ => InPool(events[..|events| - 1], server)
  }

  /** A dispatch to `server` at `events[i]`: one the pool lets through. */
  predicate DispatchedAt(events: seq<Event>, i: nat, server: string)
    requires i < |events|
  {
    events[i].Acquire? && events[i].server == server && InPool(events[..i], server)
  }

  /** The dispatches of a run to a server, the lengths of their prompts together, and its completions. */
  datatype Totals = Totals(dispatches: int, lengths: int, completions: int)

  function TotalsOf(events: seq<Event>, server: string): Totals {
    if events == [] then Totals(0, 0, 0)
    else
      var n := |events| - 1;
      var before := TotalsOf(events[..n], server);
      if DispatchedAt(events, n, server) then
        before.(dispatches := before.dispatches + 1, lengths := before.lengths + events[n].length)
      else if events[n].Release? && events[n].server == server then
        before.(completions := before.completions + 1)
      else before
  }

  lemma {:induction false} PoolIsServers(events: seq<Event>, server: string)
    ensures server in Run(events).ledger.servers <==> InPool(events, server)
    decreases |events|
  {
    if events != [] {
      PoolIsServers(events[..|events| - 1], server);
      hide Apply, AcquireWrites, ReleaseWrites, RowAfterAcquire, Widened;
    }
  }

  lemma TotalsMove(l: Ledger, e: Event, server: string)
    ensures var l' := Step(l, e);
            var dispatched := e.Acquire? && e.server in l.servers && e.server == server;
            && Gauge(l'.replicas, server, Dispatched) == Gauge(l.replicas, server, Dispatched) + (if dispatched then 1 else 0)
            && Gauge(l'.replicas, server, PromptLenSum)
               == Gauge(l.replicas, server, PromptLenSum) + (if dispatched then e.length else 0)
            && Gauge(l'.replicas, server, Completed)
               == Gauge(l.replicas, server, Completed) + (if e.Release? && e.server == server then 1 else 0)
  {
    if e.Acquire? {
      GaugesMove(l.replicas, server, e.server, AcquireWrites(e.rid, RowFor(l, e.rid), e.length));
    } else if e.Release? {
      GaugesMove(l.replicas, server, e.server, ReleaseWrites(e.rid, RowFor(l, e.rid)));
    }
    hide Apply, Gauge;
  }

  /** In every run at all the gauges that only count up are the run's totals: the dispatches let through, the
      lengths of their prompts together, and the completions, whatever was outstanding or evicted. */
  lemma {:induction false} GaugesCountTheRun(events: seq<Event>, server: string)
    ensures var r := Run(events).ledger.replicas;
            TotalsOf(events, server)
            == Totals(Gauge(r, server, Dispatched), Gauge(r, server, PromptLenSum), Gauge(r, server, Completed))
    decreases |events|
  {
    hide Step, Gauge, InPool;
    if events != [] {
      var n := |events| - 1;
      GaugesCountTheRun(events[..n], server);
      TotalsMove(Run(events[..n]).ledger, events[n], server);
      PoolIsServers(events[..n], server);
    } else {
      NoGauges(server);
    }
  }

  lemma NoGauges(server: string)
    ensures forall key :: Gauge(map[], server, key) == 0
  {
  }

  /** A server's own counter, by replaying the run: dispatches less completions since it last joined, never
      below 0. */
  function Running(events: seq<Event>, server: string): nat {
    if events == [] then 0
    else
      var past := events[..|events| - 1];
      var before := Running(past, server);
      match events[|events| - 1]
      case Acquire(_, s, _) => if s == server && InPool(past, server) then before + 1 else before
      case Release(_, s) => if s == server && before > 0 then before - 1 else before
      case Leave(removed) => if server in removed then 0 else before
      case _ => before
  }

  lemma CounterMoves(l: Ledger, e: Event, server: string)
    requires Counter(l.inflight, server) >= 0 && (server in l.inflight <==> server in l.servers)
    ensures var before, after := Counter(l.inflight, server), Counter(Step(l, e).inflight, server);
            after == match e
                     case Acquire(_, s, _) => if s == server && server in l.servers then before + 1 else before
                     case Release(_, s) => if s == server && before > 0 then before - 1 else before
                     case Leave(removed) => if server in removed then 0 else before
                     case _ => before
    ensures server in Step(l, e).inflight <==> server in Step(l, e).servers
  {
    hide Apply, AcquireWrites, ReleaseWrites, RowAfterAcquire;
  }

  /** In every run exactly the servers of the pool have a counter, and it is what replaying gives: joining again
      changes no counter, and leaving forgets it. */
  lemma {:induction false} CounterIsReplayed(events: seq<Event>, server: string)
    ensures var l := Run(events).ledger;
            && (server in l.inflight <==> InPool(events, server))
            && Counter(l.inflight, server) == Running(events, server)
    decreases |events|
  {
    hide Step, Counter;
    NoCounter(server);
    PoolIsServers(events, server);
    if events != [] {
      var past := events[..|events| - 1];
      CounterIsReplayed(past, server);
      PoolIsServers(past, server);
      CounterMoves(Run(past).ledger, events[|events| - 1], server);
    }
  }

  lemma NoCounter(server: string)
    ensures Counter(map[], server) == 0
  {
  }

  // ------------------------------------------------------------------- disciplined runs

  /** Every outstanding request's row still holds what its dispatch recorded. */
  ghost predicate RowsMatch(t: Trace) {
    && (forall i | 0 <= i < |t.outstanding| ::
          t.outstanding[i].rid.Some?
          && RowOf(t.ledger.rows, t.outstanding[i].rid.value) == RequestRow(t.outstanding[i].turn, t.outstanding[i].length))
    && (forall i, j | 0 <= i < j < |t.outstanding| :: t.outstanding[i].rid != t.outstanding[j].rid)
  }

  /** A replica's gauges are the sums over its outstanding requests. */
  ghost predicate GaugesMatch(t: Trace, server: string) {
    && Gauge(t.ledger.replicas, server, InflightCount) == SumOn(t.outstanding, server, One)
    && Gauge(t.ledger.replicas, server, InflightTokens) == SumOn(t.outstanding, server, Length)
    && Gauge(t.ledger.replicas, server, InflightTurnSum) == SumOn(t.outstanding, server, Turn)
  }

  lemma RowsFollow(t: Trace, e: Event)
    requires RowsMatch(t) && Proper(t, e)
    ensures RowsMatch(Follow(t, e))
  {
    hide Apply, AcquireWrites, ReleaseWrites;
    if e.Release? {
      var i := FindTicket(t.outstanding, e.rid, e.server).value;
      var rest := RemoveAt(t.outstanding, i);
      assert forall j | 0 <= j < |rest| :: rest[j] == t.outstanding[if j < i then j else j + 1];
    }
  }

  lemma AcquireEffect(l: Ledger, rid: string, a: string, x: nat, server: string)
    requires a in l.servers
    ensures var row, l' := RowOf(l.rows, rid), Step(l, Acquire(Some(rid), a, x));
            && RowOf(l'.rows, rid) == RequestRow(row.turn + 1, x) && l'.servers == l.servers
            && Gauge(l'.replicas, server, InflightCount) == Gauge(l.replicas, server, InflightCount) + (if server == a then 1 else 0)
            && Gauge(l'.replicas, server, InflightTokens) == Gauge(l.replicas, server, InflightTokens) + (if server == a then x else 0)
            && Gauge(l'.replicas, server, InflightTurnSum)
               == Gauge(l.replicas, server, InflightTurnSum) + (if server == a then row.turn + 1 else 0)
  {
    GaugesMove(l.replicas, server, a, AcquireWrites(Some(rid), RowOf(l.rows, rid), x));
    hide Apply, Gauge;
  }

  lemma ReleaseEffect(l: Ledger, rid: string, a: string, server: string)
    ensures var row, l' := RowOf(l.rows, rid), Step(l, Release(Some(rid), a));
            && l'.rows == l.rows
            && Gauge(l'.replicas, server, InflightCount) == Gauge(l.replicas, server, InflightCount) - (if server == a then 1 else 0)
            && Gauge(l'.replicas, server, InflightTokens) == Gauge(l.replicas, server, InflightTokens) - (if server == a then row.promptLen else 0)
            && Gauge(l'.replicas, server, InflightTurnSum) == Gauge(l.replicas, server, InflightTurnSum) - (if server == a then row.turn else 0)
  {
    GaugesMove(l.replicas, server, a, ReleaseWrites(Some(rid), RowOf(l.rows, rid)));
    hide Apply, Gauge;
  }

  lemma GaugesFollow(t: Trace, e: Event, server: string)
    requires RowsMatch(t) && GaugesMatch(t, server) && Proper(t, e)
    ensures GaugesMatch(Follow(t, e), server)
  {
    if e.Acquire? && e.server in t.ledger.servers {
      AcquireFollows(t, e, server);
    } else if e.Release? {
      ReleaseFollows(t, e, server);
    }
  }

  lemma AcquireFollows(t: Trace, e: Event, server: string)
    requires e.Acquire? && e.rid.Some? && e.server in t.ledger.servers && GaugesMatch(t, server)
    ensures GaugesMatch(Follow(t, e), server)
  {
    var ticket := Ticket(e.rid, e.server, e.length, RowFor(t.ledger, e.rid).turn + 1);
    AcquireEffect(t.ledger, e.rid.value, e.server, e.length, server);
    SumAppend(t.outstanding, ticket, server, One);
    SumAppend(t.outstanding, ticket, server, Length);
    SumAppend(t.outstanding, ticket, server, Turn);
    hide Step, Gauge, SumOn;
  }

  lemma ReleaseFollows(t: Trace, e: Event, server: string)
    requires e.Release? && RowsMatch(t) && GaugesMatch(t, server) && Proper(t, e)
    ensures GaugesMatch(Follow(t, e), server)
  {
    var i := FindTicket(t.outstanding, e.rid, e.server).value;
    ReleaseEffect(t.ledger, e.rid.value, e.server, server);
    SumRemoveAt(t.outstanding, i, server, One);
    SumRemoveAt(t.outstanding, i, server, Length);
    SumRemoveAt(t.outstanding, i, server, Turn);
    hide Step, Gauge, SumOn, RemoveAt;
  }

  /** In a disciplined run every replica's in-flight count, tokens and turn sum are the sums over
      its outstanding requests, so all of them are back at 0 whenever it is idle. */
  lemma {:induction false} GaugesAreSums(events: seq<Event>, server: string)
    requires Disciplined(events)
    ensures RowsMatch(Run(events)) && GaugesMatch(Run(events), server)
    ensures (forall i | 0 <= i < |Run(events).outstanding| :: Run(events).outstanding[i].server != server) ==>
              var r := Run(events).ledger.replicas;
              Gauge(r, server, InflightCount) == Gauge(r, server, InflightTokens) == Gauge(r, server, InflightTurnSum) == 0
    decreases |events|
  {
    if events != [] {
      var before, e := events[..|events| - 1], events[|events| - 1];
      GaugesAreSums(before, server);
      RowsFollow(Run(before), e);
      GaugesFollow(Run(before), e, server);
    }
    hide Disciplined, RowsMatch, Run;
    if forall i | 0 <= i < |Run(events).outstanding| :: Run(events).outstanding[i].server != server {
      NothingOn(Run(events).outstanding, server, One);
      NothingOn(Run(events).outstanding, server, Length);
      NothingOn(Run(events).outstanding, server, Turn);
    }
  }

  lemma {:induction false} NothingOn(tickets: seq<Ticket>, server: string, f: Ticket -> int)
    requires forall i | 0 <= i < |tickets| :: tickets[i].server != server
    ensures SumOn(tickets, server, f) == 0
  {
    if tickets != [] {
      NothingOn(tickets[1..], server, f);
    }
  }

  predicate NeverRemoved(events: seq<Event>, server: string) {
    forall i | 0 <= i < |events| :: events[i].Leave? ==> server !in events[i].removed
  }

  /** The balancer's own counter agrees for every server that was never removed. */
  lemma {:induction false} BalancerAgrees(events: seq<Event>, server: string)
    requires Disciplined(events) && NeverRemoved(events, server)
    ensures Counter(Run(events).ledger.inflight, server)
            == Gauge(Run(events).ledger.replicas, server, InflightCount)
            == SumOn(Run(events).outstanding, server, One)
    decreases |events|
  {
    GaugesAreSums(events, server);
    if events != [] {
      var before, e := events[..|events| - 1], events[|events| - 1];
      assert NeverRemoved(before, server);
      BalancerAgrees(before, server);
      assert !(e.Leave? && server in e.removed);
      CounterFollows(Run(before), e, server);
    }
  }

  lemma CounterFollows(t: Trace, e: Event, server: string)
    requires Proper(t, e) && !(e.Leave? && server in e.removed)
    requires Counter(t.ledger.inflight, server) == SumOn(t.outstanding, server, One)
    ensures Counter(Follow(t, e).ledger.inflight, server) == SumOn(Follow(t, e).outstanding, server, One)
  {
    hide Apply;
    if e.Acquire? && e.server in t.ledger.servers {
      SumAppend(t.outstanding, Ticket(e.rid, e.server, e.length, RowFor(t.ledger, e.rid).turn + 1), server, One);
    } else if e.Release? {
      var i := FindTicket(t.outstanding, e.rid, e.server).value;
      SumRemoveAt(t.outstanding, i, server, One);
      SumIsNatural(RemoveAt(t.outstanding, i), server);
    }
  }

  lemma {:induction false} SumIsNatural(tickets: seq<Ticket>, server: string)
    ensures SumOn(tickets, server, One) >= 0
  {
    if tickets != [] {
      SumIsNatural(tickets[1..], server);
    }
  }

  // ---------------------------------------------------------------- total across the pool

  ghost function Total(m: map<string, int>): int
    decreases |m|
  {
    if m == map[] then 0
    else
      var k :| k in m;
      m[k] + Total(m - {k})
  }

  lemma {:induction false} TotalWithout(m: map<string, int>, k: string)
    requires k in m
    ensures Total(m) == m[k] + Total(m - {k})
    decreases |m|
  {
    var j :| j in m && Total(m) == m[j] + Total(m - {j});
    if j != k {
      TotalWithout(m - {j}, k);
      TotalWithout(m - {k}, j);
      assert m - {j} - {k} == m - {k} - {j};
    }
  }

  lemma TotalUpdate(m: map<string, int>, k: string, v: int)
    ensures Total(m[k := v]) == Total(m) - Counter(m, k) + v
  {
    TotalWithout(m[k := v], k);
    assert m[k := v] - {k} == m - {k};
    if k in m {
      TotalWithout(m, k);
    } else {
      assert m - {k} == m;
    }
  }

  lemma WidenOne(m: map<string, int>, added: set<string>, k: string)
    requires k in added
    ensures Widened(m, added) == Widened(m, added - {k})[k := Counter(m, k)]
    ensures Counter(Widened(m, added - {k}), k) == Counter(m, k)
  {
  }

  lemma WidenNone(m: map<string, int>)
    ensures Widened(m, {}) == m
  {
  }

  lemma {:induction false} TotalOfZeros(m: map<string, int>, added: set<string>)
    ensures Total(Widened(m, added)) == Total(m)
    decreases |added|
  {
    hide Widened, Total, Counter;
    if added == {} {
      WidenNone(m);
    } else {
      var k :| k in added;
      TotalOfZeros(m, added - {k});
      WidenOne(m, added, k);
      TotalUpdate(Widened(m, added - {k}), k, Counter(m, k));
    }
  }

  /** As long as no server was ever removed, the pool's total is the number of outstanding
      requests, so polling it until 0 waits for exactly those. */
  lemma {:induction false} TotalIsOutstanding(events: seq<Event>)
    requires Disciplined(events)
    requires forall i | 0 <= i < |events| :: !events[i].Leave?
    ensures Total(Run(events).ledger.inflight) == |Run(events).outstanding|
    decreases |events|
  {
    if events != [] {
      var before, e := events[..|events| - 1], events[|events| - 1];
      TotalIsOutstanding(before);
      if e.Acquire? || e.Release? {
        BalancerAgrees(before, e.server);
      }
      TotalFollows(Run(before), e);
    }
  }

  lemma TotalFollows(t: Trace, e: Event)
    requires Proper(t, e) && !e.Leave?
    requires Total(t.ledger.inflight) == |t.outstanding|
    requires e.Release? ==> Counter(t.ledger.inflight, e.server) == SumOn(t.outstanding, e.server, One)
    ensures Total(Follow(t, e).ledger.inflight) == |Follow(t, e).outstanding|
  {
    hide Apply, Total;
    var l := t.ledger;
    match e
    case Acquire(rid, server, length) =>
      TotalUpdate(l.inflight, server, Counter(l.inflight, server) + 1);
    case Release(rid, server) =>
      var i := FindTicket(t.outstanding, rid, server).value;
      SumRemoveAt(t.outstanding, i, server, One);
      SumIsNatural(RemoveAt(t.outstanding, i), server);
      TotalUpdate(l.inflight, server, Counter(l.inflight, server) - 1);
    case Join(added) => TotalOfZeros(l.inflight, added);
    case _ =>
  }

  // ------------------------------------------------------------- the discipline is needed

  /** Complete the given requests, one after the other. */
  function Drain(l: Ledger, tickets: seq<Ticket>): Ledger {
    if tickets == [] then l
    else Step(Drain(l, tickets[..|tickets| - 1]),
              Release(tickets[|tickets| - 1].rid, tickets[|tickets| - 1].server))
  }

  function RowTurn(l: Ledger): Ticket -> int {
    (t: Ticket) => RowFor(l, t.rid).turn
  }

  function RowLength(l: Ledger): Ticket -> int {
    (t: Ticket) => RowFor(l, t.rid).promptLen
  }

  lemma {:induction false} DrainSubtractsRows(l: Ledger, tickets: seq<Ticket>, server: string)
    requires forall i | 0 <= i < |tickets| :: tickets[i].rid.Some?
    ensures Drain(l, tickets).rows == l.rows
    ensures Gauge(Drain(l, tickets).replicas, server, InflightTurnSum)
            == Gauge(l.replicas, server, InflightTurnSum) - SumOn(tickets, server, RowTurn(l))
    ensures Gauge(Drain(l, tickets).replicas, server, InflightTokens)
            == Gauge(l.replicas, server, InflightTokens) - SumOn(tickets, server, RowLength(l))
    decreases |tickets|
  {
    if tickets != [] {
      var n := |tickets| - 1;
      DrainSubtractsRows(l, tickets[..n], server);
      var before := Drain(l, tickets[..n]);
      assert tickets == tickets[..n] + [tickets[n]];
      SumAppend(tickets[..n], tickets[n], server, RowTurn(l));
      SumAppend(tickets[..n], tickets[n], server, RowLength(l));
      GaugesMove(before.replicas, server, tickets[n].server, ReleaseWrites(tickets[n].rid, RowFor(before, tickets[n].rid)));
      hide Apply, Gauge, SumOn, Drain;
    }
  }

  lemma {:induction false} SumsAgree(tickets: seq<Ticket>, server: string, f: Ticket -> int, g: Ticket -> int)
    requires forall i | 0 <= i < |tickets| :: f(tickets[i]) == g(tickets[i])
    ensures SumOn(tickets, server, f) == SumOn(tickets, server, g)
  {
    if tickets != [] {
      assert f(tickets[0]) == g(tickets[0]);
      assert forall i | 0 <= i < |tickets[1..]| :: f(tickets[1..][i]) == g(tickets[1..][i]) by {
        assert forall i | 0 <= i < |tickets[1..]| :: tickets[1..][i] == tickets[i + 1];
      }
      SumsAgree(tickets[1..], server, f, g);
    }
  }

  lemma SumsDiffer(tickets: seq<Ticket>, i: nat, server: string, f: Ticket -> int, g: Ticket -> int)
    requires i < |tickets| && tickets[i].server == server
    requires forall j | 0 <= j < |tickets| && j != i :: f(tickets[j]) == g(tickets[j])
    ensures SumOn(tickets, server, f) - SumOn(tickets, server, g) == f(tickets[i]) - g(tickets[i])
  {
    SumRemoveAt(tickets, i, server, f);
    SumRemoveAt(tickets, i, server, g);
    var rest := RemoveAt(tickets, i);
    assert forall j | 0 <= j < |rest| :: rest[j] == tickets[if j < i then j else j + 1];
    SumsAgree(rest, server, f, g);
  }

  /** Exactly when a dispatch can be accounted for: after a disciplined run, dispatch one more
      request and then complete everything. The turn sums of all replicas are back at 0 if
      and only if the id dispatched was not outstanding already. */
  lemma DispatchBalancesIff(events: seq<Event>, rid: string, server: string, length: nat)
    requires Disciplined(events) && server in Run(events).ledger.servers
    ensures var t := Run(events);
            var after := Follow(t, Acquire(Some(rid), server, length));
            (forall r :: Gauge(Drain(after.ledger, after.outstanding).replicas, r, InflightTurnSum) == 0)
            <==> !Outstanding(t, rid)
  {
    hide Disciplined, Run, Gauge, Drain, SumOn, RowTurn, Follow, RowsMatch, GaugesMatch, Outstanding;
    var t := Run(events);
    var after := Follow(t, Acquire(Some(rid), server, length));
    forall r ensures Gauge(Drain(after.ledger, after.outstanding).replicas, r, InflightTurnSum)
                     == SumOn(t.outstanding, r, Turn) - SumOn(t.outstanding, r, RowTurn(after.ledger))
    {
      GaugesAreSums(events, r);
      LeftAfterDrain(t, rid, server, length, r);
    }
    GaugesAreSums(events, server);
    if Outstanding(t, rid) {
      var r := LostTurn(t, rid, server, length);
      assert Gauge(Drain(after.ledger, after.outstanding).replicas, r, InflightTurnSum) == -1;
    } else {
      forall r ensures SumOn(t.outstanding, r, Turn) == SumOn(t.outstanding, r, RowTurn(after.ledger)) {
        KeptTurns(t, rid, server, length, r);
      }
    }
  }

  predicate TicketsPositive(tickets: seq<Ticket>) {
    forall i | 0 <= i < |tickets| :: tickets[i].turn >= 1
  }

  /** Turns count up from 1. */
  ghost predicate TurnsPositive(t: Trace) {
    TicketsPositive(t.outstanding) && forall rid | rid in t.ledger.rows :: t.ledger.rows[rid].turn >= 0
  }

  lemma StillPositive(tickets: seq<Ticket>, i: nat)
    requires TicketsPositive(tickets) && i < |tickets|
    ensures TicketsPositive(RemoveAt(tickets, i))
  {
    var rest := RemoveAt(tickets, i);
    assert forall j | 0 <= j < |rest| :: rest[j] == tickets[if j < i then j else j + 1];
  }

  lemma TurnsFollow(t: Trace, e: Event)
    requires TurnsPositive(t)
    ensures TurnsPositive(Follow(t, e))
  {
    hide Apply, AcquireWrites, ReleaseWrites, RemoveAt;
    if e.Release? && FindTicket(t.outstanding, e.rid, e.server).Some? {
      StillPositive(t.outstanding, FindTicket(t.outstanding, e.rid, e.server).value);
    }
  }

  lemma {:induction false} TurnsCountUp(events: seq<Event>)
    ensures TurnsPositive(Run(events))
    decreases |events|
  {
    hide Follow;
    if events != [] {
      TurnsCountUp(events[..|events| - 1]);
      TurnsFollow(Run(events[..|events| - 1]), events[|events| - 1]);
    }
  }

  predicate OutstandingIn(t: Trace, gone: set<string>) {
    exists i | 0 <= i < |t.outstanding| :: t.outstanding[i].rid.Some? && t.outstanding[i].rid.value in gone
  }

  /** Exactly when an eviction is harmless: after a disciplined run, evict any rows and then complete
      everything. The turn sums of all replicas are back at 0 if and only if no evicted row belonged
      to an outstanding request. */
  lemma EvictBalancesIff(events: seq<Event>, gone: set<string>)
    requires Disciplined(events)
    ensures var t := Run(events);
            var after := Follow(t, Evict(gone));
            (forall r :: Gauge(Drain(after.ledger, after.outstanding).replicas, r, InflightTurnSum) == 0)
            <==> !OutstandingIn(t, gone)
  {
    hide Disciplined, Run, Gauge, Drain, SumOn, RowTurn, RowsMatch, GaugesMatch, TurnsPositive, OutstandingIn;
    var t := Run(events);
    var after := Follow(t, Evict(gone));
    GaugesAreSums(events, "");
    TurnsCountUp(events);
    AllIdentified(t);
    forall r ensures Gauge(Drain(after.ledger, after.outstanding).replicas, r, InflightTurnSum)
                     == SumOn(t.outstanding, r, Turn) - SumOn(t.outstanding, r, RowTurn(after.ledger))
    {
      GaugesAreSums(events, r);
      TurnGauge(t, r);
      DrainSubtractsRows(after.ledger, after.outstanding, r);
    }
    if OutstandingIn(t, gone) {
      var r := EvictedTurn(t, gone);
      assert Gauge(Drain(after.ledger, after.outstanding).replicas, r, InflightTurnSum) > 0;
    } else {
      forall r ensures SumOn(t.outstanding, r, Turn) == SumOn(t.outstanding, r, RowTurn(after.ledger)) {
        UnevictedTurns(t, gone, r);
      }
    }
  }

  lemma {:induction false} SumsOrdered(tickets: seq<Ticket>, server: string, f: Ticket -> int, g: Ticket -> int)
    requires forall i | 0 <= i < |tickets| :: f(tickets[i]) >= g(tickets[i])
    ensures SumOn(tickets, server, f) >= SumOn(tickets, server, g)
  {
    if tickets != [] {
      assert f(tickets[0]) >= g(tickets[0]);
      assert forall i | 0 <= i < |tickets[1..]| :: tickets[1..][i] == tickets[i + 1];
      SumsOrdered(tickets[1..], server, f, g);
    }
  }

  /** An evicted row counts no turn when its request completes. */
  lemma EvictedRow(t: Trace, gone: set<string>, i: nat)
    requires RowsMatch(t) && TurnsPositive(t) && i < |t.outstanding|
    ensures var x, turn := t.outstanding[i], RowTurn(Step(t.ledger, Evict(gone)))(t.outstanding[i]);
            x.rid.Some? && x.turn >= 1 && turn == if x.rid.value in gone then 0 else x.turn
  {
  }

  lemma EvictedTurn(t: Trace, gone: set<string>) returns (r: string)
    requires RowsMatch(t) && TurnsPositive(t) && OutstandingIn(t, gone)
    ensures var after := Follow(t, Evict(gone));
            SumOn(t.outstanding, r, Turn) > SumOn(t.outstanding, r, RowTurn(after.ledger))
  {
    hide SumOn, RowsMatch, TurnsPositive, Step, RowTurn;
    var l := Step(t.ledger, Evict(gone));
    var i :| 0 <= i < |t.outstanding| && t.outstanding[i].rid.Some? && t.outstanding[i].rid.value in gone;
    r := t.outstanding[i].server;
    EvictedRow(t, gone, i);
    forall j | 0 <= j < |t.outstanding| ensures Turn(t.outstanding[j]) >= RowTurn(l)(t.outstanding[j]) {
      EvictedRow(t, gone, j);
    }
    SumsStrictlyOrdered(t.outstanding, i, r, Turn, RowTurn(l));
  }

  lemma SumsStrictlyOrdered(tickets: seq<Ticket>, i: nat, server: string, f: Ticket -> int, g: Ticket -> int)
    requires forall j | 0 <= j < |tickets| :: f(tickets[j]) >= g(tickets[j])
    requires i < |tickets| && tickets[i].server == server && f(tickets[i]) > g(tickets[i])
    ensures SumOn(tickets, server, f) > SumOn(tickets, server, g)
  {
    hide SumOn;
    SumRemoveAt(tickets, i, server, f);
    SumRemoveAt(tickets, i, server, g);
    var rest := RemoveAt(tickets, i);
    assert forall j | 0 <= j < |rest| :: rest[j] == tickets[if j < i then j else j + 1];
    SumsOrdered(rest, server, f, g);
  }

  lemma UnevictedTurns(t: Trace, gone: set<string>, r: string)
    requires RowsMatch(t) && !OutstandingIn(t, gone)
    ensures var after := Follow(t, Evict(gone));
            SumOn(t.outstanding, r, Turn) == SumOn(t.outstanding, r, RowTurn(after.ledger))
  {
    var l := Step(t.ledger, Evict(gone));
    hide SumOn;
    forall j | 0 <= j < |t.outstanding| ensures Turn(t.outstanding[j]) == RowTurn(l)(t.outstanding[j]) {
      assert t.outstanding[j].rid.value !in gone;
    }
    SumsAgree(t.outstanding, r, Turn, RowTurn(l));
  }

  /** Only prompts without tokens lost their row. */
  predicate OnlyEmptyIn(t: Trace, gone: set<string>) {
    forall i | 0 <= i < |t.outstanding| && t.outstanding[i].rid.Some? ::
      t.outstanding[i].rid.value in gone ==> t.outstanding[i].length == 0
  }

  /** The same for tokens: the token gauges are back at 0 if and only if every outstanding request whose row
      was evicted has an empty prompt. */
  lemma EvictTokensBalanceIff(events: seq<Event>, gone: set<string>)
    requires Disciplined(events)
    ensures var t := Run(events);
            var after := Follow(t, Evict(gone));
            (forall r :: Gauge(Drain(after.ledger, after.outstanding).replicas, r, InflightTokens) == 0)
            <==> OnlyEmptyIn(t, gone)
  {
    hide Disciplined, Run, Gauge, Drain, SumOn, RowLength, RowsMatch, GaugesMatch, OnlyEmptyIn;
    var t := Run(events);
    var after := Follow(t, Evict(gone));
    GaugesAreSums(events, "");
    AllIdentified(t);
    forall r ensures Gauge(Drain(after.ledger, after.outstanding).replicas, r, InflightTokens)
                     == SumOn(t.outstanding, r, Length) - SumOn(t.outstanding, r, RowLength(after.ledger))
    {
      GaugesAreSums(events, r);
      TurnGauge(t, r);
      DrainSubtractsRows(after.ledger, after.outstanding, r);
    }
    forall i | 0 <= i < |t.outstanding|
      ensures RowLength(after.ledger)(t.outstanding[i])
              == if t.outstanding[i].rid.value in gone then 0 else Length(t.outstanding[i])
    {
      EvictedLength(t, gone, i);
    }
    if OnlyEmptyIn(t, gone) {
      OnlyEmptyMeans(t, gone);
      forall r ensures SumOn(t.outstanding, r, Length) == SumOn(t.outstanding, r, RowLength(after.ledger)) {
        SumsAgree(t.outstanding, r, Length, RowLength(after.ledger));
      }
    } else {
      var i := SomeLengthLost(t, gone);
      SumsStrictlyOrdered(t.outstanding, i, t.outstanding[i].server, Length, RowLength(after.ledger));
      assert Gauge(Drain(after.ledger, after.outstanding).replicas, t.outstanding[i].server, InflightTokens) > 0;
    }
  }

  lemma TurnGauge(t: Trace, r: string)
    requires GaugesMatch(t, r)
    ensures Gauge(t.ledger.replicas, r, InflightTurnSum) == SumOn(t.outstanding, r, Turn)
    ensures Gauge(t.ledger.replicas, r, InflightTokens) == SumOn(t.outstanding, r, Length)
  {
  }

  lemma AllIdentified(t: Trace)
    requires RowsMatch(t)
    ensures forall i | 0 <= i < |t.outstanding| :: t.outstanding[i].rid.Some?
  {
  }

  lemma EvictedLength(t: Trace, gone: set<string>, i: nat)
    requires RowsMatch(t) && i < |t.outstanding| && t.outstanding[i].rid.Some?
    ensures var x := t.outstanding[i];
            RowLength(Step(t.ledger, Evict(gone)))(x) == if x.rid.value in gone then 0 else x.length
  {
  }

  lemma OnlyEmptyMeans(t: Trace, gone: set<string>)
    requires OnlyEmptyIn(t, gone)
    ensures forall i | 0 <= i < |t.outstanding| && t.outstanding[i].rid.Some? ::
              t.outstanding[i].rid.value in gone ==> Length(t.outstanding[i]) == 0
  {
  }

  lemma SomeLengthLost(t: Trace, gone: set<string>) returns (i: nat)
    requires !OnlyEmptyIn(t, gone)
    ensures i < |t.outstanding| && t.outstanding[i].rid.Some? && t.outstanding[i].rid.value in gone
    ensures Length(t.outstanding[i]) > 0
  {
    i :| 0 <= i < |t.outstanding| && t.outstanding[i].rid.Some?
         && t.outstanding[i].rid.value in gone && t.outstanding[i].length != 0;
  }

  lemma LostTurn(t: Trace, rid: string, server: string, length: nat) returns (r: string)
    requires RowsMatch(t) && server in t.ledger.servers && Outstanding(t, rid)
    ensures var after := Follow(t, Acquire(Some(rid), server, length));
            SumOn(t.outstanding, r, Turn) - SumOn(t.outstanding, r, RowTurn(after.ledger)) == -1
  {
    var after := Step(t.ledger, Acquire(Some(rid), server, length));
    var i :| 0 <= i < |t.outstanding| && t.outstanding[i].rid == Some(rid);
    r := t.outstanding[i].server;
    hide Apply, SumOn;
    forall j | 0 <= j < |t.outstanding| && j != i ensures Turn(t.outstanding[j]) == RowTurn(after)(t.outstanding[j]) {
      assert t.outstanding[j].rid != Some(rid);
    }
    SumsDiffer(t.outstanding, i, r, Turn, RowTurn(after));
  }

  lemma KeptTurns(t: Trace, rid: string, server: string, length: nat, r: string)
    requires RowsMatch(t) && server in t.ledger.servers && !Outstanding(t, rid)
    ensures var after := Follow(t, Acquire(Some(rid), server, length));
            SumOn(t.outstanding, r, Turn) == SumOn(t.outstanding, r, RowTurn(after.ledger))
  {
    var after := Step(t.ledger, Acquire(Some(rid), server, length));
    hide Apply, SumOn;
    forall j | 0 <= j < |t.outstanding| ensures Turn(t.outstanding[j]) == RowTurn(after)(t.outstanding[j]) {
      assert t.outstanding[j].rid != Some(rid);
    }
    SumsAgree(t.outstanding, r, Turn, RowTurn(after));
  }

  lemma LeftAfterDrain(t: Trace, rid: string, server: string, length: nat, r: string)
    requires RowsMatch(t) && GaugesMatch(t, r) && server in t.ledger.servers
    ensures var after := Follow(t, Acquire(Some(rid), server, length));
            && Gauge(Drain(after.ledger, after.outstanding).replicas, r, InflightTurnSum)
               == SumOn(t.outstanding, r, Turn) - SumOn(t.outstanding, r, RowTurn(after.ledger))
            && Gauge(Drain(after.ledger, after.outstanding).replicas, r, InflightTokens)
               == SumOn(t.outstanding, r, Length) - SumOn(t.outstanding, r, RowLength(after.ledger))
  {
    var after := Follow(t, Acquire(Some(rid), server, length));
    var ticket := Ticket(Some(rid), server, length, RowFor(t.ledger, Some(rid)).turn + 1);
    assert forall i | 0 <= i < |after.outstanding| :: after.outstanding[i].rid.Some?;
    AcquireEffect(t.ledger, rid, server, length, r);
    assert after.outstanding == t.outstanding + [ticket];
    assert RowTurn(after.ledger)(ticket) == ticket.turn && RowLength(after.ledger)(ticket) == ticket.length;
    hide RowsMatch, Step, Gauge, SumOn, Drain, Follow, RowTurn;
    DrainSubtractsRows(after.ledger, after.outstanding, r);
    SumAppend(t.outstanding, ticket, r, RowTurn(after.ledger));
    SumAppend(t.outstanding, ticket, r, RowLength(after.ledger));
  }

  /** No other request outstanding under the id has another length. */
  predicate SameLength(t: Trace, rid: string, length: nat) {
    forall i | 0 <= i < |t.outstanding| :: t.outstanding[i].rid == Some(rid) ==> t.outstanding[i].length == length
  }

  /** The same for tokens: after one more dispatch and completing everything, the token gauges are back at 0
      if and only if the id was not outstanding or both prompts are equally long. */
  lemma DispatchTokensBalanceIff(events: seq<Event>, rid: string, server: string, length: nat)
    requires Disciplined(events) && server in Run(events).ledger.servers
    ensures var t := Run(events);
            var after := Follow(t, Acquire(Some(rid), server, length));
            (forall r :: Gauge(Drain(after.ledger, after.outstanding).replicas, r, InflightTokens) == 0)
            <==> SameLength(t, rid, length)
  {
    hide Disciplined, Run, Gauge, Drain, SumOn, RowLength, Follow, RowsMatch, GaugesMatch, SameLength;
    var t := Run(events);
    var after := Follow(t, Acquire(Some(rid), server, length));
    forall r ensures Gauge(Drain(after.ledger, after.outstanding).replicas, r, InflightTokens)
                     == SumOn(t.outstanding, r, Length) - SumOn(t.outstanding, r, RowLength(after.ledger))
    {
      GaugesAreSums(events, r);
      LeftAfterDrain(t, rid, server, length, r);
    }
    GaugesAreSums(events, server);
    if SameLength(t, rid, length) {
      forall r ensures SumOn(t.outstanding, r, Length) == SumOn(t.outstanding, r, RowLength(after.ledger)) {
        KeptLengths(t, rid, server, length, r);
      }
    } else {
      var r := ChangedLength(t, rid, server, length);
      assert Gauge(Drain(after.ledger, after.outstanding).replicas, r, InflightTokens) != 0;
    }
  }

  lemma LengthAfterAcquire(t: Trace, rid: string, server: string, length: nat, i: nat)
    requires RowsMatch(t) && server in t.ledger.servers && i < |t.outstanding|
    ensures var x := t.outstanding[i];
            RowLength(Follow(t, Acquire(Some(rid), server, length)).ledger)(x)
            == if x.rid == Some(rid) then length else x.length
  {
    hide Apply;
  }

  lemma KeptLengths(t: Trace, rid: string, server: string, length: nat, r: string)
    requires RowsMatch(t) && server in t.ledger.servers && SameLength(t, rid, length)
    ensures var after := Follow(t, Acquire(Some(rid), server, length));
            SumOn(t.outstanding, r, Length) == SumOn(t.outstanding, r, RowLength(after.ledger))
  {
    hide SumOn, RowsMatch, Follow, RowLength;
    var l := Follow(t, Acquire(Some(rid), server, length)).ledger;
    forall j | 0 <= j < |t.outstanding| ensures Length(t.outstanding[j]) == RowLength(l)(t.outstanding[j]) {
      LengthAfterAcquire(t, rid, server, length, j);
    }
    SumsAgree(t.outstanding, r, Length, RowLength(l));
  }

  lemma ChangedLength(t: Trace, rid: string, server: string, length: nat) returns (r: string)
    requires RowsMatch(t) && server in t.ledger.servers && !SameLength(t, rid, length)
    ensures var after := Follow(t, Acquire(Some(rid), server, length));
            SumOn(t.outstanding, r, Length) != SumOn(t.outstanding, r, RowLength(after.ledger))
  {
    hide SumOn, Follow, RowLength;
    var l := Follow(t, Acquire(Some(rid), server, length)).ledger;
    var i :| 0 <= i < |t.outstanding| && t.outstanding[i].rid == Some(rid) && t.outstanding[i].length != length;
    r := t.outstanding[i].server;
    forall j | 0 <= j < |t.outstanding|
      ensures RowLength(l)(t.outstanding[j]) == if j == i then length else Length(t.outstanding[j])
    {
      LengthAfterAcquire(t, rid, server, length, j);
      assert j != i ==> t.outstanding[j].rid != t.outstanding[i].rid;
    }
    SumsDiffer(t.outstanding, i, r, Length, RowLength(l));
  }

  /** Two overlapping dispatches under one id, whatever came before: once both are completed the
      first one's replica keeps the difference of the two lengths and has lost one turn. */
  lemma OverlapDrifts(l: Ledger, rid: string, a: string, b: string, x: nat, y: nat, server: string)
    requires a in l.servers && b in l.servers
    ensures var after := Step(Step(Step(Step(l, Acquire(Some(rid), a, x)), Acquire(Some(rid), b, y)),
                                   Release(Some(rid), a)), Release(Some(rid), b));
            && Gauge(after.replicas, server, InflightCount) == Gauge(l.replicas, server, InflightCount)
            && Gauge(after.replicas, server, InflightTokens)
               == Gauge(l.replicas, server, InflightTokens) + (if server == a then x - y else 0)
            && Gauge(after.replicas, server, InflightTurnSum)
               == Gauge(l.replicas, server, InflightTurnSum) - (if server == a then 1 else 0)
  {
    hide Step, Gauge, RowOf;
    var l1 := Step(l, Acquire(Some(rid), a, x));
    var l2 := Step(l1, Acquire(Some(rid), b, y));
    var l3 := Step(l2, Release(Some(rid), a));
    AcquireEffect(l, rid, a, x, server);
    AcquireEffect(l1, rid, b, y, server);
    ReleaseEffect(l2, rid, a, server);
    ReleaseEffect(l3, rid, b, server);
  }

  /** A row evicted between dispatch and completion leaves the whole request in the gauges. */
  lemma EvictionDrifts(l: Ledger, rid: string, a: string, x: nat)
    requires a in l.servers
    ensures var after := Step(Step(Step(l, Acquire(Some(rid), a, x)), Evict({rid})), Release(Some(rid), a));
            && Gauge(after.replicas, a, InflightTokens) == Gauge(l.replicas, a, InflightTokens) + x
            && Gauge(after.replicas, a, InflightTurnSum)
               == Gauge(l.replicas, a, InflightTurnSum) + RowOf(l.rows, rid).turn + 1
  {
    var l1 := Step(l, Acquire(Some(rid), a, x));
    var l2 := Step(l1, Evict({rid}));
    assert RowOf(l2.rows, rid) == NO_ROW;
    GaugesMove(l.replicas, a, a, AcquireWrites(Some(rid), RowOf(l.rows, rid), x));
    GaugesMove(l2.replicas, a, a, ReleaseWrites(Some(rid), NO_ROW));
    hide Apply, Gauge;
  }
}
