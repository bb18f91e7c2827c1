/** The objects behind the in-flight accounting: the per-replica table, the collector's fold of
    dispatch and completion into it, and the balancer that triggers both. */
module Balancers {
  import opened Wrappers
  import opened Inflight
  import opened PerRequestStores

  const TURN_KEY := "turn"
  const PROMPT_LEN_KEY := "prompt_len"

  // ------------------------------------------------------------------- per-replica table

  class PerReplicaStore {
    var data: Replicas

    constructor ()
      ensures data == map[]
    {
      data := map[];
    }

    /** Add signed deltas to one replica's row, key by key; returns the new values. */
    method IncrMany(id: string, deltas: Deltas) returns (values: Deltas)
      modifies this
      ensures data == if deltas == map[] then old(data) else Apply(old(data), id, deltas)
      ensures values == Picked(Node(data, id), deltas.Keys)
    {
      if deltas == map[] {
        assert Picked(Node(data, id), {}) == map[];
        return map[];
      }
      var node;
      node, values := AddDeltas(Node(data, id), deltas);
      data := data[id := node];
    }

    /** Overwrite polled gauges; keys and replicas not mentioned stay. */
    method Refresh(polled: map<string, Deltas>) returns (snapshots: map<string, Deltas>)
      modifies this
      ensures snapshots == Merged(old(data), polled, polled.Keys)
      ensures data == old(data) + snapshots
      ensures data.Keys == old(data).Keys + polled.Keys && snapshots.Keys == polled.Keys
      ensures forall id | id in polled :: snapshots[id] == data[id]
      ensures forall id, key | id in polled && key in polled[id] :: Reads(data, id, key) == Some(polled[id][key])
      ensures forall id, key | !(id in polled && key in polled[id]) :: Reads(data, id, key) == Reads(old(data), id, key)
    {
      snapshots := map[];
      var rest := polled.Keys;
      ghost var before, done: set<string> := data, {};
      assert Merged(before, polled, done) == map[];
      hide Merged;
      while rest != {}
        invariant forall id :: id in polled <==> id in rest || id in done
        invariant forall id | id in rest :: id !in done
        invariant snapshots == Merged(before, polled, done)
        invariant data == before + snapshots
        decreases |rest|
      {
        var id :| id in rest;
        MergeOneMore(before, polled, done, id);
        var merged := Node(data, id) + polled[id];
        snapshots, data := snapshots[id := merged], data[id := merged];
        rest, done := rest - {id}, done + {id};
      }
      assert done == polled.Keys;
      MergedReads(before, polled);
    }
  }

  /** What a reader finds under a key of a replica. */
  ghost function Reads(data: Replicas, id: string, key: Metric): Option<int> {
    if id in data && key in data[id] then Some(data[id][key]) else None
  }

  /** The polled keys hold what was polled; every other key and replica reads as before. */
  lemma MergedReads(before: Replicas, polled: map<string, Deltas>)
    ensures var snapshots := Merged(before, polled, polled.Keys);
            var after := before + snapshots;
            && after.Keys == before.Keys + polled.Keys && snapshots.Keys == polled.Keys
            && (forall id | id in polled :: snapshots[id] == after[id])
            && (forall id, key | id in polled && key in polled[id] :: Reads(after, id, key) == Some(polled[id][key]))
            && (forall id, key | !(id in polled && key in polled[id]) :: Reads(after, id, key) == Reads(before, id, key))
  {
  }

  /** The loop over the deltas of one row. */
  method AddDeltas(node: Deltas, deltas: Deltas) returns (sum: Deltas, values: Deltas)
    ensures sum == Merge(node, deltas)
    ensures values == Picked(sum, deltas.Keys)
  {
    sum, values := node, map[];
    var rest := deltas.Keys;
    ghost var done: set<Metric> := {};
    NothingAdded(node, deltas);
    AddedAll(node, deltas);
    hide Added, Picked, Merge, Field;
    while rest != {}
      invariant rest <= deltas.Keys && done == deltas.Keys - rest
      invariant sum == Added(node, deltas, done)
      invariant values == Picked(sum, done)
      decreases |rest|
    {
      var k :| k in rest;
      AddOneMore(node, deltas, done, k);
      var value := Field(sum, k) + deltas[k];
      sum, values := sum[k := value], values[k := value];
      rest, done := rest - {k}, done + {k};
    }
    assert done == deltas.Keys;
  }

  /** `node` with the deltas of the keys in `done` added. */
  ghost function Added(node: Deltas, deltas: Deltas, done: set<Metric>): Deltas {
    map k | k in node.Keys + done :: Field(node, k) + (if k in done then Field(deltas, k) else 0)
  }

  ghost function Picked(node: Deltas, keys: set<Metric>): Deltas {
    map k | k in keys :: Field(node, k)
  }

  lemma NothingAdded(node: Deltas, deltas: Deltas)
    ensures Added(node, deltas, {}) == node && Picked(node, {}) == map[]
  {
  }

  lemma AddOneMore(node: Deltas, deltas: Deltas, done: set<Metric>, k: Metric)
    requires k in deltas && k !in done
    ensures var before := Added(node, deltas, done);
            var value := Field(before, k) + deltas[k];
            && Added(node, deltas, done + {k}) == before[k := value]
            && Picked(before[k := value], done + {k}) == Picked(before, done)[k := value]
  {
  }

  lemma AddedAll(node: Deltas, deltas: Deltas)
    ensures Added(node, deltas, deltas.Keys) == Merge(node, deltas)
  {
  }

  /** The rows of the replicas in `done`, with what was polled on top. */
  ghost function Merged(data: Replicas, polled: map<string, Deltas>, done: set<string>): map<string, Deltas>
  {
    map id | id in done && id in polled :: Node(data, id) + polled[id]
  }

  lemma MergeOneMore(data: Replicas, polled: map<string, Deltas>, done: set<string>, id: string)
    requires id in polled && id !in done
    ensures var before, row := Merged(data, polled, done), Node(data, id) + polled[id];
            && Node(data + before, id) == Node(data, id)
            && Merged(data, polled, done + {id}) == before[id := row]
            && data + before[id := row] == (data + before)[id := row]
  {
    var before, row := Merged(data, polled, done), Node(data, id) + polled[id];
    assert id !in before;
    AddThenUpdate(data, before, id, row);
  }

  lemma AddThenUpdate(a: Replicas, b: Replicas, id: string, row: Deltas)
    ensures a + b[id := row] == (a + b)[id := row]
  {
  }

  // ------------------------------------------------------------------------- collector

  datatype MetricsUpdate = MetricsUpdate(id: string, metrics: Deltas, isDelta: bool, rid: Option<string>)

  function NumberOf(v: Option<Value>): int {
    if v.Some? && v.value.Number? then v.value.n else 0
  }

  function FieldIn(fields: Fields, key: string): Option<Value> {
    if key in fields then Some(fields[key]) else None
  }

  /** A request's row as the accounting sees it. */
  function RowIn(fields: Fields): RequestRow {
    RequestRow(NumberOf(FieldIn(fields, TURN_KEY)), NumberOf(FieldIn(fields, PROMPT_LEN_KEY)))
  }

  ghost function RowsIn(data: Rows): map<string, RequestRow> {
    map rid | rid in data :: RowIn(data[rid])
  }

  /** Only numbers are stored under the accounting keys. */
  predicate NumericFields(fields: Fields) {
    && (TURN_KEY in fields ==> fields[TURN_KEY].Number?)
    && (PROMPT_LEN_KEY in fields ==> fields[PROMPT_LEN_KEY].Number?)
  }

  ghost predicate Numeric(data: Rows) {
    forall rid | rid in data :: NumericFields(data[rid])
  }

  /** What an update adds to its replica, given the request's row. */
  function Writes(u: MetricsUpdate, row: RequestRow): Deltas {
    if u.rid.None? then u.metrics
    else if Dispatched in u.metrics then u.metrics[InflightTurnSum := row.turn + 1]
    else if Completed in u.metrics then u.metrics[InflightTurnSum := -row.turn][InflightTokens := -row.promptLen]
    else u.metrics
  }

  function RowAfter(u: MetricsUpdate, row: RequestRow): RequestRow {
    if Dispatched in u.metrics then RowAfterAcquire(row, Field(u.metrics, InflightTokens)) else row
  }

  function RowForUpdate(data: Rows, rid: Option<string>): RequestRow {
    if rid.Some? then RowIn(FieldsOf(data, rid.value)) else NO_ROW
  }

  lemma FieldsStored(fields: Fields, key: string, n: int)
    requires NumericFields(fields) && key in {TURN_KEY, PROMPT_LEN_KEY}
    ensures var stored := fields[key := Number(n)];
            && NumericFields(stored)
            && RowIn(stored) == (if key == TURN_KEY then RowIn(fields).(turn := n) else RowIn(fields).(promptLen := n))
  {
  }

  lemma RowStored(before: Rows, gone: set<string>, rid: string, fields: Fields)
    requires Numeric(before) && NumericFields(fields)
    ensures Numeric((before - gone)[rid := fields])
    ensures RowsIn((before - gone)[rid := fields]) == (RowsIn(before) - gone)[rid := RowIn(fields)]
  {
    hide NumericFields, RowIn;
  }

  method BumpTurn(requests: PerRequestStore, rid: string) returns (turn: int, ghost gone: set<string>)
    requires requests.Valid() && Numeric(requests.data)
    modifies requests
    ensures requests.Valid() && Numeric(requests.data) && rid !in gone
    ensures var row := RowIn(FieldsOf(old(requests.data), rid));
            && turn == row.turn + 1
            && RowsIn(requests.data) == (RowsIn(old(requests.data)) - gone)[rid := row.(turn := turn)]
            && rid in requests.data && RowIn(requests.data[rid]) == row.(turn := turn)
  {
    ghost var before := requests.data;
    ghost var fields := FieldsOf(before, rid);
    assert NumericFields(fields);
    var r;
    r, gone := requests.Incr(rid, TURN_KEY, 1);
    turn := r.value;
    FieldsStored(fields, TURN_KEY, turn);
    hide NumericFields, RowIn, Numeric, RowsIn, FieldsOf;
    RowStored(before, gone, rid, fields[TURN_KEY := Number(turn)]);
  }

  method StoreLength(requests: PerRequestStore, rid: string, length: int) returns (ghost gone: set<string>)
    requires requests.Valid() && Numeric(requests.data)
    modifies requests
    ensures requests.Valid() && Numeric(requests.data) && rid !in gone
    ensures var row := RowIn(FieldsOf(old(requests.data), rid));
            RowsIn(requests.data) == (RowsIn(old(requests.data)) - gone)[rid := row.(promptLen := length)]
  {
    ghost var before := requests.data;
    ghost var fields := FieldsOf(before, rid);
    assert NumericFields(fields);
    gone := requests.Set(rid, PROMPT_LEN_KEY, Number(length));
    FieldsStored(fields, PROMPT_LEN_KEY, length);
    hide NumericFields, RowIn, Numeric, RowsIn, FieldsOf;
    RowStored(before, gone, rid, fields[PROMPT_LEN_KEY := Number(length)]);
  }

  /** Note the dispatch in the request's row: one turn more, and the prompt's length. */
  method RecordDispatch(requests: PerRequestStore, rid: string, length: int)
    returns (turn: int, ghost gone: set<string>)
    requires requests.Valid() && Numeric(requests.data)
    modifies requests
    ensures requests.Valid() && Numeric(requests.data) && rid !in gone
    ensures var row := RowIn(FieldsOf(old(requests.data), rid));
            && turn == row.turn + 1
            && RowsIn(requests.data) == RowsIn(old(requests.data))[rid := RowAfterAcquire(row, length)] - gone
  {
    hide Numeric, RowsIn, RowIn;
    ghost var before := requests.data;
    ghost var row := RowIn(FieldsOf(before, rid));
    ghost var goneFirst: set<string>;
    turn, goneFirst := BumpTurn(requests, rid);
    ghost var goneThen := StoreLength(requests, rid, length);
    gone := goneFirst + goneThen;
    TwoWrites(RowsIn(before), goneFirst, goneThen, rid, row.(turn := turn), RequestRow(turn, length));
  }

  lemma TwoWrites(rows: map<string, RequestRow>, a: set<string>, b: set<string>, rid: string, first: RequestRow, second: RequestRow)
    requires rid !in a && rid !in b
    ensures ((rows - a)[rid := first] - b)[rid := second] == rows[rid := second] - (a + b)
  {
  }

  /** One delta update: fold the turn and the length in, then write everything at once. */
  method WriteDeltas(replicas: PerReplicaStore, requests: PerRequestStore, u: MetricsUpdate)
    returns (ghost gone: set<string>)
    requires requests.Valid() && Numeric(requests.data)
    modifies replicas, requests
    ensures requests.Valid() && Numeric(requests.data)
    ensures replicas.data == if u.metrics == map[] then old(replicas.data)
                             else Apply(old(replicas.data), u.id, Writes(u, RowForUpdate(old(requests.data), u.rid)))
    ensures RowsIn(requests.data)
            == (if u.rid.Some? && Dispatched in u.metrics then
                  RowsIn(old(requests.data))[u.rid.value := RowAfter(u, RowForUpdate(old(requests.data), u.rid))]
                else RowsIn(old(requests.data))) - gone
    ensures u.rid.Some? ==> u.rid.value !in gone
    ensures Dispatched !in u.metrics ==> gone == {}
  {
    hide Numeric, RowsIn, RowIn, Apply;
    gone := {};
    var deltas := u.metrics;
    if u.rid.Some? && Dispatched in deltas {
      var turn;
      turn, gone := RecordDispatch(requests, u.rid.value, Field(deltas, InflightTokens));
      deltas := deltas[InflightTurnSum := turn];
    } else if u.rid.Some? && Completed in deltas {
      var row := RowIn(FieldsOf(requests.data, u.rid.value));
      deltas := deltas[InflightTurnSum := -row.turn][InflightTokens := -row.promptLen];
    }
    assert deltas == Writes(u, RowForUpdate(old(requests.data), u.rid));
    assert deltas == map[] <==> u.metrics == map[];
    var values := replicas.IncrMany(u.id, deltas);
    assert RowsIn(requests.data) - {} == RowsIn(requests.data);
  }

  // ------------------------------------------------------------------------- balancer

  function Members(ids: seq<string>): set<string> {
    set s | s in ids
  }

  lemma MembersSplit(ids: seq<string>, i: nat)
    requires i < |ids|
    ensures Members(ids[..i + 1]) == Members(ids[..i]) + {ids[i]}
  {
    assert ids[..i + 1] == ids[..i] + [ids[i]];
  }

  lemma WidenOneMore(m: map<string, int>, done: set<string>, s: string)
    requires s !in done
    ensures var before := Widened(m, done);
            Widened(m, done + {s}) == if s in before then before else before[s := 0]
  {
  }

  /** The inflight parser's updates are the model's dispatch and completion. */
  lemma AcquireMeans(l: Ledger, rid: string, server: string, length: nat)
    requires server in l.servers
    ensures var u, row := MetricsUpdate(server, AcquireDeltas(length), true, Some(rid)), RowOf(l.rows, rid);
            && u.metrics != map[] && Dispatched in u.metrics
            && RowAfter(u, row) == RowAfterAcquire(row, length)
            && Step(l, Acquire(Some(rid), server, length))
               == l.(inflight := l.inflight[server := Counter(l.inflight, server) + 1],
                     replicas := Apply(l.replicas, server, Writes(u, row)),
                     rows := l.rows[rid := RowAfter(u, row)])
  {
  }

  lemma ReleaseMeans(l: Ledger, rid: Option<string>, server: string)
    ensures var u := MetricsUpdate(server, RELEASE_DELTAS, true, rid);
            Step(l, Release(rid, server))
            == l.(inflight := if Counter(l.inflight, server) > 0 then l.inflight[server := l.inflight[server] - 1] else l.inflight,
                  replicas := Apply(l.replicas, server, Writes(u, RowFor(l, rid))))
  {
  }

  lemma EvictMeans(l: Ledger, gone: set<string>)
    ensures Step(l, Evict(gone)) == l.(rows := l.rows - gone)
  {
  }

  class Balancer {
    const replicas: PerReplicaStore
    const requests: PerRequestStore
    var servers: set<string>
    var inflight: map<string, int>
    var routeCalls: nat

    constructor (replicas: PerReplicaStore, requests: PerRequestStore)
      ensures this.replicas == replicas && this.requests == requests
      ensures servers == {} && inflight == map[] && routeCalls == 0
    {
      this.replicas, this.requests := replicas, requests;
      servers, inflight, routeCalls := {}, map[], 0;
    }

    /** The three tables together. */
    ghost function Abs(): Ledger
      reads this, replicas, requests
    {
      Ledger(replicas.data, RowsIn(requests.data), servers, inflight)
    }

    ghost predicate Valid()
      reads this, requests
    {
      requests.Valid() && Numeric(requests.data)
    }

    /** Dispatch to the best of the ranking, which the routing strategy made from the pool. */
    method AcquireServer(rid: string, ranking: seq<string>, length: nat) returns (r: Result<string>, ghost gone: set<string>)
      requires Valid() && forall s | s in ranking :: s in servers
      modifies this`inflight, this`routeCalls, replicas, requests
      ensures Valid() && rid !in gone
      ensures r == if ranking == [] then Err(RuntimeFailed) else Ok(ranking[0])
      ensures inflight == if ranking == [] then old(inflight)
                          else old(inflight)[ranking[0] := Counter(old(inflight), ranking[0]) + 1]
      ensures Abs() == if ranking == [] then old(Abs())
                       else Step(Step(old(Abs()), Acquire(Some(rid), ranking[0], length)), Evict(gone))
      ensures routeCalls == old(routeCalls) + 1
    {
      hide Numeric, RowsIn, RowIn, PerRequestStore.Valid, Step;
      routeCalls := routeCalls + 1;
      if ranking == [] {
        return Err(RuntimeFailed), {};
      }
      gone := Dispatch(rid, ranking[0], length);
      r := Ok(ranking[0]);
    }

    /** Count the request on its server and tell the collector. */
    method Dispatch(rid: string, server: string, length: nat) returns (ghost gone: set<string>)
      requires Valid() && server in servers
      modifies this`inflight, replicas, requests
      ensures Valid() && rid !in gone
      ensures inflight == old(inflight)[server := Counter(old(inflight), server) + 1]
      ensures Abs() == Step(Step(old(Abs()), Acquire(Some(rid), server, length)), Evict(gone))
    {
      hide Numeric, RowsIn, RowIn, RowOf, FieldsOf, Apply, Step, Writes, RowAfter, PerRequestStore.Valid;
      hide RowForUpdate, AcquireDeltas;
      ghost var l := Abs();
      RowForDispatch(requests.data, rid);
      AcquireMeans(l, rid, server, length);
      inflight := inflight[server := Counter(inflight, server) + 1];
      gone := WriteDeltas(replicas, requests, MetricsUpdate(server, AcquireDeltas(length), true, Some(rid)));
      EvictMeans(Step(l, Acquire(Some(rid), server, length)), gone);
    }

    /** A completion; one for a server without a counter changes only the gauges. */
    method ReleaseServer(server: string, rid: Option<string>)
      requires Valid()
      modifies this`inflight, replicas, requests
      ensures Valid() && Abs() == Step(old(Abs()), Release(rid, server))
      ensures inflight == if Counter(old(inflight), server) > 0 then old(inflight)[server := old(inflight)[server] - 1]
                          else old(inflight)
    {
      hide Numeric, RowsIn, RowIn, RowOf, FieldsOf, Apply, Step, Writes, PerRequestStore.Valid;
      ghost var l := Abs();
      if rid.Some? {
        RowsLookUp(requests.data, rid.value);
      }
      ReleaseMeans(l, rid, server);
      if Counter(inflight, server) > 0 {
        inflight := inflight[server := inflight[server] - 1];
      }
      assert Completed in RELEASE_DELTAS;
      ghost var gone := WriteDeltas(replicas, requests, MetricsUpdate(server, RELEASE_DELTAS, true, rid));
      assert RowsIn(requests.data) == l.rows - {};
      assert l.rows - {} == l.rows;
    }

    method AddServers(added: set<string>)
      modifies this`servers, this`inflight
      ensures Abs() == Step(old(Abs()), Join(added))
    {
      var rest := added;
      ghost var done: set<string> := {};
      WidenNone(inflight);
      hide Widened, Counter;
      while rest != {}
        invariant forall s :: s in added <==> s in rest || s in done
        invariant forall s | s in rest :: s !in done
        invariant servers == old(servers) + done
        invariant inflight == Widened(old(inflight), done)
        decreases |rest|
      {
        var s :| s in rest;
        WidenOneMore(old(inflight), done, s);
        servers := servers + {s};
        if s !in inflight {
          inflight := inflight[s := 0];
        }
        rest, done := rest - {s}, done + {s};
      }
      assert done == added;
    }

    method RemoveServers(removed: seq<string>)
      modifies this`servers, this`inflight
      ensures Abs() == Step(old(Abs()), Leave(Members(removed)))
    {
      assert Members(removed[..0]) == {};
      hide Members;
      for i := 0 to |removed|
        invariant servers == old(servers) - Members(removed[..i])
        invariant inflight == old(inflight) - Members(removed[..i])
      {
        MembersSplit(removed, i);
        servers := servers - {removed[i]};
        inflight := inflight - {removed[i]};
      }
      assert removed[..|removed|] == removed;
    }

    method GetTotalInflight() returns (total: int)
      ensures total == Total(inflight)
    {
      total := 0;
      var rest := inflight;
      while rest != map[]
        invariant total + Total(rest) == Total(inflight)
        decreases |rest|
      {
        var s :| s in rest;
        TotalWithout(rest, s);
        total := total + rest[s];
        assert (rest - {s}).Keys == rest.Keys - {s};
        rest := rest - {s};
      }
    }
  }

  lemma RowForDispatch(data: Rows, rid: string)
    ensures RowForUpdate(data, Some(rid)) == RowOf(RowsIn(data), rid)
  {
    hide RowIn;
    RowsLookUp(data, rid);
  }

  lemma RowsLookUp(data: Rows, rid: string)
    ensures RowOf(RowsIn(data), rid) == RowIn(FieldsOf(data, rid))
  {
  }
}
