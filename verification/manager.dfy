/** Session placement: the manager's counters and routes and the gateway actors' registries, as the
    lifecycle calls interleave at their awaits. */
module ManagerModel {
  import opened Wrappers

  datatype Stage =
    | Waiting            // sent to the actor, not executed yet
    | Answered(ok: bool) // executed by the actor, answer not seen by the manager yet

  datatype Kind = Create | Finalize | Abort

  /** A lifecycle call between two awaits. */
  datatype Call = Call(kind: Kind, sid: string, gateway: nat, stage: Stage)

  datatype State = State(counters: seq<int>, routes: map<string, nat>, registries: seq<set<string>>,
                         calls: map<nat, Call>)

  datatype Event =
    | Begin(call: nat, kind: Kind, sid: string)
    | Execute(call: nat, refused: bool)
    | End(call: nat)

  /** The lowest index with the smallest counter. */
  function LeastLoaded(counters: seq<int>): (r: nat)
    requires counters != []
    ensures r < |counters|
    ensures forall i | 0 <= i < |counters| :: counters[r] <= counters[i]
    ensures forall i | 0 <= i < r :: counters[r] < counters[i]
  {
    if |counters| == 1 then 0
    else
      var n := |counters| - 1;
      var best := LeastLoaded(counters[..n]);
      if counters[n] < counters[best] then n else best
  }

  function Start(gateways: nat): State {
    State(seq(gateways, _ => 0), map[], seq(gateways, _ => {}), map[])
  }

  function StepBegin(s: State, call: nat, kind: Kind, sid: string): State {
    if call in s.calls || s.counters == [] then s
    else if kind == Create then
      var g := LeastLoaded(s.counters);
      s.(routes := s.routes[sid := g], counters := s.counters[g := s.counters[g] + 1],
         calls := s.calls[call := Call(Create, sid, g, Waiting)])
    else if sid !in s.routes then s
    else s.(calls := s.calls[call := Call(kind, sid, s.routes[sid], Waiting)])
  }

  /** The actor's answer and its registry afterwards. `refused` stands for every other reason
      the session itself or the actor raises. An abort of an unknown session succeeds. */
  function Actor(kind: Kind, sessions: set<string>, sid: string, refused: bool): (bool, set<string>) {
    match kind
    case Create => if sid in sessions || refused then (false, sessions) else (true, sessions + {sid})
    case Finalize => if sid !in sessions || refused then (false, sessions) else (true, sessions - {sid})
    case Abort => if sid !in sessions then (true, sessions) else if refused then (false, sessions) else (true, sessions - {sid})
  }

  function StepExecute(s: State, call: nat, refused: bool): State {
    if call !in s.calls || !s.calls[call].stage.Waiting? || s.calls[call].gateway >= |s.registries| then s
    else
      var c := s.calls[call];
      var (ok, sessions) := Actor(c.kind, s.registries[c.gateway], c.sid, refused);
      s.(registries := s.registries[c.gateway := sessions], calls := s.calls[call := c.(stage := Answered(ok))])
  }

  /** A failed create and a successful finalize or abort release the slot. */
  predicate Releases(c: Call) {
    c.stage.Answered? && (c.kind == Create <==> !c.stage.ok)
  }

  function StepEnd(s: State, call: nat): State {
    if call !in s.calls || s.calls[call].stage.Waiting? then s
    else
      var c := s.calls[call];
      var rest := s.(calls := s.calls - {call});
      if Releases(c) && c.gateway < |s.counters| then
        rest.(routes := s.routes - {c.sid}, counters := s.counters[c.gateway := s.counters[c.gateway] - 1])
      else rest
  }

  function Step(s: State, e: Event): State {
    match e
    case Begin(call, kind, sid) => StepBegin(s, call, kind, sid)
    case Execute(call, refused) => StepExecute(s, call, refused)
    case End(call) => StepEnd(s, call)
  }

  /** The state that a run of events leads to. */
  function After(s: State, events: seq<Event>): State {
    if events == [] then s else Step(After(s, events[..|events| - 1]), events[|events| - 1])
  }

  function Run(gateways: nat, events: seq<Event>): State {
    After(Start(gateways), events)
  }

  lemma AfterOneMore(s: State, events: seq<Event>, e: Event)
    ensures After(s, events + [e]) == Step(After(s, events), e)
  {
    assert (events + [e])[..|events + [e]| - 1] == events;
  }

  // ------------------------------------------------------------------------ agreement

  function RoutedTo(routes: map<string, nat>, g: nat): set<string> {
    set sid | sid in routes && routes[sid] == g
  }

  type Calls = map<nat, Call>
  type Routes = map<string, nat>
  type Registries = seq<set<string>>

  /** Each gateway's counter is the number of sessions routed to it. */
  ghost predicate CountersAgree(counters: seq<int>, routes: Routes) {
    forall g | 0 <= g < |counters| :: counters[g] == |RoutedTo(routes, g)|
  }

  predicate Busy(calls: Calls, sid: string) {
    exists c :: c in calls && calls[c].sid == sid
  }

  /** One lifecycle call in flight per session, and creates only for ids that are not routed. */
  predicate Proper(s: State, e: Event) {
    e.Begin? ==> !Busy(s.calls, e.sid) && (e.kind == Create ==> e.sid !in s.routes)
  }

  predicate Disciplined(gateways: nat, events: seq<Event>) {
    events == []
    || (Disciplined(gateways, events[..|events| - 1])
        && Proper(Run(gateways, events[..|events| - 1]), events[|events| - 1]))
  }

  /** Where a session is, given the call in flight for it. */
  ghost predicate Placed(routes: Routes, registries: Registries, c: Call) {
    && c.gateway < |registries| && c.sid in routes && routes[c.sid] == c.gateway
    && (c.sid in registries[c.gateway] <==>
          if c.kind == Create then c.stage.Answered? && c.stage.ok else c.stage.Waiting? || !c.stage.ok)
  }

  ghost predicate OneEach(calls: Calls) {
    forall c, d | c in calls && d in calls && c != d :: calls[c].sid != calls[d].sid
  }

  ghost predicate AllPlaced(calls: Calls, routes: Routes, registries: Registries) {
    forall c | c in calls :: Placed(routes, registries, calls[c])
  }

  ghost predicate OnlyRouted(routes: Routes, registries: Registries) {
    forall g, sid | 0 <= g < |registries| && sid in registries[g] :: sid in routes && routes[sid] == g
  }

  ghost predicate IdleRegistered(calls: Calls, routes: Routes, registries: Registries) {
    forall sid | sid in routes :: routes[sid] < |registries| && (Busy(calls, sid) || sid in registries[routes[sid]])
  }

  ghost predicate Consistent(s: State) {
    && |s.registries| == |s.counters| && CountersAgree(s.counters, s.routes)
    && OneEach(s.calls) && AllPlaced(s.calls, s.routes, s.registries)
    && OnlyRouted(s.routes, s.registries) && IdleRegistered(s.calls, s.routes, s.registries)
  }

  lemma RoutedAfterAdd(routes: Routes, sid: string, g: nat, i: nat)
    requires sid !in routes
    ensures |RoutedTo(routes[sid := g], i)| == |RoutedTo(routes, i)| + (if i == g then 1 else 0)
  {
    assert RoutedTo(routes[sid := g], i) == if i == g then RoutedTo(routes, i) + {sid} else RoutedTo(routes, i);
  }

  lemma RoutedAfterRemove(routes: Routes, sid: string, i: nat)
    requires sid in routes
    ensures |RoutedTo(routes - {sid}, i)| == |RoutedTo(routes, i)| - (if i == routes[sid] then 1 else 0)
  {
    assert RoutedTo(routes - {sid}, i) == if i == routes[sid] then RoutedTo(routes, i) - {sid} else RoutedTo(routes, i);
  }

  lemma AgreeAfterAdd(counters: seq<int>, routes: Routes, sid: string, g: nat)
    requires CountersAgree(counters, routes) && sid !in routes && g < |counters|
    ensures CountersAgree(counters[g := counters[g] + 1], routes[sid := g])
  {
    hide RoutedTo;
    forall i: nat ensures |RoutedTo(routes[sid := g], i)| == |RoutedTo(routes, i)| + (if i == g then 1 else 0) {
      RoutedAfterAdd(routes, sid, g, i);
    }
  }

  lemma AgreeAfterRemove(counters: seq<int>, routes: Routes, sid: string)
    requires CountersAgree(counters, routes) && sid in routes && routes[sid] < |counters|
    ensures CountersAgree(counters[routes[sid] := counters[routes[sid]] - 1], routes - {sid})
  {
    hide RoutedTo;
    forall i: nat ensures |RoutedTo(routes - {sid}, i)| == |RoutedTo(routes, i)| - (if i == routes[sid] then 1 else 0) {
      RoutedAfterRemove(routes, sid, i);
    }
  }

  lemma BusyAfter(calls: Calls, k: nat, c: Call, sid: string)
    requires k in calls ==> calls[k].sid == c.sid
    ensures Busy(calls[k := c], sid) <==> sid == c.sid || Busy(calls, sid)
  {
    var calls' := calls[k := c];
    assert calls'[k].sid == c.sid;
    if Busy(calls, sid) {
      var d :| d in calls && calls[d].sid == sid;
      assert d in calls' && calls'[d].sid == sid;
    }
  }

  lemma BusyWithout(calls: Calls, k: nat, sid: string)
    requires OneEach(calls) && k in calls
    ensures Busy(calls - {k}, sid) <==> Busy(calls, sid) && sid != calls[k].sid
  {
    if Busy(calls, sid) && sid != calls[k].sid {
      var d :| d in calls && calls[d].sid == sid;
      assert d in calls - {k} && (calls - {k})[d].sid == sid;
    }
  }

  lemma BeginCreateKeeps(calls: Calls, routes: Routes, registries: Registries, k: nat, sid: string, g: nat)
    requires OneEach(calls) && AllPlaced(calls, routes, registries)
    requires OnlyRouted(routes, registries) && IdleRegistered(calls, routes, registries)
    requires !Busy(calls, sid) && sid !in routes && k !in calls && g < |registries|
    ensures var calls', routes' := calls[k := Call(Create, sid, g, Waiting)], routes[sid := g];
            OneEach(calls') && AllPlaced(calls', routes', registries)
            && OnlyRouted(routes', registries) && IdleRegistered(calls', routes', registries)
  {
    forall q ensures Busy(calls[k := Call(Create, sid, g, Waiting)], q) <==> q == sid || Busy(calls, q) {
      BusyAfter(calls, k, Call(Create, sid, g, Waiting), q);
    }
  }

  lemma BeginEndKeeps(calls: Calls, routes: Routes, registries: Registries, k: nat, c: Call)
    requires OneEach(calls) && AllPlaced(calls, routes, registries) && IdleRegistered(calls, routes, registries)
    requires !Busy(calls, c.sid) && c.sid in routes && k !in calls
    requires c.kind != Create && c.stage.Waiting? && c.gateway == routes[c.sid]
    ensures OneEach(calls[k := c]) && AllPlaced(calls[k := c], routes, registries)
            && IdleRegistered(calls[k := c], routes, registries)
  {
    forall q ensures Busy(calls[k := c], q) <==> q == c.sid || Busy(calls, q) {
      BusyAfter(calls, k, c, q);
    }
  }

  lemma BeginKeeps(s: State, call: nat, kind: Kind, sid: string)
    requires Consistent(s) && Proper(s, Begin(call, kind, sid))
    ensures Consistent(StepBegin(s, call, kind, sid))
  {
    hide CountersAgree, OneEach, AllPlaced, OnlyRouted, IdleRegistered, Busy;
    if call !in s.calls && s.counters != [] {
      if kind == Create {
        BeginCreateKeeps(s.calls, s.routes, s.registries, call, sid, LeastLoaded(s.counters));
        AgreeAfterAdd(s.counters, s.routes, sid, LeastLoaded(s.counters));
      } else if sid in s.routes {
        BeginEndKeeps(s.calls, s.routes, s.registries, call, Call(kind, sid, s.routes[sid], Waiting));
      }
    }
  }

  lemma ExecuteKeepsParts(calls: Calls, routes: Routes, registries: Registries, k: nat, refused: bool)
    requires OneEach(calls) && AllPlaced(calls, routes, registries)
    requires OnlyRouted(routes, registries) && IdleRegistered(calls, routes, registries)
    requires k in calls && calls[k].stage.Waiting? && calls[k].gateway < |registries|
    ensures var c := calls[k];
            var (ok, sessions) := Actor(c.kind, registries[c.gateway], c.sid, refused);
            var calls', registries' := calls[k := c.(stage := Answered(ok))], registries[c.gateway := sessions];
            OneEach(calls') && AllPlaced(calls', routes, registries')
            && OnlyRouted(routes, registries') && IdleRegistered(calls', routes, registries')
  {
    var c := calls[k];
    var (ok, sessions) := Actor(c.kind, registries[c.gateway], c.sid, refused);
    assert Placed(routes, registries, c);
    var calls', registries' := calls[k := c.(stage := Answered(ok))], registries[c.gateway := sessions];
    assert forall q | q != c.sid :: q in sessions <==> q in registries[c.gateway];
    assert c.sid in sessions ==> c.sid in routes && routes[c.sid] == c.gateway;
    assert Placed(routes, registries', calls'[k]);
    hide Actor;
    assert Busy(calls, c.sid);
    OthersStay(calls, routes, registries, registries', k, calls'[k]);
    forall q ensures Busy(calls', q) <==> q == c.sid || Busy(calls, q) {
      BusyAfter(calls, k, calls'[k], q);
    }
    hide Busy, Placed;
  }

  /** Other requests do not see one session move in or out of a registry. */
  lemma OthersStay(calls: Calls, routes: Routes, registries: Registries, registries': Registries, k: nat, c: Call)
    requires OneEach(calls) && AllPlaced(calls, routes, registries) && k in calls && calls[k].sid == c.sid
    requires Placed(routes, registries', c) && |registries'| == |registries|
    requires forall g, q | 0 <= g < |registries| && q != c.sid :: q in registries'[g] <==> q in registries[g]
    ensures OneEach(calls[k := c]) && AllPlaced(calls[k := c], routes, registries')
  {
    forall d | d in calls[k := c] && d != k ensures Placed(routes, registries', calls[d]) {
      assert Placed(routes, registries, calls[d]) && calls[d].sid != c.sid;
    }
  }

  lemma ExecuteKeeps(s: State, call: nat, refused: bool)
    requires Consistent(s)
    ensures Consistent(StepExecute(s, call, refused))
  {
    hide CountersAgree, OneEach, AllPlaced, OnlyRouted, IdleRegistered, Busy, Actor;
    if call in s.calls && s.calls[call].stage.Waiting? && s.calls[call].gateway < |s.registries| {
      ExecuteKeepsParts(s.calls, s.routes, s.registries, call, refused);
    }
  }

  lemma EndKeepsParts(calls: Calls, routes: Routes, registries: Registries, k: nat)
    requires OneEach(calls) && AllPlaced(calls, routes, registries)
    requires OnlyRouted(routes, registries) && IdleRegistered(calls, routes, registries)
    requires k in calls && calls[k].stage.Answered?
    ensures var calls' := calls - {k};
            var routes' := if Releases(calls[k]) then routes - {calls[k].sid} else routes;
            OneEach(calls') && AllPlaced(calls', routes', registries)
            && OnlyRouted(routes', registries) && IdleRegistered(calls', routes', registries)
  {
    var c, calls' := calls[k], calls - {k};
    var routes' := if Releases(c) then routes - {c.sid} else routes;
    assert Placed(routes, registries, c);
    forall q ensures Busy(calls', q) <==> Busy(calls, q) && q != c.sid {
      BusyWithout(calls, k, q);
    }
    hide Busy;
    forall d | d in calls' ensures Placed(routes', registries, calls'[d]) {
      assert Placed(routes, registries, calls[d]) && calls[d].sid != c.sid;
    }
  }

  lemma EndKeeps(s: State, call: nat)
    requires Consistent(s)
    ensures Consistent(StepEnd(s, call))
  {
    hide CountersAgree, OneEach, OnlyRouted, IdleRegistered, Busy;
    if call in s.calls && s.calls[call].stage.Answered? {
      var c := s.calls[call];
      assert Placed(s.routes, s.registries, c);
      EndKeepsParts(s.calls, s.routes, s.registries, call);
      hide AllPlaced;
      if Releases(c) {
        AgreeAfterRemove(s.counters, s.routes, c.sid);
      }
    }
  }

  lemma StartConsistent(gateways: nat)
    ensures Consistent(Start(gateways))
  {
    forall g: nat ensures RoutedTo(map[], g) == {} {
    }
  }

  /** With no call in flight each registry is exactly its routed sessions. */
  lemma QuiescentRegistries(s: State)
    requires Consistent(s) && s.calls == map[]
    ensures forall g | 0 <= g < |s.registries| :: s.registries[g] == RoutedTo(s.routes, g)
  {
    assert forall sid :: !Busy(s.calls, sid);
    forall g | 0 <= g < |s.registries| ensures s.registries[g] == RoutedTo(s.routes, g) {
    }
  }

  /** At every await point of every disciplined run each counter is the number of sessions routed
      to its gateway; with no call in flight each registry is exactly its routed sessions. */
  lemma {:induction false} CountersAlwaysAgree(gateways: nat, events: seq<Event>)
    requires Disciplined(gateways, events)
    ensures Consistent(Run(gateways, events))
    ensures var s := Run(gateways, events);
            && CountersAgree(s.counters, s.routes)
            && (s.calls == map[] ==>
                  |s.registries| == |s.counters|
                  && forall g | 0 <= g < |s.registries| :: s.registries[g] == RoutedTo(s.routes, g))
    decreases |events|
  {
    hide CountersAgree, OneEach, AllPlaced, OnlyRouted, IdleRegistered, Busy;
    if events == [] {
      StartConsistent(gateways);
    } else {
      var before := events[..|events| - 1];
      CountersAlwaysAgree(gateways, before);
      hide Consistent, StepBegin, StepExecute, StepEnd;
      match events[|events| - 1] {
        case Begin(call, kind, sid) => BeginKeeps(Run(gateways, before), call, kind, sid);
        case Execute(call, refused) => ExecuteKeeps(Run(gateways, before), call, refused);
        case End(call) => EndKeeps(Run(gateways, before), call);
      }
    }
    if Run(gateways, events).calls == map[] {
      QuiescentRegistries(Run(gateways, events));
    }
    ConsistentAgrees(Run(gateways, events));
  }

  lemma ConsistentAgrees(s: State)
    requires Consistent(s)
    ensures |s.registries| == |s.counters| && CountersAgree(s.counters, s.routes)
  {
  }

  /** Exactly when the end of a call keeps the counters right: a call that releases its slot must find
      its session still routed, and to the gateway it was sent to. Otherwise that gateway counts one
      session too few, and one the session was routed to meanwhile counts one too many. */
  lemma EndKeepsCountersIff(s: State, call: nat)
    requires CountersAgree(s.counters, s.routes) && call in s.calls && Releases(s.calls[call])
    requires s.calls[call].gateway < |s.counters|
    ensures var c, s' := s.calls[call], StepEnd(s, call);
            && |s'.counters| == |s.counters|
            && (CountersAgree(s'.counters, s'.routes) <==> c.sid in s.routes && s.routes[c.sid] == c.gateway)
            && (!CountersAgree(s'.counters, s'.routes) ==>
                  s'.counters[c.gateway] == |RoutedTo(s'.routes, c.gateway)| - 1)
            && (c.sid in s.routes && s.routes[c.sid] != c.gateway && s.routes[c.sid] < |s.counters| ==>
                  s'.counters[s.routes[c.sid]] == |RoutedTo(s'.routes, s.routes[c.sid])| + 1)
  {
    var c := s.calls[call];
    if c.sid !in s.routes {
      assert s.routes - {c.sid} == s.routes;
    } else if s.routes[c.sid] == c.gateway {
      AgreeAfterRemove(s.counters, s.routes, c.sid);
    } else {
      RoutedAfterRemove(s.routes, c.sid, c.gateway);
      RoutedAfterRemove(s.routes, c.sid, s.routes[c.sid]);
    }
  }

  /** A create adds a slot for an id that has none, and a call that gives its slot back finds its session
      routed to the gateway it went to. */
  predicate KeepsBooks(s: State, e: Event) {
    match e
    case Begin(call, kind, sid) => kind == Create && call !in s.calls && s.counters != [] ==> sid !in s.routes
    case Execute(_, _) => true
    case End(call) =>
      call in s.calls && Releases(s.calls[call]) ==>
        s.calls[call].sid in s.routes && s.routes[s.calls[call].sid] == s.calls[call].gateway
  }

  /** Calls and routes name gateways there are. */
  ghost predicate InRange(s: State) {
    && (forall sid | sid in s.routes :: s.routes[sid] < |s.counters|)
    && (forall c | c in s.calls :: s.calls[c].gateway < |s.counters|)
  }

  lemma StepInRange(s: State, e: Event)
    requires InRange(s)
    ensures InRange(Step(s, e)) && |Step(s, e).counters| == |s.counters|
  {
    hide Actor;
  }

  /** A create of a routed id counts a second slot for it. */
  lemma CreateOfRouted(counters: seq<int>, routes: Routes, sid: string, g: nat)
    requires CountersAgree(counters, routes) && sid in routes && routes[sid] < |counters| && g < |counters|
    ensures !CountersAgree(counters[g := counters[g] + 1], routes[sid := g])
  {
    var was := routes[sid];
    assert counters[was] == |RoutedTo(routes, was)|;
    if was == g {
      assert RoutedTo(routes[sid := g], g) == RoutedTo(routes, g);
    } else {
      assert RoutedTo(routes[sid := g], was) == RoutedTo(routes, was) - {sid};
    }
    assert counters[g := counters[g] + 1][was] != |RoutedTo(routes[sid := g], was)|;
  }

  /** Exactly which steps keep the counters right. */
  lemma StepAgreesIff(s: State, e: Event)
    requires CountersAgree(s.counters, s.routes) && InRange(s)
    ensures CountersAgree(Step(s, e).counters, Step(s, e).routes) <==> KeepsBooks(s, e)
  {
    hide CountersAgree, Actor, LeastLoaded;
    match e
    case Begin(call, kind, sid) =>
      if kind == Create && call !in s.calls && s.counters != [] {
        if sid in s.routes {
          CreateOfRouted(s.counters, s.routes, sid, LeastLoaded(s.counters));
        } else {
          AgreeAfterAdd(s.counters, s.routes, sid, LeastLoaded(s.counters));
        }
      }
    case Execute(_, _) =>
    case End(call) =>
      if call in s.calls && Releases(s.calls[call]) {
        EndKeepsCountersIff(s, call);
      }
  }

  /** The counters are right at every await of a run. */
  ghost predicate AgreesThroughout(s: State, events: seq<Event>) {
    && CountersAgree(After(s, events).counters, After(s, events).routes)
    && (events == [] || AgreesThroughout(s, events[..|events| - 1]))
  }

  predicate AllKeepBooks(s: State, events: seq<Event>) {
    events == []
    || (AllKeepBooks(s, events[..|events| - 1]) && KeepsBooks(After(s, events[..|events| - 1]), events[|events| - 1]))
  }

  lemma {:induction false} RunInRange(s: State, events: seq<Event>)
    requires InRange(s)
    ensures InRange(After(s, events))
    decreases |events|
  {
    hide InRange, Step;
    if events != [] {
      RunInRange(s, events[..|events| - 1]);
      StepInRange(After(s, events[..|events| - 1]), events[|events| - 1]);
    }
  }

  /** Exactly when every counter is, at every await of a run, the number of sessions routed to its gateway,
      whatever calls the run begins and however their answers interleave. */
  lemma {:induction false} AgreesThroughoutIff(s: State, events: seq<Event>)
    requires CountersAgree(s.counters, s.routes) && InRange(s)
    ensures AgreesThroughout(s, events) <==> AllKeepBooks(s, events)
    decreases |events|
  {
    hide CountersAgree, InRange, KeepsBooks, Step;
    if events != [] {
      var n := |events| - 1;
      AgreesThroughoutIff(s, events[..n]);
      if AgreesThroughout(s, events[..n]) {
        RunInRange(s, events[..n]);
        StepAgreesIff(After(s, events[..n]), events[n]);
      }
    }
  }

  /** From the start in particular. */
  lemma RunAgreesIff(gateways: nat, events: seq<Event>)
    ensures AgreesThroughout(Start(gateways), events) <==> AllKeepBooks(Start(gateways), events)
  {
    hide AgreesThroughout, AllKeepBooks;
    StartConsistent(gateways);
    AgreesThroughoutIff(Start(gateways), events);
  }

  /** Creating one id twice: a gateway counts a session it does not have before any call has ended. */
  lemma SecondCreateDrifts()
    ensures var s := Run(2, [] + [Begin(1, Create, "a")] + [Begin(2, Create, "a")]);
            s.counters == [1, 1] && s.routes == map["a" := 1]
  {
    AfterOneMore(Start(2), [], Begin(1, Create, "a"));
    AfterOneMore(Start(2), [] + [Begin(1, Create, "a")], Begin(2, Create, "a"));
    assert After(Start(2), []) == Start(2);
    hide After;
    assert LeastLoaded([0, 0]) == 0 && LeastLoaded([1, 0]) == 1;
    var one := Step(Start(2), Begin(1, Create, "a"));
    assert one.counters == [1, 0];
  }

  /** Two overlapping aborts of one session, from any consistent state: both succeed, because an
      abort of an unknown session does, and the counter ends up one below the routes. */
  lemma OverlappingAborts(s: State, sid: string, a: nat, b: nat)
    requires Consistent(s) && sid in s.routes && !Busy(s.calls, sid)
    requires a !in s.calls && b !in s.calls && a != b
    ensures var g := s.routes[sid];
            var begun := Step(Step(s, Begin(a, Abort, sid)), Begin(b, Abort, sid));
            var done := Step(Step(Step(Step(begun, Execute(a, false)), Execute(b, false)), End(a)), End(b));
            && g < |done.counters| && sid !in done.routes
            && done.counters[g] == |RoutedTo(done.routes, g)| - 1
  {
    var g := s.routes[sid];
    assert sid in s.registries[g];
    var begun := Step(Step(s, Begin(a, Abort, sid)), Begin(b, Abort, sid));
    assert begun == s.(calls := s.calls[a := Call(Abort, sid, g, Waiting)][b := Call(Abort, sid, g, Waiting)]);
    var both := Step(Step(begun, Execute(a, false)), Execute(b, false));
    assert both.calls[a] == both.calls[b] == Call(Abort, sid, g, Answered(true));
    assert both.routes == s.routes && both.counters == s.counters;
    assert CountersAgree(s.counters, s.routes) && g < |s.counters|;
    hide Consistent, StepBegin, StepExecute;
    BothEnd(both, a, b);
  }

  lemma BothEnd(s: State, a: nat, b: nat)
    requires a in s.calls && b in s.calls && a != b && s.calls[a] == s.calls[b] && Releases(s.calls[a])
    requires var c := s.calls[a]; c.sid in s.routes && s.routes[c.sid] == c.gateway < |s.counters|
    requires CountersAgree(s.counters, s.routes)
    ensures var c, done := s.calls[a], Step(Step(s, End(a)), End(b));
            && |done.counters| == |s.counters| && c.sid !in done.routes
            && done.counters[c.gateway] == |RoutedTo(done.routes, c.gateway)| - 1
  {
    var c := s.calls[a];
    AgreeAfterRemove(s.counters, s.routes, c.sid);
    var one := Step(s, End(a));
    assert one.routes == s.routes - {c.sid} && one.calls[b] == c;
    assert one.routes - {c.sid} == one.routes;
    hide RoutedTo;
  }

  /** The state in which two aborts of "a" were answered and one has ended, in a pool of two. */
  const HALF_ABORTED := State([0, 0], map[], [{}, {}], map[3 := Call(Abort, "a", 0, Answered(true))])

  lemma HalfAbortedIsReached()
    ensures After(Start(2), [] + [Begin(1, Create, "a")] + [Execute(1, false)] + [End(1)] + [Begin(2, Abort, "a")]
                            + [Begin(3, Abort, "a")] + [Execute(2, false)] + [Execute(3, false)] + [End(2)])
            == HALF_ABORTED
  {
    var create := [] + [Begin(1, Create, "a")] + [Execute(1, false)] + [End(1)];
    AfterOneMore(Start(2), [], Begin(1, Create, "a"));
    AfterOneMore(Start(2), [] + [Begin(1, Create, "a")], Execute(1, false));
    AfterOneMore(Start(2), [] + [Begin(1, Create, "a")] + [Execute(1, false)], End(1));
    AfterOneMore(Start(2), create, Begin(2, Abort, "a"));
    AfterOneMore(Start(2), create + [Begin(2, Abort, "a")], Begin(3, Abort, "a"));
    AfterOneMore(Start(2), create + [Begin(2, Abort, "a")] + [Begin(3, Abort, "a")], Execute(2, false));
    AfterOneMore(Start(2), create + [Begin(2, Abort, "a")] + [Begin(3, Abort, "a")] + [Execute(2, false)], Execute(3, false));
    AfterOneMore(Start(2), create + [Begin(2, Abort, "a")] + [Begin(3, Abort, "a")] + [Execute(2, false)]
                           + [Execute(3, false)], End(2));
    assert After(Start(2), []) == Start(2);
    hide After;
    OneCreated();
    TwoAborts();
  }

  lemma OneCreated()
    ensures Step(Step(Step(Start(2), Begin(1, Create, "a")), Execute(1, false)), End(1))
            == State([1, 0], map["a" := 0], [{"a"}, {}], map[])
  {
    assert LeastLoaded([0, 0]) == 0;
    hide LeastLoaded;
    var begun := Step(Start(2), Begin(1, Create, "a"));
    assert begun == State([1, 0], map["a" := 0], [{}, {}], map[1 := Call(Create, "a", 0, Waiting)]);
    var done := Step(begun, Execute(1, false));
    assert Actor(Create, {}, "a", false) == (true, {} + {"a"}) && {} + {"a"} == {"a"};
    var none: Registries := [{}, {}];
    assert none[0 := {"a"}] == [{"a"}, {}];
    assert done.calls == map[1 := Call(Create, "a", 0, Answered(true))];
    assert done.calls - {1} == map[];
  }

  lemma TwoAborts()
    ensures var s := State([1, 0], map["a" := 0], [{"a"}, {}], map[]);
            Step(Step(Step(Step(Step(s, Begin(2, Abort, "a")), Begin(3, Abort, "a")), Execute(2, false)), Execute(3, false)), End(2))
            == HALF_ABORTED
  {
    var s := State([1, 0], map["a" := 0], [{"a"}, {}], map[]);
    var begun := Step(Step(s, Begin(2, Abort, "a")), Begin(3, Abort, "a"));
    assert begun == s.(calls := map[2 := Call(Abort, "a", 0, Waiting), 3 := Call(Abort, "a", 0, Waiting)]);
    var both := Step(Step(begun, Execute(2, false)), Execute(3, false));
    BothAnswered();
    assert both.calls == map[2 := Call(Abort, "a", 0, Answered(true)), 3 := Call(Abort, "a", 0, Answered(true))];
    var none: Routes := map[];
    assert s.routes - {"a"} == none;
    assert both.calls - {2} == map[3 := Call(Abort, "a", 0, Answered(true))];
  }

  lemma BothAnswered()
    ensures var calls := map[2 := Call(Abort, "a", 0, Waiting), 3 := Call(Abort, "a", 0, Waiting)];
            var s := State([1, 0], map["a" := 0], [{"a"}, {}], calls);
            Step(Step(s, Execute(2, false)), Execute(3, false)).registries == [{}, {}]
  {
    assert {"a"} - {"a"} == {};
    var one: Registries := [{"a"}, {}];
    assert one[0 := {}] == [{}, {}];
  }

  /** If "a" is created anew meanwhile and placed on the other gateway, the abort that ends late takes away
      the new session's route and a slot of a gateway it is not on. */
  lemma LateAbortTakesTheNewRoute()
    ensures var late := Step(Step(Step(HALF_ABORTED, Begin(4, Create, "b")), Begin(5, Create, "a")), End(3));
            late.counters == [0, 1] && late.routes == map["b" := 0]
  {
    assert LeastLoaded([0, 0]) == 0 && LeastLoaded([1, 0]) == 1;
    hide LeastLoaded;
    var one := Step(HALF_ABORTED, Begin(4, Create, "b"));
    assert one.counters == [1, 0] && one.routes == map["b" := 0];
    var two := Step(one, Begin(5, Create, "a"));
    assert two.counters == [1, 1] && two.routes == map["b" := 0, "a" := 1];
    assert two.routes - {"a"} == map["b" := 0];
    assert two.calls[3] == HALF_ABORTED.calls[3];
  }

  // ------------------------------------------------------------------------- balance

  /** No two counters differ by more than `d`. */
  predicate Within(counters: seq<int>, d: nat) {
    forall i, j | 0 <= i < |counters| && 0 <= j < |counters| :: counters[i] - counters[j] <= d
  }

  /** Creates never spread the load further than it is, or than one. */
  lemma CreateNeverSpreads(s: State, call: nat, sid: string, d: nat)
    requires Within(s.counters, d) && 1 <= d
    ensures Within(StepBegin(s, call, Create, sid).counters, d)
  {
  }

  /** A call that gives its slot back gives it back to a gateway with the most sessions. */
  predicate AtTop(s: State, e: Event) {
    e.End? && e.call in s.calls && Releases(s.calls[e.call]) && s.calls[e.call].gateway < |s.counters| ==>
      forall i | 0 <= i < |s.counters| :: s.counters[i] <= s.counters[s.calls[e.call].gateway]
  }

  /** Exactly when a failed create, or a finalize or abort, leaves balanced gateways balanced. */
  lemma ReleaseKeepsBalanceIff(s: State, call: nat)
    requires Within(s.counters, 1)
    requires call in s.calls && Releases(s.calls[call]) && s.calls[call].gateway < |s.counters|
    ensures Within(StepEnd(s, call).counters, 1) <==> AtTop(s, End(call))
  {
    var c, after := s.calls[call], StepEnd(s, call).counters;
    if i :| 0 <= i < |s.counters| && s.counters[i] > s.counters[c.gateway] {
      assert after[i] - after[c.gateway] > 1;
    }
  }

  lemma StepKeepsBalanceIff(s: State, e: Event)
    requires Within(s.counters, 1)
    ensures Within(Step(s, e).counters, 1) <==> AtTop(s, e)
  {
    match e
    case Begin(call, kind, sid) =>
      if kind == Create {
        CreateNeverSpreads(s, call, sid, 1);
      }
    case Execute(_, _) =>
    case End(call) =>
      if call in s.calls && Releases(s.calls[call]) && s.calls[call].gateway < |s.counters| {
        ReleaseKeepsBalanceIff(s, call);
      }
  }

  /** The gateways are balanced at every await of a run. */
  predicate BalancedThroughout(s: State, events: seq<Event>) {
    Within(After(s, events).counters, 1) && (events == [] || BalancedThroughout(s, events[..|events| - 1]))
  }

  predicate AllAtTop(s: State, events: seq<Event>) {
    events == []
    || (AllAtTop(s, events[..|events| - 1]) && AtTop(After(s, events[..|events| - 1]), events[|events| - 1]))
  }

  /** Exactly when a run from balanced gateways is balanced at every await, whatever calls it begins and
      however their answers interleave: every slot given back comes from a most loaded gateway. */
  lemma {:induction false} BalancedThroughoutIff(s: State, events: seq<Event>)
    requires Within(s.counters, 1)
    ensures BalancedThroughout(s, events) <==> AllAtTop(s, events)
    decreases |events|
  {
    hide Within, AtTop, Step;
    if events != [] {
      var n := |events| - 1;
      BalancedThroughoutIff(s, events[..n]);
      if BalancedThroughout(s, events[..n]) {
        StepKeepsBalanceIff(After(s, events[..n]), events[n]);
      }
    }
  }

  /** A run that only creates, in which a create that fails does so at a most loaded gateway. */
  predicate Burst(s: State, events: seq<Event>) {
    events == []
    || (Burst(s, events[..|events| - 1])
        && var e := events[|events| - 1];
           (e.Begin? ==> e.kind == Create) && AtTop(After(s, events[..|events| - 1]), e))
  }

  /** A burst of creates from a balanced state leaves the gateways balanced at every await. */
  lemma BurstStaysBalanced(s: State, events: seq<Event>)
    requires Within(s.counters, 1) && Burst(s, events)
    ensures BalancedThroughout(s, events)
  {
    hide Within, AtTop, After;
    BurstAtTop(s, events);
    BalancedThroughoutIff(s, events);
  }

  lemma {:induction false} BurstAtTop(s: State, events: seq<Event>)
    requires Burst(s, events)
    ensures AllAtTop(s, events)
    decreases |events|
  {
    hide After, AtTop;
    if events != [] {
      BurstAtTop(s, events[..|events| - 1]);
    }
  }

  lemma ThreeCreates(s: State)
    requires s.counters == [0, 0] && s.registries == [{}, {}] && s.calls == map[]
    ensures var s3 := Step(Step(Step(s, Begin(1, Create, "a")), Begin(2, Create, "b")), Begin(3, Create, "c"));
            && s3.counters == [2, 1] && s3.registries == s.registries
            && 2 in s3.calls && s3.calls[2] == Call(Create, "b", 1, Waiting)
  {
    assert LeastLoaded([0, 0]) == 0 && LeastLoaded([1, 1]) == 0 && LeastLoaded([1, 0]) == 1;
    hide LeastLoaded;
    var s1 := Step(s, Begin(1, Create, "a"));
    assert s1.counters == [1, 0];
    var s2 := Step(s1, Begin(2, Create, "b"));
    assert s2.counters == [1, 1];
  }

  /** A create that fails during a burst can leave the gateways two apart. */
  lemma FailedCreateUnbalances()
    ensures var burst := [] + [Begin(1, Create, "a")] + [Begin(2, Create, "b")] + [Begin(3, Create, "c")]
                         + [Execute(2, true)] + [End(2)];
            After(Start(2), burst).counters == [2, 0]
  {
    var creates := [] + [Begin(1, Create, "a")] + [Begin(2, Create, "b")] + [Begin(3, Create, "c")];
    AfterOneMore(Start(2), [], Begin(1, Create, "a"));
    AfterOneMore(Start(2), [] + [Begin(1, Create, "a")], Begin(2, Create, "b"));
    AfterOneMore(Start(2), [] + [Begin(1, Create, "a")] + [Begin(2, Create, "b")], Begin(3, Create, "c"));
    AfterOneMore(Start(2), creates, Execute(2, true));
    AfterOneMore(Start(2), creates + [Execute(2, true)], End(2));
    assert After(Start(2), []) == Start(2);
    ThreeCreates(Start(2));
    hide After, StepBegin;
  }
}
