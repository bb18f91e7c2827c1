/** The manager and actor objects: one method per stretch of code between two awaits. */
module GatewayManagers {
  import opened Wrappers
  import opened ManagerModel

  /** An actor's session registry. `refused` stands for whatever else the session or the actor
      raises: not started, rejected sizes, a session that is finalized or aborted. */
  class GatewayActor {
    var sessions: set<string>

    constructor ()
      ensures sessions == {}
    {
      sessions := {};
    }

    method CreateSession(sid: string, refused: bool) returns (r: Result<()>)
      modifies this
      ensures (r.Ok?, sessions) == Actor(Create, old(sessions), sid, refused)
      ensures r.Ok? <==> sid !in old(sessions) && !refused
      ensures sessions == old(sessions) + (if r.Ok? then {sid} else {})
    {
      if sid in sessions || refused {
        return Err(RuntimeFailed);
      }
      sessions := sessions + {sid};
      return Ok(());
    }

    method FinalizeSession(sid: string, refused: bool) returns (r: Result<()>)
      modifies this
      ensures (r.Ok?, sessions) == Actor(Finalize, old(sessions), sid, refused)
      ensures r.Ok? <==> sid in old(sessions) && !refused
      ensures r == Err(UnknownKey) <==> sid !in old(sessions)
      ensures sessions == old(sessions) - (if r.Ok? then {sid} else {})
    {
      if sid !in sessions {
        return Err(UnknownKey);
      }
      if refused {
        return Err(RuntimeFailed);
      }
      sessions := sessions - {sid};
      return Ok(());
    }

    /** An unknown session counts as already ended. */
    method AbortSession(sid: string, refused: bool) returns (r: Result<()>)
      modifies this
      ensures (r.Ok?, sessions) == Actor(Abort, old(sessions), sid, refused)
      ensures r.Ok? <==> sid !in old(sessions) || !refused
      ensures sessions == old(sessions) - (if r.Ok? then {sid} else {})
    {
      if sid !in sessions {
        return Ok(());
      }
      if refused {
        return Err(RuntimeFailed);
      }
      sessions := sessions - {sid};
      return Ok(());
    }
  }

  class GatewayManager {
    const activeSessions: array<int>
    var routes: map<string, nat>
    ghost var calls: map<nat, Call>

    constructor (gateways: nat)
      requires 0 < gateways
      ensures Abs(seq(gateways, _ => {})) == Start(gateways)
    {
      activeSessions := new int[gateways](_ => 0);
      routes, calls := map[], map[];
    }

    /** The model's state, given what the actors hold. */
    ghost function Abs(registries: seq<set<string>>): State
      reads this, activeSessions
    {
      State(activeSessions[..], routes, registries, calls)
    }

    /** The first gateway with the fewest sessions. */
    method SelectGatewayIndex() returns (r: Result<nat>)
      ensures activeSessions.Length == 0 ==> r == Err(RuntimeFailed)
      ensures activeSessions.Length > 0 ==> r == Ok(LeastLoaded(activeSessions[..]))
    {
      if activeSessions.Length == 0 {
        return Err(RuntimeFailed);
      }
      var best := 0;
      for i := 1 to activeSessions.Length
        invariant best < i
        invariant forall k | 0 <= k < i :: activeSessions[best] <= activeSessions[k]
        invariant forall k | 0 <= k < best :: activeSessions[best] < activeSessions[k]
      {
        if activeSessions[i] < activeSessions[best] {
          best := i;
        }
      }
      return Ok(best);
    }

    /** Up to the await of a create: the slot and the route are taken at once. */
    method BeginCreate(sid: string, ghost call: nat, ghost registries: seq<set<string>>) returns (r: Result<nat>)
      requires call !in calls
      modifies this, activeSessions
      ensures Abs(registries) == Step(old(Abs(registries)), Begin(call, Create, sid))
      ensures r.Ok? <==> call in calls
      ensures r.Ok? ==> calls[call] == Call(Create, sid, r.value, Waiting)
    {
      var index := SelectGatewayIndex();
      if index.Err? {
        return Err(index.error);
      }
      var g := index.value;
      routes := routes[sid := g];
      activeSessions[g] := activeSessions[g] + 1;
      calls := calls[call := Call(Create, sid, g, Waiting)];
      return Ok(g);
    }

    /** Up to the await of a finalize or an abort: only the route is looked up. */
    method BeginEnd(kind: Kind, sid: string, ghost call: nat, ghost registries: seq<set<string>>) returns (r: Result<nat>)
      requires call !in calls && kind != Create && activeSessions.Length > 0
      modifies this`calls
      ensures Abs(registries) == Step(old(Abs(registries)), Begin(call, kind, sid))
      ensures r == if sid in routes then Ok(routes[sid]) else Err(UnknownKey)
    {
      if sid !in routes {
        return Err(UnknownKey);
      }
      calls := calls[call := Call(kind, sid, routes[sid], Waiting)];
      return Ok(routes[sid]);
    }

    /** After the await: a failed create rolls its slot back, a successful finalize or abort
        releases it, and anything else only passes the outcome on. */
    method Complete(sid: string, g: nat, kind: Kind, ok: bool, ghost call: nat, ghost registries: seq<set<string>>)
      requires call in calls && calls[call] == Call(kind, sid, g, Answered(ok)) && g < activeSessions.Length
      modifies this, activeSessions
      ensures Abs(registries) == Step(old(Abs(registries)), End(call))
    {
      calls := calls - {call};
      if kind == Create <==> ok {
        return;
      }
      activeSessions[g] := activeSessions[g] - 1;
      routes := routes - {sid};
    }
  }
}
