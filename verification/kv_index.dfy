/** The router's block index: which replicas hold which prefix block on GPU, kept as one
    reverse map and incremental counters. */
module KvIndex {
  import opened Wrappers
  import opened Sequences

  datatype Layer = Gpu | Cpu | Ssd

  type Index = map<string, set<string>>

  /** Per layer and replica, how many blocks it was told to hold less those it was told to drop. */
  type Counts = map<Layer, map<string, int>>

  const NO_COUNTS: Counts := map[Gpu := map[], Cpu := map[], Ssd := map[]]

  /** The blocks the index lists for a replica. */
  function BlocksOf(index: Index, replica: string): set<string> {
    set b | b in index && replica in index[b]
  }

  ghost predicate NoEmptySets(index: Index) {
    forall b | b in index :: index[b] != {}
  }

  /** An index without empty sets is determined by what it lists for each replica. */
  lemma IndexIsItsBlocks(a: Index, b: Index)
    requires NoEmptySets(a) && NoEmptySets(b)
    requires forall r :: BlocksOf(a, r) == BlocksOf(b, r)
    ensures a == b
  {
    forall x, r ensures x in a && r in a[x] <==> x in b && r in b[x] {
      assert x in BlocksOf(a, r) <==> x in BlocksOf(b, r);
    }
    forall x ensures x in a <==> x in b {
      if x in a {
        var r :| r in a[x];
        assert x in b && r in b[x];
      }
      if x in b {
        var r :| r in b[x];
        assert x in a && r in a[x];
      }
    }
    forall x | x in a ensures a[x] == b[x] {
      forall r ensures r in a[x] <==> r in b[x] {
      }
    }
  }

  function CountOf(counts: Counts, layer: Layer, replica: string): int {
    if layer in counts && replica in counts[layer] then counts[layer][replica] else 0
  }

  // --------------------------------------------------------- one block, one update, a run

  function AddOne(index: Index, replica: string, block: string): Index {
    index[block := (if block in index then index[block] else {}) + {replica}]
  }

  function RemoveOne(index: Index, replica: string, block: string): Index {
    if block !in index || replica !in index[block] then index
    else if index[block] == {replica} then index - {block}
    else index[block := index[block] - {replica}]
  }

  function AddAll(index: Index, replica: string, blocks: seq<string>): Index {
    if blocks == [] then index
    else AddOne(AddAll(index, replica, blocks[..|blocks| - 1]), replica, blocks[|blocks| - 1])
  }

  function RemoveAll(index: Index, replica: string, blocks: seq<string>): Index {
    if blocks == [] then index
    else RemoveOne(RemoveAll(index, replica, blocks[..|blocks| - 1]), replica, blocks[|blocks| - 1])
  }

  function Clear(index: Index, replica: string): Index {
    map b | b in index && index[b] - {replica} != {} :: index[b] - {replica}
  }

  function CountsFor(counts: Counts, layer: Layer): map<string, int> {
    if layer in counts then counts[layer] else map[]
  }

  /** The counter moves by the number of blocks named, cached or not. No block, no entry. */
  function Shift(counts: Counts, layer: Layer, replica: string, delta: int): Counts {
    var row := CountsFor(counts, layer);
    counts[layer := if delta == 0 then row else row[replica := CountOf(counts, layer, replica) + delta]]
  }

  function WithoutReplica(counts: Counts, replica: string): Counts {
    map l | l in counts :: counts[l] - {replica}
  }

  datatype Event =
    | Add(replica: string, blocks: seq<string>, layer: Layer)
    | Remove(replica: string, blocks: seq<string>, layer: Layer)
    | Wipe(replica: string)

  datatype Store = Store(index: Index, counts: Counts)

  function Step(s: Store, e: Event): Store {
    match e
    case Add(r, blocks, layer) =>
      Store(if layer == Gpu then AddAll(s.index, r, blocks) else s.index, Shift(s.counts, layer, r, |blocks|))
    case Remove(r, blocks, layer) =>
      Store(if layer == Gpu then RemoveAll(s.index, r, blocks) else s.index, Shift(s.counts, layer, r, -|blocks|))
    case Wipe(r) =>
      Store(Clear(s.index, r), WithoutReplica(s.counts, r))
  }

  function Run(events: seq<Event>): Store {
    if events == [] then Store(map[], NO_COUNTS)
    else Step(Run(events[..|events| - 1]), events[|events| - 1])
  }

  // --------------------------------------------------------- the reference: one set per replica

  function Elements(blocks: seq<string>): set<string> {
    set b | b in blocks
  }

  /** What a replica holds on GPU, by replaying only its own events on a plain set. */
  function Holds(events: seq<Event>, replica: string): set<string> {
    if events == [] then {}
    else
      var before := Holds(events[..|events| - 1], replica);
      match events[|events| - 1]
      case Add(r, blocks, Gpu) => if r == replica then before + Elements(blocks) else before
      case Remove(r, blocks, Gpu) => if r == replica then before - Elements(blocks) else before
      case Wipe(r) => if r == replica then {} else before
      case _ => before
  }

  lemma BlocksAfterAddOne(index: Index, replica: string, block: string, r: string)
    requires NoEmptySets(index)
    ensures NoEmptySets(AddOne(index, replica, block))
    ensures BlocksOf(AddOne(index, replica, block), r) == BlocksOf(index, r) + (if r == replica then {block} else {})
  {
  }

  lemma LastReplica(replicas: set<string>, replica: string)
    requires replica in replicas
    ensures replicas - {replica} == {} <==> replicas == {replica}
  {
    assert replicas == (replicas - {replica}) + {replica};
  }

  lemma BlocksAfterRemoveOne(index: Index, replica: string, block: string, r: string)
    requires NoEmptySets(index)
    ensures NoEmptySets(RemoveOne(index, replica, block))
    ensures BlocksOf(RemoveOne(index, replica, block), r) == BlocksOf(index, r) - (if r == replica then {block} else {})
  {
    var after := RemoveOne(index, replica, block);
    if block in index && replica in index[block] {
      LastReplica(index[block], replica);
    }
    forall b ensures b in BlocksOf(after, r) <==> b in BlocksOf(index, r) && !(r == replica && b == block) {
    }
  }

  lemma {:induction false} BlocksAfterAdd(index: Index, replica: string, blocks: seq<string>, r: string)
    requires NoEmptySets(index)
    ensures NoEmptySets(AddAll(index, replica, blocks))
    ensures BlocksOf(AddAll(index, replica, blocks), r)
            == BlocksOf(index, r) + (if r == replica then Elements(blocks) else {})
    decreases |blocks|
  {
    if blocks != [] {
      var n := |blocks| - 1;
      BlocksAfterAdd(index, replica, blocks[..n], r);
      BlocksAfterAddOne(AddAll(index, replica, blocks[..n]), replica, blocks[n], r);
      ElementsSplit(blocks);
      hide BlocksOf, AddOne, Elements, NoEmptySets;
    } else {
      assert Elements(blocks) == {};
    }
  }

  lemma {:induction false} BlocksAfterRemove(index: Index, replica: string, blocks: seq<string>, r: string)
    requires NoEmptySets(index)
    ensures NoEmptySets(RemoveAll(index, replica, blocks))
    ensures BlocksOf(RemoveAll(index, replica, blocks), r)
            == BlocksOf(index, r) - (if r == replica then Elements(blocks) else {})
    decreases |blocks|
  {
    if blocks != [] {
      var n := |blocks| - 1;
      BlocksAfterRemove(index, replica, blocks[..n], r);
      BlocksAfterRemoveOne(RemoveAll(index, replica, blocks[..n]), replica, blocks[n], r);
      ElementsSplit(blocks);
      hide BlocksOf, RemoveOne, Elements, NoEmptySets;
    } else {
      assert Elements(blocks) == {};
    }
  }

  lemma ElementsSplit(blocks: seq<string>)
    requires blocks != []
    ensures Elements(blocks) == Elements(blocks[..|blocks| - 1]) + {blocks[|blocks| - 1]}
  {
    var n := |blocks| - 1;
    assert blocks == blocks[..n] + [blocks[n]];
  }

  lemma BlocksAfterClear(index: Index, replica: string, r: string)
    ensures NoEmptySets(Clear(index, replica))
    ensures BlocksOf(Clear(index, replica), r) == if r == replica then {} else BlocksOf(index, r)
  {
    var after := Clear(index, replica);
    forall b ensures b in BlocksOf(after, r) <==> r != replica && b in BlocksOf(index, r) {
      if r != replica && b in index && r in index[b] {
        assert r in index[b] - {replica};
      }
    }
  }

  /** After any sequence of adds, removes and clears the index holds no empty set and lists
      for every replica exactly the blocks it holds. */
  lemma {:induction false} IndexListsWhatReplicasHold(events: seq<Event>, replica: string)
    ensures NoEmptySets(Run(events).index)
    ensures BlocksOf(Run(events).index, replica) == Holds(events, replica)
    decreases |events|
  {
    if events != [] {
      var before, e := events[..|events| - 1], events[|events| - 1];
      var index := Run(before).index;
      IndexListsWhatReplicasHold(before, replica);
      match e {
        case Add(r, blocks, layer) => BlocksAfterAdd(index, r, blocks, replica);
        case Remove(r, blocks, layer) => BlocksAfterRemove(index, r, blocks, replica);
        case Wipe(r) => BlocksAfterClear(index, r, replica);
      }
      hide BlocksOf, NoEmptySets, AddAll, RemoveAll, Clear, Elements;
    }
  }

  // ----------------------------------------------------------------- the incremental count

  /** Added blocks the replica already held, counting repetitions within the update. */
  function Stale(held: set<string>, blocks: seq<string>): nat {
    if blocks == [] then 0
    else
      var n := |blocks| - 1;
      Stale(held, blocks[..n]) + (if blocks[n] in held + Elements(blocks[..n]) then 1 else 0)
  }

  /** Removed blocks the replica did not hold any more. */
  function Absent(held: set<string>, blocks: seq<string>): nat {
    if blocks == [] then 0
    else
      var n := |blocks| - 1;
      Absent(held, blocks[..n]) + (if blocks[n] in held - Elements(blocks[..n]) then 0 else 1)
  }

  /** Stale adds less absent removes since the replica was last cleared. */
  function Drift(events: seq<Event>, replica: string): int {
    if events == [] then 0
    else
      var past := events[..|events| - 1];
      match events[|events| - 1]
      case Add(r, blocks, Gpu) =>
        Drift(past, replica) + (if r == replica then Stale(Holds(past, replica), blocks) else 0)
      case Remove(r, blocks, Gpu) =>
        Drift(past, replica) - (if r == replica then Absent(Holds(past, replica), blocks) else 0)
      case Wipe(r) => if r == replica then 0 else Drift(past, replica)
      case _ => Drift(past, replica)
  }

  lemma {:induction false} AddedSize(held: set<string>, blocks: seq<string>)
    ensures |held + Elements(blocks)| + Stale(held, blocks) == |held| + |blocks|
    decreases |blocks|
  {
    if blocks == [] {
      assert held + Elements(blocks) == held;
    } else {
      var n := |blocks| - 1;
      AddedSize(held, blocks[..n]);
      ElementsSplit(blocks);
      var before := held + Elements(blocks[..n]);
      assert held + Elements(blocks) == before + {blocks[n]};
      if blocks[n] in before {
        assert before + {blocks[n]} == before;
      }
    }
  }

  lemma {:induction false} RemovedSize(held: set<string>, blocks: seq<string>)
    ensures |held - Elements(blocks)| + |blocks| == |held| + Absent(held, blocks)
    decreases |blocks|
  {
    if blocks == [] {
      assert held - Elements(blocks) == held;
    } else {
      var n := |blocks| - 1;
      RemovedSize(held, blocks[..n]);
      ElementsSplit(blocks);
      var before := held - Elements(blocks[..n]);
      assert held - Elements(blocks) == before - {blocks[n]};
      if blocks[n] !in before {
        assert before - {blocks[n]} == before;
      }
    }
  }

  lemma CountAfter(s: Store, e: Event, layer: Layer, replica: string)
    ensures var before := CountOf(s.counts, layer, replica);
            CountOf(Step(s, e).counts, layer, replica) ==
            match e
            case Add(r, blocks, l) => if r == replica && l == layer then before + |blocks| else before
            case Remove(r, blocks, l) => if r == replica && l == layer then before - |blocks| else before
            case Wipe(r) => if r == replica then 0 else before
  {
  }

  /** The blocks a replica was told to hold on a layer less those it was told to drop there, since it was
      last cleared. */
  function NetAdded(events: seq<Event>, layer: Layer, replica: string): int {
    if events == [] then 0
    else
      var before := NetAdded(events[..|events| - 1], layer, replica);
      match events[|events| - 1]
      case Add(r, blocks, l) => before + (if r == replica && l == layer then |blocks| else 0)
      case Remove(r, blocks, l) => before - (if r == replica && l == layer then |blocks| else 0)
      case Wipe(r) => if r == replica then 0 else before
  }

  /** The counter of every layer is the blocks named in the replica's adds less those in its removes. */
  lemma {:induction false} CountIsNetAdded(events: seq<Event>, layer: Layer, replica: string)
    ensures CountOf(Run(events).counts, layer, replica) == NetAdded(events, layer, replica)
    decreases |events|
  {
    if events != [] {
      CountIsNetAdded(events[..|events| - 1], layer, replica);
      CountAfter(Run(events[..|events| - 1]), events[|events| - 1], layer, replica);
      hide CountOf, Step;
    }
  }

  /** An update of another layer. */
  predicate OffGpu(e: Event) {
    !e.Wipe? && e.layer != Gpu
  }

  /** Updates of the other layers never show in the index: dropping them from a run leaves the same index. */
  lemma {:induction false} OnlyGpuIsIndexed(events: seq<Event>)
    ensures Run(events).index == Run(SelectGpu(events)).index
    decreases |events|
  {
    if events != [] {
      var before, e := events[..|events| - 1], events[|events| - 1];
      OnlyGpuIsIndexed(before);
      if !OffGpu(e) {
        assert (SelectGpu(before) + [e])[..|SelectGpu(before)|] == SelectGpu(before);
      }
      hide AddAll, RemoveAll, Clear, Shift;
    }
  }

  function SelectGpu(events: seq<Event>): seq<Event> {
    if events == [] then []
    else
      var before := SelectGpu(events[..|events| - 1]);
      if OffGpu(events[|events| - 1]) then before else before + [events[|events| - 1]]
  }

  /** What the counter means: the blocks the replica holds, plus the drift. So it is their number
      exactly when stale adds and absent removes since the last clear cancel out. */
  lemma {:induction false} CountIsHeldPlusDrift(events: seq<Event>, replica: string)
    ensures CountOf(Run(events).counts, Gpu, replica) == |Holds(events, replica)| + Drift(events, replica)
    ensures CountOf(Run(events).counts, Gpu, replica) == |BlocksOf(Run(events).index, replica)|
            <==> Drift(events, replica) == 0
    decreases |events|
  {
    IndexListsWhatReplicasHold(events, replica);
    if events != [] {
      var before, e := events[..|events| - 1], events[|events| - 1];
      CountIsHeldPlusDrift(before, replica);
      CountAfter(Run(before), e, Gpu, replica);
      hide CountOf, Step;
      var held := Holds(before, replica);
      match e {
        case Add(r, blocks, layer) => AddedSize(held, blocks);
        case Remove(r, blocks, layer) => RemovedSize(held, blocks);
        case Wipe(r) =>
      }
      hide Elements, BlocksOf, AddAll, RemoveAll, Clear, Stale, Absent;
    }
  }

  /** An update that names only blocks it changes, each once. */
  ghost predicate Clean(events: seq<Event>, e: Event) {
    match e
    case Add(r, blocks, Gpu) => Stale(Holds(events, r), blocks) == 0
    case Remove(r, blocks, Gpu) => Absent(Holds(events, r), blocks) == 0
    case _ => true
  }

  /** Clean updates never make the counter drift. */
  lemma {:induction false} CleanRunsCount(events: seq<Event>, replica: string)
    requires forall i | 0 <= i < |events| :: Clean(events[..i], events[i])
    ensures CountOf(Run(events).counts, Gpu, replica) == |BlocksOf(Run(events).index, replica)|
    decreases |events|
  {
    CountIsHeldPlusDrift(events, replica);
    NoDrift(events, replica);
  }

  lemma {:induction false} NoDrift(events: seq<Event>, replica: string)
    requires forall i | 0 <= i < |events| :: Clean(events[..i], events[i])
    ensures Drift(events, replica) == 0
    decreases |events|
  {
    if events != [] {
      var before := events[..|events| - 1];
      forall i | 0 <= i < |before| ensures Clean(before[..i], before[i]) {
        assert before[..i] == events[..i];
      }
      NoDrift(before, replica);
      assert Clean(before, events[|events| - 1]);
    }
  }

  /** Naming a held block again makes the counter exceed the number of distinct blocks for good:
      removing it once leaves a count of one and no block. */
  lemma RepeatedAddDrifts()
    ensures var s := Run([Add("a", ["x"], Gpu), Add("a", ["x"], Gpu), Remove("a", ["x"], Gpu)]);
            CountOf(s.counts, Gpu, "a") == 1 && BlocksOf(s.index, "a") == {}
  {
    var one := [Add("a", ["x"], Gpu)];
    var two := [Add("a", ["x"], Gpu), Add("a", ["x"], Gpu)];
    var three := [Add("a", ["x"], Gpu), Add("a", ["x"], Gpu), Remove("a", ["x"], Gpu)];
    assert one[..0] == [] && two[..1] == one && three[..2] == two;
    assert Elements(["x"]) == {"x"};
    assert Holds([], "a") == {} && Holds(one, "a") == {"x"} && Holds(two, "a") == {"x"} && Holds(three, "a") == {};
    IndexListsWhatReplicasHold(three, "a");
    assert CountOf(Run(one).counts, Gpu, "a") == 1 && CountOf(Run(two).counts, Gpu, "a") == 2;
  }

  // ------------------------------------------------------------------------- the hit rate

  /** How many leading hashes of the chain are cached on the replica. */
  function Matched(held: set<string>, hashes: seq<string>): (n: nat)
    ensures n <= |hashes|
    ensures forall i | 0 <= i < n :: hashes[i] in held
    ensures n < |hashes| ==> hashes[n] !in held
  {
    if hashes == [] || hashes[0] !in held then 0 else 1 + Matched(held, hashes[1..])
  }

  /** The longest cached prefix is the only number with its properties. */
  lemma MatchedIsLongest(held: set<string>, hashes: seq<string>, n: nat)
    requires n <= |hashes|
    ensures Matched(held, hashes) >= n <==> forall i | 0 <= i < n :: hashes[i] in held
  {
  }

  function HitRate(held: set<string>, hashes: seq<string>): real {
    if hashes == [] then 0.0 else Matched(held, hashes) as real / |hashes| as real
  }

  lemma HitRateInUnitInterval(held: set<string>, hashes: seq<string>)
    ensures 0.0 <= HitRate(held, hashes) <= 1.0
    ensures HitRate(held, hashes) == 1.0 <==> hashes != [] && Elements(hashes) <= held
    ensures HitRate(held, hashes) == 0.0 <==> hashes == [] || hashes[0] !in held
  {
    if hashes != [] {
      var n, m := Matched(held, hashes) as real, |hashes| as real;
      assert n / m * m == n;
    }
  }

  /** Along a run: adding a chain makes it hit fully, evicting one of its blocks cuts the hit
      to the part before that block, and updates of other replicas change nothing. */
  lemma HitsFollowUpdates(events: seq<Event>, replica: string, hashes: seq<string>, k: nat, e: Event)
    requires k < |hashes| && hashes[k] !in hashes[..k]
    ensures Matched(Holds(events + [Add(replica, hashes, Gpu)], replica), hashes) == |hashes|
    ensures var m := Matched(Holds(events, replica), hashes);
            Matched(Holds(events + [Remove(replica, [hashes[k]], Gpu)], replica), hashes) == if m < k then m else k
    ensures e.replica != replica ==>
              Matched(Holds(events + [e], replica), hashes) == Matched(Holds(events, replica), hashes)
  {
    assert (events + [e])[..|events|] == events;
    var added := events + [Add(replica, hashes, Gpu)];
    assert added[..|added| - 1] == events;
    var held := Holds(events, replica);
    MatchedIsLongest(held + Elements(hashes), hashes, |hashes|);
    var removed := events + [Remove(replica, [hashes[k]], Gpu)];
    assert removed[..|removed| - 1] == events;
    var rest := held - Elements([hashes[k]]);
    assert hashes[k] !in rest;
    var m := Matched(held, hashes);
    var n := if m < k then m else k;
    forall i | 0 <= i < n ensures hashes[i] in rest {
      assert hashes[i] == hashes[..k][i];
    }
    MatchedIsLongest(rest, hashes, n);
  }
}
