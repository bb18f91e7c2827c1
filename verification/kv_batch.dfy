/** A payload of cache events is folded into one update before it is written: clear first,
    then everything removed, then everything added. */
module KvBatch {
  import opened Wrappers
  import opened KvIndex

  /** The GPU events of one payload, in the order they happened. */
  datatype BlockEvent = Stored(blocks: seq<string>) | Removed(blocks: seq<string>) | Cleared

  /** Everything one payload says, folded. */
  datatype Folding = Folding(clearAll: bool, removed: seq<string>, added: seq<string>)

  function Fold(batch: seq<BlockEvent>): Folding {
    if batch == [] then Folding(false, [], [])
    else
      var f := Fold(batch[..|batch| - 1]);
      match batch[|batch| - 1]
      case Stored(blocks) => f.(added := f.added + blocks)
      case Removed(blocks) => f.(removed := f.removed + blocks)
      case Cleared => f.(clearAll := true)
  }

  /** The events a folded update is written as. */
  function Written(f: Folding, replica: string): seq<Event> {
    (if f.clearAll then [Wipe(replica)] else [])
    + (if f.removed != [] then [Remove(replica, f.removed, Gpu)] else [])
    + (if f.added != [] then [Add(replica, f.added, Gpu)] else [])
  }

  /** What the replica holds after its own events, one by one. */
  function InOrder(held: set<string>, batch: seq<BlockEvent>): set<string> {
    if batch == [] then held
    else
      var before := InOrder(held, batch[..|batch| - 1]);
      match batch[|batch| - 1]
      case Stored(blocks) => before + Elements(blocks)
      case Removed(blocks) => before - Elements(blocks)
      case Cleared => {}
  }

  predicate Touches(e: BlockEvent, block: string) {
    match e
    case Stored(blocks) => block in blocks
    case Removed(blocks) => block in blocks
    case Cleared => true
  }

  /** The last event about the block stores it. */
  predicate StoredLast(batch: seq<BlockEvent>, block: string) {
    batch != [] &&
    var e := batch[|batch| - 1];
    if Touches(e, block) then e.Stored? else StoredLast(batch[..|batch| - 1], block)
  }

  predicate Touched(batch: seq<BlockEvent>, block: string) {
    batch != [] && (Touches(batch[|batch| - 1], block) || Touched(batch[..|batch| - 1], block))
  }

  lemma {:induction false} InOrderByLast(held: set<string>, batch: seq<BlockEvent>, block: string)
    ensures block in InOrder(held, batch) <==> if Touched(batch, block) then StoredLast(batch, block) else block in held
    decreases |batch|
  {
    if batch != [] {
      InOrderByLast(held, batch[..|batch| - 1], block);
    }
  }

  function AfterFolding(held: set<string>, f: Folding): set<string> {
    (if f.clearAll then {} else held) - Elements(f.removed) + Elements(f.added)
  }

  lemma {:induction false} FoldRemembers(batch: seq<BlockEvent>, block: string)
    ensures var f := Fold(batch);
            && (Touched(batch, block) <==> f.clearAll || block in f.removed || block in f.added)
            && (StoredLast(batch, block) ==> block in f.added)
    decreases |batch|
  {
    if batch != [] {
      FoldRemembers(batch[..|batch| - 1], block);
    }
  }

  /** Folding a payload gives what its events give one by one exactly when every block the payload
      stores is stored by the last event about it; whatever the replica held before. */
  lemma FoldingIsFaithfulIff(held: set<string>, batch: seq<BlockEvent>)
    ensures AfterFolding(held, Fold(batch)) == InOrder(held, batch)
            <==> forall b | b in Fold(batch).added :: StoredLast(batch, b)
  {
    var f := Fold(batch);
    forall b ensures b in InOrder(held, batch) <==> if Touched(batch, b) then StoredLast(batch, b) else b in held {
      InOrderByLast(held, batch, b);
    }
    forall b ensures (Touched(batch, b) <==> f.clearAll || b in f.removed || b in f.added)
                     && (StoredLast(batch, b) ==> b in f.added) {
      FoldRemembers(batch, b);
    }
    if AfterFolding(held, f) == InOrder(held, batch) {
      forall b | b in f.added ensures StoredLast(batch, b) {
        assert b in AfterFolding(held, f);
      }
    }
  }

  lemma ThenMaybe(events: seq<Event>, go: bool, e: Event, replica: string)
    requires e.replica == replica && (!e.Wipe? ==> e.layer == Gpu)
    requires !go && !e.Wipe? ==> e.blocks == []
    ensures var after := Holds(events + (if go then [e] else []), replica);
            var before := Holds(events, replica);
            after == if e.Wipe? then (if go then {} else before)
                     else if e.Remove? then before - Elements(e.blocks)
                     else before + Elements(e.blocks)
  {
    if go {
      assert (events + [e])[..|events + [e]| - 1] == events;
    } else {
      assert events + [] == events;
      assert Elements([]) == {};
    }
  }

  /** Writing a folded update has that effect on what the replica holds. */
  lemma WritingAFolding(events: seq<Event>, f: Folding, replica: string)
    ensures Holds(events + Written(f, replica), replica) == AfterFolding(Holds(events, replica), f)
  {
    hide Holds, Elements;
    var wipe := if f.clearAll then [Wipe(replica)] else [];
    var remove := if f.removed != [] then [Remove(replica, f.removed, Gpu)] else [];
    var add := if f.added != [] then [Add(replica, f.added, Gpu)] else [];
    ThenMaybe(events, f.clearAll, Wipe(replica), replica);
    ThenMaybe(events + wipe, f.removed != [], Remove(replica, f.removed, Gpu), replica);
    ThenMaybe(events + wipe + remove, f.added != [], Add(replica, f.added, Gpu), replica);
    assert events + Written(f, replica) == events + wipe + remove + add;
  }

  /** A block stored and then removed within one payload stays listed. */
  lemma StoredThenRemovedStays(held: set<string>)
    ensures var batch := [Stored(["x"]), Removed(["x"])];
            "x" in AfterFolding(held, Fold(batch)) && "x" !in InOrder(held, batch)
  {
    var batch := [Stored(["x"]), Removed(["x"])];
    assert batch[..1] == [Stored(["x"])] && batch[..1][..0] == [];
    assert Fold(batch[..1]) == Folding(false, [], ["x"]);
    InOrderByLast(held, batch, "x");
  }
}
