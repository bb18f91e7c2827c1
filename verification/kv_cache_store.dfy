/** The store behind the block index: its methods update the reverse map and the counters
    block by block. */
module KvCacheStores {
  import opened Wrappers
  import opened KvIndex
  import opened KvBatch

  /** `replica` taken out of the sets of the blocks in `done`. */
  ghost function Discarded(index: Index, done: set<string>, replica: string): Index {
    map b | b in index :: if b in done then index[b] - {replica} else index[b]
  }

  lemma DiscardOneMore(index: Index, done: set<string>, block: string, replica: string)
    requires block in index && block !in done
    ensures var before := Discarded(index, done, replica);
            && block in before && before[block] == index[block]
            && Discarded(index, done + {block}, replica)
               == (if replica in index[block] then before[block := index[block] - {replica}] else before)
  {
    if replica !in index[block] {
      assert index[block] - {replica} == index[block];
    }
  }

  class KvCacheStore {
    var blockSize: Option<int>
    var replicasByBlock: Index
    var layerCounts: Counts

    constructor ()
      ensures blockSize == None && Abs() == Run([])
    {
      blockSize, replicasByBlock, layerCounts := None, map[], NO_COUNTS;
    }

    ghost function Abs(): Store
      reads this
    {
      Store(replicasByBlock, layerCounts)
    }

    /** Learned from the first stored event; later values are ignored. */
    method SetBlockSize(size: int)
      modifies this`blockSize
      ensures blockSize == if old(blockSize).None? then Some(size) else old(blockSize)
    {
      if blockSize.None? {
        blockSize := Some(size);
      }
    }

    method AddBlocks(replica: string, blocks: seq<string>, layer: Layer)
      modifies this`replicasByBlock, this`layerCounts
      ensures Abs() == Step(old(Abs()), Add(replica, blocks, layer))
    {
      layerCounts := layerCounts[layer := CountsFor(layerCounts, layer)];
      for i := 0 to |blocks|
        invariant layerCounts == Shift(old(layerCounts), layer, replica, i)
        invariant replicasByBlock == if layer == Gpu then AddAll(old(replicasByBlock), replica, blocks[..i])
                                     else old(replicasByBlock)
      {
        assert blocks[..i + 1][..i] == blocks[..i];
        var b := blocks[i];
        Bump(layer, replica, 1);
        ShiftOnce(old(layerCounts), layer, replica, i, 1);
        if layer != Gpu {
          continue;
        }
        if b !in replicasByBlock {
          replicasByBlock := replicasByBlock[b := {}];
        }
        replicasByBlock := replicasByBlock[b := replicasByBlock[b] + {replica}];
      }
      assert blocks[..|blocks|] == blocks;
    }

    method Bump(layer: Layer, replica: string, delta: int)
      requires layer in layerCounts
      modifies this`layerCounts
      ensures layerCounts == old(layerCounts)[layer := old(layerCounts)[layer][replica := CountOf(old(layerCounts), layer, replica) + delta]]
    {
      var counts := layerCounts[layer];
      var was := if replica in counts then counts[replica] else 0;
      layerCounts := layerCounts[layer := counts[replica := was + delta]];
    }

    method RemoveBlocks(replica: string, blocks: seq<string>, layer: Layer)
      modifies this`replicasByBlock, this`layerCounts
      ensures Abs() == Step(old(Abs()), Remove(replica, blocks, layer))
    {
      layerCounts := layerCounts[layer := CountsFor(layerCounts, layer)];
      for i := 0 to |blocks|
        invariant layerCounts == Shift(old(layerCounts), layer, replica, -i)
        invariant replicasByBlock == if layer == Gpu then RemoveAll(old(replicasByBlock), replica, blocks[..i])
                                     else old(replicasByBlock)
      {
        assert blocks[..i + 1][..i] == blocks[..i];
        var b := blocks[i];
        Bump(layer, replica, -1);
        ShiftOnce(old(layerCounts), layer, replica, -i, -1);
        if layer != Gpu {
          continue;
        }
        if b in replicasByBlock && replica in replicasByBlock[b] {
          LastReplica(replicasByBlock[b], replica);
          var rest := replicasByBlock[b] - {replica};
          if rest == {} {
            replicasByBlock := replicasByBlock - {b};
          } else {
            replicasByBlock := replicasByBlock[b := rest];
          }
        }
      }
      assert blocks[..|blocks|] == blocks;
    }

    /** One pass discards the replica everywhere and collects the blocks nobody else holds,
        a second deletes those. */
    method ClearReplica(replica: string)
      requires NoEmptySets(replicasByBlock)
      modifies this`replicasByBlock, this`layerCounts
      ensures Abs() == Step(old(Abs()), Wipe(replica))
    {
      ghost var index := replicasByBlock;
      var stale := DiscardEverywhere(replica);
      DeleteBlocks(stale);
      layerCounts := map l | l in layerCounts :: layerCounts[l] - {replica};
      forall b | b in index ensures b in stale <==> index[b] - {replica} == {} {
        if replica in index[b] {
          LastReplica(index[b], replica);
        } else {
          assert index[b] - {replica} == index[b];
        }
      }
    }

    method DiscardEverywhere(replica: string) returns (stale: set<string>)
      modifies this`replicasByBlock
      ensures replicasByBlock == Discarded(old(replicasByBlock), old(replicasByBlock).Keys, replica)
      ensures forall b :: b in stale <==> b in old(replicasByBlock) && old(replicasByBlock)[b] == {replica}
    {
      stale := {};
      var rest := replicasByBlock.Keys;
      ghost var index, done: set<string> := replicasByBlock, {};
      assert index == Discarded(index, done, replica);
      hide Discarded;
      while rest != {}
        invariant forall b :: b in index <==> b in rest || b in done
        invariant forall b | b in rest :: b !in done
        invariant replicasByBlock == Discarded(index, done, replica)
        invariant forall b :: b in stale <==> b in done && index[b] == {replica}
        decreases |rest|
      {
        var b :| b in rest;
        DiscardOneMore(index, done, b, replica);
        var alone := DiscardOne(b, replica);
        if alone {
          stale := stale + {b};
        }
        rest, done := rest - {b}, done + {b};
      }
      assert done == index.Keys;
    }

    method DiscardOne(b: string, replica: string) returns (alone: bool)
      requires b in replicasByBlock
      modifies this`replicasByBlock
      ensures alone <==> old(replicasByBlock)[b] == {replica}
      ensures replicasByBlock == if replica in old(replicasByBlock)[b] then
                                   old(replicasByBlock)[b := old(replicasByBlock)[b] - {replica}]
                                 else old(replicasByBlock)
    {
      var replicas := replicasByBlock[b];
      if replica !in replicas {
        return false;
      }
      LastReplica(replicas, replica);
      replicasByBlock := replicasByBlock[b := replicas - {replica}];
      return replicasByBlock[b] == {};
    }

    method DeleteBlocks(stale: set<string>)
      modifies this`replicasByBlock
      ensures replicasByBlock == old(replicasByBlock) - stale
    {
      var rest := stale;
      while rest != {}
        invariant rest <= stale && replicasByBlock == old(replicasByBlock) - (stale - rest)
        decreases |rest|
      {
        var b :| b in rest;
        replicasByBlock := replicasByBlock - {b};
        rest := rest - {b};
      }
    }

    /** Walk the chain until a hash is not cached on this node. */
    method PrefixHitRate(node: string, hashes: seq<string>, layer: Layer) returns (rate: real)
      ensures rate == if layer != Gpu || blockSize.None? then 0.0 else HitRate(BlocksOf(replicasByBlock, node), hashes)
      ensures 0.0 <= rate <= 1.0
    {
      HitRateInUnitInterval(BlocksOf(replicasByBlock, node), hashes);
      if layer != Gpu || blockSize.None? || hashes == [] {
        return 0.0;
      }
      ghost var held := BlocksOf(replicasByBlock, node);
      var matched := 0;
      for i := 0 to |hashes|
        invariant matched == i && forall k | 0 <= k < i :: hashes[k] in held
      {
        if hashes[i] !in replicasByBlock || node !in replicasByBlock[hashes[i]] {
          break;
        }
        matched := i + 1;
      }
      MatchedIsLongest(held, hashes, matched);
      return matched as real / |hashes| as real;
    }

    /** One folded payload: clear, then removals, then additions. */
    method WriteUpdate(replica: string, size: Option<int>, f: Folding, ghost events: seq<Event>)
      requires Abs() == Run(events)
      modifies this
      ensures Abs() == Run(events + Written(f, replica))
      ensures BlocksOf(replicasByBlock, replica) == AfterFolding(old(BlocksOf(replicasByBlock, replica)), f)
      ensures blockSize == if old(blockSize).None? then size else old(blockSize)
    {
      ghost var now := events;
      IndexListsWhatReplicasHold(events, replica);
      hide Holds, BlocksOf, AfterFolding, Step, Run, NoEmptySets;
      if size.Some? {
        SetBlockSize(size.value);
      }
      if f.clearAll {
        ClearReplica(replica);
        now := Later(now, Wipe(replica));
        assert Abs() == Run(now);
      }
      if f.removed != [] {
        RemoveBlocks(replica, f.removed, Gpu);
        now := Later(now, Remove(replica, f.removed, Gpu));
        assert Abs() == Run(now);
      }
      if f.added != [] {
        AddBlocks(replica, f.added, Gpu);
        now := Later(now, Add(replica, f.added, Gpu));
      }
      assert now == events + Written(f, replica);
      WritingAFolding(events, f, replica);
      IndexListsWhatReplicasHold(now, replica);
    }
  }

  ghost function Later(events: seq<Event>, e: Event): (r: seq<Event>)
    ensures r == events + [e] && Run(r) == Step(Run(events), e)
  {
    assert (events + [e])[..|events + [e]| - 1] == events;
    events + [e]
  }

  lemma ShiftOnce(counts: Counts, layer: Layer, replica: string, n: int, delta: int)
    requires delta != 0 && n + delta != 0
    ensures var shifted := Shift(counts, layer, replica, n);
            layer in shifted
            && shifted[layer := shifted[layer][replica := CountOf(shifted, layer, replica) + delta]]
               == Shift(counts, layer, replica, n + delta)
  {
    var row, before := CountsFor(counts, layer), CountOf(counts, layer, replica);
    var shifted := Shift(counts, layer, replica, n);
    assert CountOf(shifted, layer, replica) == before + n;
    assert shifted[layer][replica := before + n + delta] == row[replica := before + n + delta];
  }
}
