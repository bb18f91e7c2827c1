/** Which active chain a request continues. */
module Selection {
  import opened Wrappers
  import opened Sequences
  import opened Messages
  import opened Codecs
  import opened Chains

  datatype Query = Query(reserved: set<nat>, tools: Tools, hashes: seq<Hash>, rollbackEnabled: bool)

  datatype Choice<B> = Choice(chain: Chain<B>, rollback: bool)

  /** Free, same tools, and the request goes strictly past the chain's last boundary and agrees up to it. */
  predicate Eligible<B>(q: Query, c: Chain<B>) {
    && c.id !in q.reserved
    && c.tools == q.tools
    && 1 <= c.start.historyLen < |q.hashes|
    && q.hashes[c.start.historyLen - 1] == c.start.tipHash
  }

  /** The chain's whole history is a prefix of the request. */
  predicate Exact<B>(q: Query, c: Chain<B>) {
    && |c.history| <= |q.hashes|
    && (c.history == [] || c.tipHash == q.hashes[|c.history| - 1])
  }

  predicate Candidate<B>(q: Query, c: Chain<B>) {
    Eligible(q, c) && (Exact(q, c) || q.rollbackEnabled)
  }

  /** How many of the request's messages the chain already covers. */
  function Depth<B>(q: Query, c: Chain<B>): nat {
    if Exact(q, c) then |c.history| else c.start.historyLen
  }

  predicate NotAfter<B>(a: Chain<B>, b: Chain<B>) {
    a.updatedSeq < b.updatedSeq || (a.updatedSeq == b.updatedSeq && a.id <= b.id)
  }

  /** The declarative rule. The best chain is as deep as any candidate. Among the deepest
      an exact match wins, the latest committed one first; a chain to roll back
      is chosen only when it is the sole deepest candidate. */
  ghost predicate Best<B>(q: Query, chains: seq<Chain<B>>, c: Chain<B>) {
    && c in chains
    && Candidate(q, c)
    && (forall d | d in chains && Candidate(q, d) :: Depth(q, d) <= Depth(q, c))
    && (forall d | d in chains && Candidate(q, d) && Depth(q, d) == Depth(q, c) ::
          if Exact(q, c) then Exact(q, d) ==> NotAfter(d, c) else d.id == c.id)
  }

  ghost function Select<B>(q: Query, chains: seq<Chain<B>>): (r: Option<Choice<B>>)
    ensures r.Some? ==> Best(q, chains, r.value.chain) && r.value.rollback == !Exact(q, r.value.chain)
    ensures r.None? ==> forall c | c in chains :: !Best(q, chains, c)
  {
    if exists c :: c in chains && Best(q, chains, c) then
      var c :| c in chains && Best(q, chains, c);
      Some(Choice(c, !Exact(q, c)))
    else None
  }

  lemma SameIdSameChain<B>(chains: seq<Chain<B>>, c: Chain<B>, d: Chain<B>)
    requires DistinctIds(chains)
    requires c in chains && d in chains && c.id == d.id
    ensures c == d
  {
    FindMember(chains, c);
    FindMember(chains, d);
  }

  lemma BestIsUnique<B>(q: Query, chains: seq<Chain<B>>, c: Chain<B>, d: Chain<B>)
    requires DistinctIds(chains)
    requires Best(q, chains, c) && Best(q, chains, d)
    ensures c == d
  {
    assert Depth(q, c) == Depth(q, d);
    SameIdSameChain(chains, c, d) by {
      assert c.id == d.id;
    }
  }

  /** The choice depends on which chains are active, not on their order. */
  lemma SelectIgnoresOrder<B>(q: Query, a: seq<Chain<B>>, b: seq<Chain<B>>)
    requires DistinctIds(a)
    requires multiset(a) == multiset(b)
    ensures Select(q, a) == Select(q, b)
  {
    forall c ensures c in a <==> c in b {
      assert c in a <==> c in multiset(a);
      assert c in b <==> c in multiset(b);
    }
    forall c ensures Best(q, a, c) <==> Best(q, b, c) {
    }
    if Select(q, a).Some? {
      BestIsUnique(q, a, Select(q, a).value.chain, Select(q, b).value.chain);
    }
  }

  /** Nothing is selected exactly when there is no candidate at all, or when the deepest
      candidates are several chains that would all have to be rolled back. */
  lemma NothingSelectedIff<B>(q: Query, chains: seq<Chain<B>>)
    requires DistinctIds(chains)
    ensures Select(q, chains).None? <==>
            || (forall c | c in chains :: !Candidate(q, c))
            || (exists c, d :: c in chains && d in chains && AmbiguousDeepest(q, chains, c, d))
  {
    if exists c :: c in chains && Candidate(q, c) {
      var top := Deepest(q, chains);
      if exists c, d :: c in chains && d in chains && AmbiguousDeepest(q, chains, c, d) {
        var c, d :| c in chains && d in chains && AmbiguousDeepest(q, chains, c, d);
        forall b | b in chains ensures !Best(q, chains, b) {
          if Best(q, chains, b) {
            assert false;
          }
        }
      } else if exists c :: c in chains && IsDeepest(q, chains, c) && Exact(q, c) {
        var latest := LatestExact(q, chains, Depth(q, top));
        assert Best(q, chains, latest);
      } else {
        assert Best(q, chains, top) by {
          forall d | d in chains && Candidate(q, d) && Depth(q, d) == Depth(q, top) ensures d.id == top.id {
            assert IsDeepest(q, chains, d);
            assert !AmbiguousDeepest(q, chains, top, d);
          }
        }
      }
    }
  }

  ghost predicate IsDeepest<B>(q: Query, chains: seq<Chain<B>>, c: Chain<B>) {
    && c in chains && Candidate(q, c)
    && forall d | d in chains && Candidate(q, d) :: Depth(q, d) <= Depth(q, c)
  }

  /** Two different chains at the greatest depth, where no candidate matches exactly. */
  ghost predicate AmbiguousDeepest<B>(q: Query, chains: seq<Chain<B>>, c: Chain<B>, d: Chain<B>) {
    && IsDeepest(q, chains, c) && IsDeepest(q, chains, d) && c.id != d.id
    && forall e | e in chains && Candidate(q, e) && Depth(q, e) == Depth(q, c) :: !Exact(q, e)
  }

  lemma {:induction false} Deepest<B>(q: Query, chains: seq<Chain<B>>) returns (top: Chain<B>)
    requires exists c :: c in chains && Candidate(q, c)
    ensures IsDeepest(q, chains, top)
  {
    var rest := chains[1..];
    if exists c :: c in rest && Candidate(q, c) {
      top := Deepest(q, rest);
      if Candidate(q, chains[0]) && Depth(q, chains[0]) > Depth(q, top) {
        top := chains[0];
      }
    } else {
      top := chains[0];
    }
    assert forall c :: c in chains <==> c == chains[0] || c in rest;
  }

  lemma {:induction false} LatestExact<B>(q: Query, chains: seq<Chain<B>>, depth: nat) returns (top: Chain<B>)
    requires exists c :: c in chains && ExactAt(q, c, depth)
    ensures top in chains && ExactAt(q, top, depth)
    ensures forall d | d in chains && ExactAt(q, d, depth) :: NotAfter(d, top)
    decreases |chains|
  {
    var rest := chains[1..];
    if exists c :: c in rest && ExactAt(q, c, depth) {
      top := LatestExact(q, rest, depth);
      if ExactAt(q, chains[0], depth) && NotAfter(top, chains[0]) {
        top := chains[0];
      }
    } else {
      top := chains[0];
    }
    assert forall c :: c in chains <==> c == chains[0] || c in rest;
  }

  ghost predicate ExactAt<B>(q: Query, c: Chain<B>, depth: nat) {
    Candidate(q, c) && Exact(q, c) && Depth(q, c) == depth
  }

  datatype Ranked<B> = Ranked(chain: Chain<B>, depth: nat, exact: bool)

  /** The order of the tuples (depth, exact, updated_seq, chain_id). */
  predicate RankedBelow<B>(a: Ranked<B>, b: Ranked<B>) {
    || a.depth < b.depth
    || (a.depth == b.depth && !a.exact && b.exact)
    || (a.depth == b.depth && a.exact == b.exact && NotAfter(a.chain, b.chain))
  }

  method MaxRanked<B>(ranked: seq<Ranked<B>>) returns (top: Ranked<B>)
    requires ranked != []
    ensures top in ranked
    ensures forall r | r in ranked :: RankedBelow(r, top)
  {
    top := ranked[0];
    for i := 1 to |ranked|
      invariant top in ranked
      invariant forall j | 0 <= j < i :: RankedBelow(ranked[j], top)
    {
      if !RankedBelow(ranked[i], top) {
        top := ranked[i];
      }
    }
  }

  /** The single pass over the active chains, as the session runs it. */
  method SelectChain<B>(q: Query, chains: seq<Chain<B>>) returns (r: Option<Choice<B>>)
    requires DistinctIds(chains)
    requires forall c | c in chains :: 1 <= c.start.historyLen
    ensures r == Select(q, chains)
  {
    var ranked: seq<Ranked<B>> := [];
    var deepest: seq<Chain<B>> := [];
    var deepestDepth: int := -1;
    for i := 0 to |chains|
      invariant forall x | x in ranked :: x.chain in chains[..i] && Candidate(q, x.chain) && Exact(q, x.chain)
                                          && x == Ranked(x.chain, |x.chain.history|, true)
      invariant forall c | c in chains[..i] && Candidate(q, c) && Exact(q, c) ::
                  Ranked(c, |c.history|, true) in ranked
      invariant forall c | c in deepest :: c in chains[..i] && Candidate(q, c) && !Exact(q, c)
                                           && c.start.historyLen == deepestDepth
      invariant forall c | c in chains[..i] && Candidate(q, c) && !Exact(q, c) ::
                  c.start.historyLen <= deepestDepth && (c.start.historyLen == deepestDepth ==> c in deepest)
      invariant deepest == [] <==> deepestDepth == -1
      invariant deepestDepth >= -1
      invariant DistinctIds(deepest)
    {
      var c := chains[i];
      assert chains[..i + 1] == chains[..i] + [c];
      if c.id in q.reserved || c.tools != q.tools {
        continue;
      }
      if c.start.historyLen >= |q.hashes| {
        continue;
      }
      if q.hashes[c.start.historyLen - 1] != c.start.tipHash {
        continue;
      }
      if Exact(q, c) {
        ranked := ranked + [Ranked(c, |c.history|, true)];
        continue;
      }
      if q.rollbackEnabled {
        if c.start.historyLen > deepestDepth {
          deepest := [c];
          deepestDepth := c.start.historyLen;
        } else if c.start.historyLen == deepestDepth {
          deepest := deepest + [c];
        }
      }
    }
    assert chains[..|chains|] == chains;
    r := Conclude(q, chains, ranked, deepest, deepestDepth);
  }

  /** What follows the scan: the ambiguity test and the final maximum. */
  method Conclude<B>(q: Query, chains: seq<Chain<B>>, exact: seq<Ranked<B>>,
                           deepest: seq<Chain<B>>, deepestDepth: int)
    returns (r: Option<Choice<B>>)
    requires DistinctIds(chains) && DistinctIds(deepest)
    requires forall x | x in exact :: x.chain in chains && Candidate(q, x.chain) && Exact(q, x.chain)
                                      && x == Ranked(x.chain, |x.chain.history|, true)
    requires forall c | c in chains && Candidate(q, c) && Exact(q, c) :: Ranked(c, |c.history|, true) in exact
    requires deepest == [] ==> deepestDepth == -1
    requires forall c | c in deepest :: c in chains && Candidate(q, c) && !Exact(q, c)
                                        && c.start.historyLen == deepestDepth
    requires forall c | c in chains && Candidate(q, c) && !Exact(q, c) ::
               c.start.historyLen <= deepestDepth && (c.start.historyLen == deepestDepth ==> c in deepest)
    ensures r == Select(q, chains)
  {
    var ranked := exact;
    if |deepest| == 1 {
      ranked := ranked + [Ranked(deepest[0], deepest[0].start.historyLen, false)];
    } else if deepest != [] {
      var exactDepth: int := -1;
      if ranked != [] {
        var best := MaxRanked(ranked);
        exactDepth := best.depth;
      }
      if deepestDepth > exactDepth {
        assert deepest[0] in deepest && deepest[1] in deepest && deepest[0].id != deepest[1].id;
        forall c | c in chains ensures !Best(q, chains, c) {
        }
        return None;
      }
      assert exists x :: x in ranked && x.depth >= deepestDepth;
    }
    if ranked == [] {
      assert forall c | c in chains :: !Candidate(q, c);
      return None;
    }
    var top := MaxRanked(ranked);
    assert Best(q, chains, top.chain) by {
      forall d | d in chains && Candidate(q, d)
        ensures Depth(q, d) <= Depth(q, top.chain)
        ensures Depth(q, d) == Depth(q, top.chain) ==>
                  if Exact(q, top.chain) then Exact(q, d) ==> NotAfter(d, top.chain) else d.id == top.chain.id
      {
        if Exact(q, d) {
          assert Ranked(d, |d.history|, true) in ranked;
        } else if |deepest| == 1 {
          assert ranked[|ranked| - 1] in ranked;
        } else {
          var x :| x in ranked && x.depth >= deepestDepth;
          assert RankedBelow(x, top);
        }
      }
    }
    BestIsUnique(q, chains, top.chain, Select(q, chains).value.chain);
    return Some(Choice(top.chain, !top.exact));
  }
}
