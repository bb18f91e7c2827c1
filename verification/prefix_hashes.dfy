/** Chained prefix hashes over a prompt's full blocks, computed from scratch or from a checkpoint. */
module PrefixHashes {
  import opened Wrappers

  /** A block hash, as a number; its 64-bit width is left out so that hashes can be collision-free. */
  type Digest = nat

  type Prompt = seq<int>

  /** `digest` is seeded xxHash64 over a parent hash and one packed block; `text` is the
      decimal string the hash is stored as. */
  datatype BlockHasher = BlockHasher(digest: (Digest, Prompt) -> Digest, text: Digest -> string) {
    ghost predicate Injective() {
      && (forall p, b, q, c {:trigger digest(p, b), digest(q, c)} :: digest(p, b) == digest(q, c) ==> p == q && b == c)
      && (forall a, b {:trigger text(a), text(b)} :: text(a) == text(b) ==> a == b)
    }
  }

  /** Packing a block accepts exactly the unsigned 32-bit values. */
  predicate Packs(block: Prompt) {
    forall t | t in block :: 0 <= t < 0x1_0000_0000
  }

  lemma BlockBounds(length: nat, size: nat, i: nat)
    requires 0 < size && i < length / size
    ensures i * size <= (i + 1) * size <= length
  {
    var n := length / size;
    assert length == n * size + length % size;
    assert (n - i - 1) * size >= 0;
    assert n * size == (n - i - 1) * size + (i + 1) * size;
  }

  function BlockAt(prompt: Prompt, size: nat, i: nat): (b: Prompt)
    requires 0 < size && i < |prompt| / size
  {
    BlockBounds(|prompt|, size, i);
    prompt[i * size..(i + 1) * size]
  }

  function Head(hashes: seq<Digest>, parent: Digest): Digest {
    if hashes == [] then parent else hashes[|hashes| - 1]
  }

  /** The hashes of the first `n` blocks, each over its predecessor and its block. */
  function Chain(h: BlockHasher, prompt: Prompt, size: nat, n: nat): (r: seq<Digest>)
    requires 0 < size && n <= |prompt| / size
    ensures |r| == n
  {
    if n == 0 then []
    else
      var before := Chain(h, prompt, size, n - 1);
      before + [h.digest(Head(before, 0), BlockAt(prompt, size, n - 1))]
  }

  /** The hashes of blocks `done` to `n`, continued from a chain head. */
  function Extension(h: BlockHasher, prompt: Prompt, size: nat, parent: Digest, done: nat, n: nat): (r: seq<Digest>)
    requires 0 < size && done <= n <= |prompt| / size
    ensures |r| == n - done
    decreases n
  {
    if n == done then []
    else
      var before := Extension(h, prompt, size, parent, done, n - 1);
      before + [h.digest(Head(before, parent), BlockAt(prompt, size, n - 1))]
  }

  /** Blocks `done` onwards can all be packed. */
  predicate PacksFrom(prompt: Prompt, size: nat, done: nat)
    requires 0 < size
  {
    forall i: nat | done <= i < |prompt| / size :: Packs(BlockAt(prompt, size, i))
  }

  /** The loop over the blocks not hashed yet. */
  method HashIncrementally(h: BlockHasher, prompt: Prompt, size: int, parent: Digest, done: nat)
    returns (r: Result<(seq<Digest>, Digest)>)
    ensures size <= 0 ==> r == Err(ValueRejected)
    ensures size > 0 && done <= |prompt| / size ==>
              if PacksFrom(prompt, size, done) then
                var tail := Extension(h, prompt, size, parent, done, |prompt| / size);
                r == Ok((tail, Head(tail, parent)))
              else r == Err(PackFailed)
    ensures size > 0 && done > |prompt| / size ==> r == Ok(([], parent))
  {
    if size <= 0 {
      return Err(ValueRejected);
    }
    var full := |prompt| / size;
    var appended: seq<Digest> := [];
    var current := parent;
    var i := done;
    while i < full
      invariant done <= i && (done <= full ==> i <= full)
      invariant forall k: nat | done <= k < i && k < full :: Packs(BlockAt(prompt, size, k))
      invariant done > full ==> appended == []
      invariant done <= full ==> appended == Extension(h, prompt, size, parent, done, i)
      invariant current == Head(appended, parent)
    {
      BlockBounds(|prompt|, size, i);
      var start := i * size;
      assert start + size == (i + 1) * size;
      var block := prompt[start..start + size];
      assert block == BlockAt(prompt, size, i);
      if !Packs(block) {
        return Err(PackFailed);
      }
      current := h.digest(current, block);
      appended := appended + [current];
      i := i + 1;
    }
    return Ok((appended, current));
  }

  /** Continuing from a checkpoint gives what hashing from scratch gives. */
  lemma {:induction false} ContinuingIsStartingOver(h: BlockHasher, prompt: Prompt, size: nat, done: nat, n: nat)
    requires 0 < size && done <= n <= |prompt| / size
    ensures Chain(h, prompt, size, done) + Extension(h, prompt, size, Head(Chain(h, prompt, size, done), 0), done, n)
            == Chain(h, prompt, size, n)
    decreases n
  {
    if done < n {
      ContinuingIsStartingOver(h, prompt, size, done, n - 1);
    }
  }

  /** The first `n` blocks are the first `n - 1` and one more. */
  lemma BlocksEnd(p: Prompt, size: nat, n: nat)
    requires 0 < size && 0 < n <= |p| / size
    ensures (n - 1) * size <= n * size <= |p|
    ensures p[..n * size] == p[..(n - 1) * size] + BlockAt(p, size, n - 1)
  {
    BlockBounds(|p|, size, n - 1);
  }

  lemma SplitEqual(a: Prompt, b: Prompt, c: Prompt, d: Prompt)
    requires |a| == |c|
    ensures a + b == c + d <==> a == c && b == d
  {
    if a + b == c + d {
      assert a == (a + b)[..|a|] && b == (a + b)[|a|..];
      assert c == (c + d)[..|a|] && d == (c + d)[|a|..];
    }
  }

  lemma {:induction false} SharedBlocks(p: Prompt, q: Prompt, size: nat, n: nat)
    requires 0 < size && n <= |p| / size && n <= |q| / size
    ensures n * size <= |p| && n * size <= |q|
    ensures p[..n * size] == q[..n * size] <==>
            forall i: nat | i < n :: BlockAt(p, size, i) == BlockAt(q, size, i)
    decreases n
  {
    hide BlockAt;
    if n == 0 {
      assert p[..0] == q[..0];
    } else {
      SharedBlocks(p, q, size, n - 1);
      BlocksEnd(p, size, n);
      BlocksEnd(q, size, n);
      var m := (n - 1) * size;
      SplitEqual(p[..m], BlockAt(p, size, n - 1), q[..m], BlockAt(q, size, n - 1));
    }
  }

  /** Two chains agree at a block exactly when the prompts agree up to the end of that block. */
  lemma {:induction false} ChainsAgreeIff(h: BlockHasher, p: Prompt, q: Prompt, size: nat, n: nat)
    requires h.Injective()
    requires 0 < size && n <= |p| / size && n <= |q| / size
    ensures n * size <= |p| && n * size <= |q|
    ensures Head(Chain(h, p, size, n), 0) == Head(Chain(h, q, size, n), 0)
            <==> p[..n * size] == q[..n * size]
    ensures Chain(h, p, size, n) == Chain(h, q, size, n) <==> p[..n * size] == q[..n * size]
    decreases n
  {
    SharedBlocks(p, q, size, n);
    if n > 0 {
      ChainsAgreeIff(h, p, q, size, n - 1);
      SharedBlocks(p, q, size, n - 1);
      var a, b := Chain(h, p, size, n), Chain(h, q, size, n);
      assert a[..n - 1] == Chain(h, p, size, n - 1) && b[..n - 1] == Chain(h, q, size, n - 1);
    }
  }

  /** Equal prefixes hash alike, whatever the hash function. */
  lemma {:induction false} ChainOfPrefix(h: BlockHasher, p: Prompt, q: Prompt, size: nat, n: nat)
    requires 0 < size && n <= |p| / size && n <= |q| / size
    requires forall i: nat | i < n :: BlockAt(p, size, i) == BlockAt(q, size, i)
    ensures Chain(h, p, size, n) == Chain(h, q, size, n)
    decreases n
  {
    if n > 0 {
      ChainOfPrefix(h, p, q, size, n - 1);
    }
  }
}
