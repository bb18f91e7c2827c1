/** The mutable token buffer, edited in place by the session. */
module TrajectoryBuffers {
  import opened Wrappers
  import opened Sequences
  import opened Messages
  import opened Codecs
  import opened Chains
  import opened Selection
  import opened SessionModel

  class TrajectoryBuffer {
    var promptIds: seq<Token>
    var responseIds: seq<Token>
    var responseMask: seq<nat>
    var responseLogprobs: seq<real>
    var generationVersions: seq<Version>

    /** The contents. */
    ghost function View(): Buffer
      reads this
    {
      Buffer(promptIds, responseIds, responseMask, responseLogprobs, generationVersions)
    }

    constructor (prompt: seq<Token>)
      ensures View() == Buffer(prompt, [], [], [], [])
    {
      promptIds := prompt;
      responseIds, responseMask, responseLogprobs, generationVersions := [], [], [], [];
    }

    /** A new buffer with the same contents; changing either leaves the other alone. */
    method Copy() returns (copy: TrajectoryBuffer)
      ensures fresh(copy) && copy.View() == View()
    {
      copy := new TrajectoryBuffer(promptIds);
      copy.responseIds := responseIds;
      copy.responseMask := responseMask;
      copy.responseLogprobs := responseLogprobs;
      copy.generationVersions := generationVersions;
    }

    predicate Aligned()
      reads this
      ensures Aligned() == View().Aligned()
    {
      |responseMask| == |responseIds| && (|responseLogprobs| == 0 || |responseLogprobs| == |responseIds|)
    }

    /** Cut the response back to `n` tokens, then cut the assistant prefix, in place. */
    method RollBackTo(n: nat, prefix: seq<Token>) returns (r: Result<()>)
      requires n <= |responseIds|
      modifies this
      ensures match StripPrefix(prefix, Truncate(old(View()), n))
              case Err(e) => r == Err(e)
              case Ok(b) => r.Ok? && View() == b
    {
      if generationVersions != [] {
        generationVersions := generationVersions[..|generationVersions| - 1];
      }
      responseIds := Take(responseIds, n);
      responseMask := Take(responseMask, n);
      responseLogprobs := Take(responseLogprobs, n);
      assert View() == Truncate(old(View()), n);
      assert n == 0 <==> responseIds == [];
      var stored := if n == 0 then promptIds else responseIds;
      var cut := |stored| - |prefix|;
      SliceFromTestsSuffix(stored, prefix);
      if SliceFrom(stored, cut) != prefix {
        return Err(ValueRejected);
      }
      if n == 0 {
        promptIds := Take(promptIds, cut);
      } else {
        responseIds := Take(responseIds, cut);
        responseMask := Take(responseMask, cut);
        responseLogprobs := Take(responseLogprobs, cut);
      }
      return Ok(());
    }

    /** Take over a merged token stream in place, checking that the prompt is untouched. */
    method TakeOver(m: Merged) returns (r: Result<()>)
      modifies this
      ensures match Adopt(old(View()), m)
              case Err(e) => r == Err(e)
              case Ok(b) => r.Ok? && View() == b
    {
      if Take(m.ids, |promptIds|) != promptIds {
        return Err(RuntimeFailed);
      }
      responseIds := Drop(m.ids, |promptIds|);
      responseMask := m.mask;
      responseLogprobs := m.logprobs.GetOr([]);
      if !Aligned() {
        return Err(AssertionFailed);
      }
      return Ok(());
    }
  }
}
