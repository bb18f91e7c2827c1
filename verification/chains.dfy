/** Token buffers and trajectory chains. A chain is generic in its buffer: the session
    holds references to mutable buffers, the specification holds their contents. */
module Chains {
  import opened Wrappers
  import opened Sequences
  import opened Messages
  import opened Codecs

  /** The weight versions one generation ran with; None when the backend reports none. */
  datatype Version = Version(minSteps: Option<int>, maxSteps: Option<int>)

  /** The contents of a trajectory buffer. */
  datatype Buffer = Buffer(prompt: seq<Token>, response: seq<Token>, mask: seq<nat>,
                           logprobs: seq<real>, versions: seq<Version>)
  {
    function Tokens(): seq<Token> {
      prompt + response
    }

    predicate Aligned() {
      |mask| == |response| && (|logprobs| == 0 || |logprobs| == |response|)
    }

    /** Number of trainable (mask 1) tokens. */
    function Trainable(): nat {
      Sum(mask)
    }
  }

  /** Lengths recorded immediately before a chain's latest assistant. */
  datatype Start = Start(responseLen: nat, historyLen: nat, imageLen: nat, videoLen: nat, tipHash: Hash)

  datatype Chain<B> = Chain(id: nat, history: seq<Message>, tipHash: Hash, tools: Tools, buffer: B,
                            images: MediaList, videos: MediaList, start: Start, updatedSeq: nat)

  /** The range of weight versions behind a trajectory, as staleness metrics read it. */
  datatype Span = Span(minSteps: int, maxSteps: Option<int>)

  /** The marks of generations whose backend reported a version. */
  function Marked(versions: seq<Version>): (r: seq<Version>)
    ensures forall v :: v in r <==> v in versions && v.minSteps.Some?
  {
    if versions == [] then []
    else (if versions[0].minSteps.Some? then [versions[0]] else []) + Marked(versions[1..])
  }

  function LeastOf(marks: seq<Version>): int
    requires marks != [] && forall v | v in marks :: v.minSteps.Some?
  {
    var rest := marks[1..];
    var first := marks[0].minSteps.value;
    if rest == [] then first
    else
      var least := LeastOf(rest);
      if least < first then least else first
  }

  /** The greatest upper mark. Comparing a missing one with another mark raises; a single mark is not compared. */
  function GreatestOf(marks: seq<Version>): Result<Option<int>>
    requires marks != []
  {
    var rest := marks[1..];
    if rest == [] then Ok(marks[0].maxSteps)
    else
      var greatest :- GreatestOf(rest);
      if marks[0].maxSteps.None? || greatest.None? then Err(TypeRejected)
      else Ok(Some(if greatest.value > marks[0].maxSteps.value then greatest.value else marks[0].maxSteps.value))
  }

  function VersionSpan(versions: seq<Version>): Result<Option<Span>> {
    var marks := Marked(versions);
    if marks == [] then Ok(None)
    else
      var greatest :- GreatestOf(marks);
      Ok(Some(Span(LeastOf(marks), greatest)))
  }

  lemma {:induction false} LeastIsLeast(marks: seq<Version>)
    requires marks != [] && forall v | v in marks :: v.minSteps.Some?
    ensures exists v :: v in marks && v.minSteps == Some(LeastOf(marks))
    ensures forall v | v in marks :: LeastOf(marks) <= v.minSteps.value
  {
    if |marks| == 1 {
      assert marks[0] in marks && marks[0].minSteps == Some(LeastOf(marks));
    } else {
      LeastIsLeast(marks[1..]);
      var v :| v in marks[1..] && v.minSteps == Some(LeastOf(marks[1..]));
      assert v in marks && marks[0] in marks;
      assert forall w | w in marks :: w == marks[0] || w in marks[1..];
    }
  }

  lemma {:induction false} GreatestIsGreatest(marks: seq<Version>)
    requires marks != []
    ensures GreatestOf(marks).Ok? <==> |marks| == 1 || forall v | v in marks :: v.maxSteps.Some?
    ensures GreatestOf(marks).Ok? ==> exists v :: v in marks && v.maxSteps == GreatestOf(marks).value
    ensures GreatestOf(marks).Ok? && |marks| > 1 ==> GreatestOf(marks).value.Some?
    ensures GreatestOf(marks).Ok? && GreatestOf(marks).value.Some? ==>
              forall v | v in marks :: v.maxSteps.Some? && v.maxSteps.value <= GreatestOf(marks).value.value
  {
    assert marks[0] in marks;
    if |marks| > 1 {
      var rest := marks[1..];
      GreatestIsGreatest(rest);
      assert rest[0] in rest;
      assert forall w | w in marks :: w == marks[0] || w in rest;
      assert forall w | w in rest :: w in marks;
      if GreatestOf(rest).Ok? {
        var v :| v in rest && v.maxSteps == GreatestOf(rest).value;
        assert v in marks;
      }
    }
  }

  /** The span is the least lower and the greatest upper mark. It is missing exactly when no generation
      carries a version, and raises exactly when one of several marks lacks its upper end. */
  lemma SpanMeaning(versions: seq<Version>)
    ensures var marks, span := Marked(versions), VersionSpan(versions);
            && (span == Ok(None) <==> forall v | v in versions :: v.minSteps.None?)
            && (span.Err? <==> |marks| > 1 && exists v :: v in marks && v.maxSteps.None?)
            && (span.Ok? && span.value.Some? ==>
                  && (exists v :: v in marks && v.minSteps == Some(span.value.value.minSteps))
                  && (forall v | v in marks :: span.value.value.minSteps <= v.minSteps.value)
                  && (exists v :: v in marks && v.maxSteps == span.value.value.maxSteps)
                  && (span.value.value.maxSteps.Some? ==>
                        forall v | v in marks :: v.maxSteps.Some? && v.maxSteps.value <= span.value.value.maxSteps.value))
  {
    hide LeastOf, GreatestOf, Marked;
    var marks := Marked(versions);
    if marks == [] {
      forall v | v in versions ensures v.minSteps.None? {
        assert v !in marks;
      }
    } else {
      assert marks[0] in marks;
      LeastIsLeast(marks);
      GreatestIsGreatest(marks);
    }
  }

  /** A finished trajectory: a copy of everything the chain held, and what folding its marks gives. */
  datatype Trajectory = Trajectory(prompt: seq<Token>, response: seq<Token>, mask: seq<nat>,
                                   logprobs: Option<seq<real>>, numTurns: nat, chainId: nat,
                                   images: MediaList, videos: MediaList,
                                   versions: seq<Version>, span: Result<Option<Span>>, lengthLimited: bool)

  datatype Closed = Closed(trajectory: Trajectory, orderSeq: nat)

  ghost predicate DistinctIds<B>(chains: seq<Chain<B>>) {
    forall i, j | 0 <= i < j < |chains| :: chains[i].id != chains[j].id
  }

  /** Index of the chain with the given id. */
  function Find<B>(chains: seq<Chain<B>>, id: nat): (r: Option<nat>)
    ensures r.Some? ==> r.value < |chains| && chains[r.value].id == id
    ensures r.None? ==> forall c | c in chains :: c.id != id
  {
    if chains == [] then None
    else if chains[0].id == id then Some(0)
    else match Find(chains[1..], id)
         case None => None
         case Some(i) => Some(i + 1)
  }

  lemma {:induction false} FindIsFirst<B>(chains: seq<Chain<B>>, id: nat, i: nat)
    requires i < |chains| && chains[i].id == id
    requires forall k | 0 <= k < i :: chains[k].id != id
    ensures Find(chains, id) == Some(i)
  {
    if i > 0 {
      FindIsFirst(chains[1..], id, i - 1);
    }
  }

  lemma FindIsNone<B>(chains: seq<Chain<B>>, id: nat)
    requires forall k | 0 <= k < |chains| :: chains[k].id != id
    ensures Find(chains, id) == None
  {
  }

  lemma FindMember<B>(chains: seq<Chain<B>>, c: Chain<B>)
    requires DistinctIds(chains)
    requires c in chains
    ensures Find(chains, c.id).Some? && chains[Find(chains, c.id).value] == c
  {
    var i :| 0 <= i < |chains| && chains[i] == c;
  }

  /** Trainable tokens over a list of chains. */
  function TotalTrainable(chains: seq<Chain<Buffer>>): nat {
    if chains == [] then 0 else chains[0].buffer.Trainable() + TotalTrainable(chains[1..])
  }

  function TotalClosed(closed: seq<Closed>): nat {
    if closed == [] then 0 else Sum(closed[0].trajectory.mask) + TotalClosed(closed[1..])
  }

  lemma {:induction false} TotalTrainableAppend(a: seq<Chain<Buffer>>, b: seq<Chain<Buffer>>)
    ensures TotalTrainable(a + b) == TotalTrainable(a) + TotalTrainable(b)
  {
    if a == [] {
      assert a + b == b;
    } else {
      TotalTrainableAppend(a[1..], b);
      assert (a + b)[1..] == a[1..] + b;
    }
  }

  lemma {:induction false} TotalClosedAppend(a: seq<Closed>, b: seq<Closed>)
    ensures TotalClosed(a + b) == TotalClosed(a) + TotalClosed(b)
  {
    if a == [] {
      assert a + b == b;
    } else {
      TotalClosedAppend(a[1..], b);
      assert (a + b)[1..] == a[1..] + b;
    }
  }

  lemma {:induction false} TotalTrainableSplit(a: seq<Chain<Buffer>>, i: nat)
    requires i < |a|
    ensures TotalTrainable(a) == TotalTrainable(RemoveAt(a, i)) + a[i].buffer.Trainable()
  {
    hide Buffer.Trainable;
    if i == 0 {
      assert RemoveAt(a, 0) == a[1..];
    } else {
      TotalTrainableSplit(a[1..], i - 1);
      assert RemoveAt(a, i) == [a[0]] + RemoveAt(a[1..], i - 1);
    }
  }

  lemma TotalTrainableUpdate(a: seq<Chain<Buffer>>, i: nat, c: Chain<Buffer>)
    requires i < |a|
    ensures TotalTrainable(a[i := c]) + a[i].buffer.Trainable() == TotalTrainable(a) + c.buffer.Trainable()
  {
    TotalTrainableSplit(a, i);
    TotalTrainableSplit(a[i := c], i);
    assert RemoveAt(a[i := c], i) == RemoveAt(a, i);
  }
}
