/** Conversation messages, their canonical form, and the chained prefix hashes
    a session uses to recognise a conversation it has already seen. */
module Messages {
  import opened Wrappers

  /** A tool call; `payload` stands for everything but the id. */
  datatype ToolCall = ToolCall(id: Option<string>, payload: string)

  /** A message; `content` stands for every field that takes part in the comparison unchanged. */
  datatype Message = Message(role: string, content: string,
                             toolCallId: Option<string>, toolCalls: Option<seq<ToolCall>>)

  /** Tool schemas are compared as they are. */
  type Tools = Option<seq<string>>

  function WithoutIds(calls: seq<ToolCall>): (r: seq<ToolCall>)
    ensures |r| == |calls|
    ensures forall i | 0 <= i < |calls| :: r[i] == calls[i].(id := None)
  {
    seq(|calls|, i requires 0 <= i < |calls| => calls[i].(id := None))
  }

  /** Tool-call ids are dropped before messages are compared. */
  function Canonical(m: Message): Message {
    m.(toolCallId := None, toolCalls := match m.toolCalls
                                        case None => None
                                        case Some(calls) => Some(WithoutIds(calls)))
  }

  /** Two messages say the same: they differ at most in the ids of tool calls. */
  predicate SaysTheSame(a: Message, b: Message) {
    && a.role == b.role && a.content == b.content && a.toolCalls.Some? == b.toolCalls.Some?
    && (a.toolCalls.Some? && b.toolCalls.Some? ==>
          && |a.toolCalls.value| == |b.toolCalls.value|
          && forall i | 0 <= i < |a.toolCalls.value| :: a.toolCalls.value[i].payload == b.toolCalls.value[i].payload)
  }

  /** The canonical form forgets the ids of tool calls and nothing else. */
  lemma CanonicalForgetsIds(a: Message, b: Message)
    ensures Canonical(a) == Canonical(b) <==> SaysTheSame(a, b)
  {
    if a.toolCalls.Some? && b.toolCalls.Some? {
      var x, y := WithoutIds(a.toolCalls.value), WithoutIds(b.toolCalls.value);
      if x == y {
        forall i | 0 <= i < |x| ensures a.toolCalls.value[i].payload == b.toolCalls.value[i].payload {
          assert x[i] == y[i];
        }
      }
      if SaysTheSame(a, b) {
        assert x == y;
      }
    }
  }

  type Hash = nat

  /** SHA-256 over the two tagged encodings: `digest` of a canonical message,
      `link` of a previous prefix hash and a message hash, `empty` for the empty prefix. */
  datatype Hasher = Hasher(empty: Hash, digest: Message -> Hash, link: (Hash, Hash) -> Hash) {

    /** SHA-256 treated as collision-free. */
    ghost predicate Injective() {
      && (forall a, b {:trigger digest(a), digest(b)} :: digest(a) == digest(b) ==> a == b)
      && (forall p, m, q, n {:trigger link(p, m), link(q, n)} :: link(p, m) == link(q, n) ==> p == q && m == n)
    }

    function Tip(hashes: seq<Hash>): Hash {
      if hashes == [] then empty else hashes[|hashes| - 1]
    }

    function Next(previous: Hash, m: Message): Hash {
      link(previous, digest(Canonical(m)))
    }

    /** The hash of a whole conversation, defined on its own. */
    function Fold(messages: seq<Message>): Hash {
      if messages == [] then empty
      else Next(Fold(messages[..|messages| - 1]), messages[|messages| - 1])
    }

    /** One hash per non-empty prefix. */
    function Prefixes(messages: seq<Message>): (r: seq<Hash>)
      ensures |r| == |messages|
      ensures forall i | 0 <= i < |messages| :: r[i] == Fold(messages[..i + 1])
    {
      seq(|messages|, i requires 0 <= i < |messages| => Fold(messages[..i + 1]))
    }

    /** What appending `added` to an already hashed list gives. */
    function Extended(existing: seq<Hash>, added: seq<Message>): (r: seq<Hash>)
      ensures |r| == |existing| + |added|
    {
      if added == [] then existing
      else
        var before := Extended(existing, added[..|added| - 1]);
        before + [Next(Tip(before), added[|added| - 1])]
    }
  }

  lemma PrefixesTip(h: Hasher, messages: seq<Message>)
    ensures h.Tip(h.Prefixes(messages)) == h.Fold(messages)
  {
    assert messages[..|messages|] == messages;
  }

  lemma PrefixesTake(h: Hasher, messages: seq<Message>, n: nat)
    requires n <= |messages|
    ensures h.Prefixes(messages)[..n] == h.Prefixes(messages[..n])
  {
    forall i | 0 <= i < n
      ensures h.Prefixes(messages)[i] == h.Prefixes(messages[..n])[i]
    {
      assert messages[..n][..i + 1] == messages[..i + 1];
    }
  }

  lemma PrefixesSnoc(h: Hasher, messages: seq<Message>, last: Message)
    ensures h.Prefixes(messages + [last]) == h.Prefixes(messages) + [h.Next(h.Fold(messages), last)]
  {
    var all := messages + [last];
    assert all[..|all|] == all && all[..|messages|] == messages;
    PrefixesTake(h, all, |messages|);
  }

  /** Hashing incrementally gives the hashes of the whole history. */
  lemma {:induction false} ExtendingIsHashingTheWhole(h: Hasher, done: seq<Message>, added: seq<Message>)
    ensures h.Extended(h.Prefixes(done), added) == h.Prefixes(done + added)
    decreases |added|
  {
    if added == [] {
      assert done + added == done;
    } else {
      var n := |added| - 1;
      var all := done + added;
      ExtendingIsHashingTheWhole(h, done, added[..n]);
      PrefixesTip(h, done + added[..n]);
      PrefixesSnoc(h, done + added[..n], added[n]);
      assert all == (done + added[..n]) + [added[n]];
    }
  }

  /** `a` and `b` agree message by message, up to tool-call ids. */
  ghost predicate SameConversation(a: seq<Message>, b: seq<Message>) {
    |a| == |b| && forall i | 0 <= i < |a| :: Canonical(a[i]) == Canonical(b[i])
  }

  lemma NextIsInjective(h: Hasher, p: Hash, m: Message, q: Hash, n: Message)
    requires h.Injective()
    ensures h.Next(p, m) == h.Next(q, n) <==> p == q && Canonical(m) == Canonical(n)
  {
  }

  lemma {:induction false} EqualHashesMeanSameConversation(h: Hasher, a: seq<Message>, b: seq<Message>)
    requires h.Injective()
    requires |a| == |b|
    ensures h.Fold(a) == h.Fold(b) <==> SameConversation(a, b)
    decreases |a|
  {
    hide Hasher.Injective, Hasher.Next;
    if a != [] {
      var n := |a| - 1;
      EqualHashesMeanSameConversation(h, a[..n], b[..n]);
      NextIsInjective(h, h.Fold(a[..n]), a[n], h.Fold(b[..n]), b[n]);
    }
  }

  /** Two prefix hashes at the same index agree exactly when the prefixes do. */
  lemma PrefixHashesAgreeIff(h: Hasher, a: seq<Message>, b: seq<Message>, i: nat)
    requires h.Injective()
    requires i < |a| && i < |b|
    ensures h.Prefixes(a)[i] == h.Prefixes(b)[i] <==> SameConversation(a[..i + 1], b[..i + 1])
  {
    EqualHashesMeanSameConversation(h, a[..i + 1], b[..i + 1]);
  }

  /** The loop that extends a list of prefix hashes. */
  method ExtendPrefixHashes(h: Hasher, existing: seq<Hash>, added: seq<Message>) returns (hashes: seq<Hash>)
    ensures hashes == h.Extended(existing, added)
    ensures existing == [] ==> hashes == h.Prefixes(added)
  {
    hashes := existing;
    var previous := if existing == [] then h.empty else existing[|existing| - 1];
    for i := 0 to |added|
      invariant hashes == h.Extended(existing, added[..i])
      invariant previous == h.Tip(hashes)
    {
      assert added[..i + 1][..i] == added[..i];
      previous := h.link(previous, h.digest(Canonical(added[i])));
      hashes := hashes + [previous];
    }
    assert added[..|added|] == added;
    ExtendingIsHashingTheWhole(h, [], added);
    assert h.Prefixes([]) == [] && [] + added == added;
  }
}
