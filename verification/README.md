# Verified model of uni-agent

uni-agent runs language-model agents against an inference backend and turns their conversations into
token-level training trajectories. This project models the parts of it whose correctness spans many
calls, and proves what they guarantee. `dafny verify dfyconfig.toml` checks everything.

## What is modelled

**The gateway session** (`session_*.dfy`, `gateway_session.dfy`, `trajectory_buffer.dfy`, `chains.dfy`,
`selection.dfy`, `messages.dfy`, `codec.dfy`). One conversation is a set of token chains that overlapping
requests extend. A request prepares under a lock, calls the backend without it, and commits or releases
under it again; finalize, abort and cancellation may come between any two of these. The class
`GatewaySession` has one method per stretch of code between two lock boundaries, works on mutable buffer
objects, and keeps a ghost record of the requests in flight. Every method is proved to take exactly one step
of a state machine over values (`SessionModel.Step`), and all theorems about runs (`SessionTheorems`) are about
arbitrary sequences of those steps. The codec is a record of function values with a contract: merging an
assistant appends exactly its tokens with mask 1; merging context keeps the tokens so far and appends mask-0
tokens that end in turn separator and generation prompt; initial tokens end the same way. Aligned log
probabilities are kept, and extended by those of the generated tokens or by zeros. What a session asks the codec
and the backend for (`session_requests.dfy`), when it lets a request through (`session_outcomes.dfy`) and what a
finished trajectory holds (`session_records.dfy`) is stated by fields, for every run.

**The router's cached state.** Prefix hashes continued from a checkpoint that lives in a bounded table
(`prefix_hashes.dfy`, `prefix_cache.dfy`, `prefix_resolver.dfy`, `per_request_store.dfy`); the reverse index
from blocks to replicas with its counters (`kv_index.dfy`, `kv_batch.dfy`, `kv_cache_store.dfy`); and the
in-flight accounting that dispatch and completion spread over three tables (`inflight.dfy`, `balancer.dfy`).
Each is compared with something simple: hashing the whole prompt, one set of blocks per replica, a sum over
outstanding requests. Where the agreement needs a discipline, the discipline is stated, and a lemma says what
happens without it.

**The gateway manager** (`manager.dfy`, `gateway_manager.dfy`). Counters, routes and actor registries as
lifecycle calls interleave at their awaits.

**Four smaller parts.** Lowering Anthropic messages and folding mid-conversation system entries
(`anthropic_*.dfy`), the editor tool and its undo stacks (`editor*.dfy`, `edit_file_tool.dfy`), the ReAct loop
and its transcript (`react.dfy`), and the extraction of a boxed answer (`boxed.dfy`).

Code that updates objects is a class or a method with loops here too, proved against a function of its old
state; the properties are then lemmas about that function.

## Where the code and its documentation differ

The model follows the code. Each difference below is stated by a lemma, with a counterexample or an exact
condition.

- A request that repeats a chain's whole history merges no context. The next generation is then appended
  directly to the previous one, so its boundary does not end in an assistant prefix. Rewriting that assistant
  either raises, or, if the generated text happens to end like the prefix, cuts trainable tokens that no
  statistic reports (`EchoBlocksRollback`, `EchoLosesTokens`). `TokenBalance` is the law of every run;
  `TokenConservation` is the law without the correction, for runs without such requests; `RollBackSoundIff` is the
  condition per chain.
- `per_replica_block_counts` is documented as the number of distinct blocks. It is that number plus a drift,
  which is 0 when adds are new and removes present (`CountIsHeldPlusDrift`, `RepeatedAddDrifts`).
- Folding one payload of cache events forgets the order of stores and removals (`FoldingIsFaithfulIff`).
- The prefix-hash cache assumes that prompts only grow. It notices a shrunk prompt, not a rewritten one of the
  same or a greater length (`RunAnsweredRightIff`, `AnswerIsRightIff`, `RewrittenPromptIsStale`).
- The in-flight turn sum is documented to return to 0 when idle, and the token gauge to be symmetric. They are
  while an id has one outstanding request and keeps its row. The gateway sends the session id with each of its
  overlapping generations, and then they are not (`DispatchBalancesIff`, `DispatchTokensBalanceIff`,
  `OverlapDrifts`, `EvictBalancesIff`, `EvictTokensBalanceIff`, `EvictionDrifts`).
- An abort of an unknown session succeeds at the actor, so two overlapping aborts decrement the manager's counter
  twice (`OverlappingAborts`). If the session id is created anew before the second one ends, that end also removes
  the new session's route (`LateAbortTakesTheNewRoute`). A create of an id that is already routed is accepted
  and counts a second slot (`SecondCreateDrifts`). `StepAgreesIff` is the condition for one step of any kind,
  `AgreesThroughoutIff` the one for whole runs, and `EndKeepsCountersIff` says how far off a bad end leaves them.
- A burst of creates stays balanced as long as a create that fails does so at a most loaded gateway
  (`BalancedThroughoutIff`, `FailedCreateUnbalances`).
- Undoing a create leaves an empty file, and undoing any other edit writes the text back with line ends
  normalized and tabs expanded (`UndoIsLifo`, `UndoRestoresIff`).
- A timeout budget below 0 still allows one timeout: the bound is `max(budget, 0) + 1`
  (`RunEpisode`, `TimeoutBoundIff`, `NegativeBudgetAllowsOne`).
- What the brace scan returns is balanced only if its first brace is an opening one (`ReturnedBalancedIff`,
  `UnmatchedBoxReturned`).

## Model

| member | source | states |
|---|---|---|
| Messages.ExtendingIsHashingTheWhole | uni_agent/gateway/session/session.py:643-657 | Extending the prefix hashes of a history by further messages gives, hash for hash, the prefix hashes of the whole history. |
| Messages.EqualHashesMeanSameConversation | uni_agent/gateway/session/session.py:659-667 | With a collision-free hash, two equally long histories have the same chained hash if and only if they agree message by message up to tool-call ids. |
| Messages.PrefixHashesAgreeIff | uni_agent/gateway/session/session.py:630-657 | Two prefix hashes at one index agree if and only if the canonicalized message prefixes agree. |
| Messages.CanonicalForgetsIds | uni_agent/gateway/session/codec.py:395-409 | The canonical form of a message forgets the ids of tool calls and nothing else: two messages have one canonical form if and only if role, content and calls agree up to ids. |
| Messages.ExtendPrefixHashes | uni_agent/gateway/session/session.py:643-657 | The loop: from an empty list it yields one hash per prefix, each the independently defined hash of that prefix. |
| Selection.BestIsUnique | uni_agent/gateway/session/session.py:576-628 | The declarative rule (free, same tools, deepest, exact before rollback, latest commit, a rollback only when alone at the top) singles out at most one chain. |
| Selection.SelectIgnoresOrder | uni_agent/gateway/session/session.py:576-628 | Every permutation of the active chains leads to the same selection. |
| Selection.NothingSelectedIff | uni_agent/gateway/session/session.py:613-628 | Nothing is selected exactly when there is no candidate, or the deepest candidates are several chains that would all need a rollback. |
| Selection.MaxRanked | uni_agent/gateway/session/session.py:617-625 | `max` over ranked tuples returns a member that none of the others exceeds in (depth, exact, order, id). |
| Selection.Conclude | uni_agent/gateway/session/session.py:613-628 | From what the scan collected, the ambiguity test and the maximum give the declarative selection. |
| Selection.SelectChain | uni_agent/gateway/session/session.py:576-628 | The single pass over the active chains returns exactly the declarative selection, `None` included. |
| SessionInvariant.RollBackAccounts | uni_agent/gateway/session/session.py:445-474 | Whatever a rollback removes is accounted for: trainable tokens kept, dropped and cut with the prefix sum to those before; one version mark goes. |
| SessionInvariant.CleanBoundaryRollsBack | uni_agent/gateway/session/session.py:445-474 | If rendered context ends at the recorded boundary, a rollback raises nothing and the assistant prefix it cuts holds no trainable token. |
| SessionInvariant.PrepareOk | uni_agent/gateway/session/session.py:412-574 | A preparation that does not exhaust the capacity continues the snapshot it selected: its tokens start with the (cut-back) snapshot, marks and lengths agree, and all trainable tokens are accounted for. |
| SessionInvariant.PrepareExhausted | uni_agent/gateway/session/session.py:479-515 | An exhausted preparation hands over the chain it selected, cut back exactly as the rollback says, never a reserved one. |
| SessionInvariant.ReceiveOk | uni_agent/gateway/session/session.py:289-314 | After the backend returned, the private buffer is the context followed by exactly the generated tokens, all trainable, with one more version mark. |
| SessionInvariant.CommittedChainOk | uni_agent/gateway/session/session.py:719-760 | The chain a commit writes is well formed: history, hashes, boundary lengths, alignment and version marks agree with the generations that survive in it. |
| SessionSafety.RunKeeps | uni_agent/gateway/session/session.py:224-394 | The whole invariant (well-formed chains, ownership, partition of ids, order numbers, token balance, terminal phases) holds after every interleaving of prepare, backend return, commit, release, cancel, finalize and abort. |
| SessionSafety.StepKeeps | uni_agent/gateway/session/session.py:224-394 | Each atomic step keeps the invariant. |
| SessionSafety.CommitFindsItsChain | uni_agent/gateway/session/session.py:795-799 | A request about to commit finds its chain active, and it is still the snapshot it was prepared from; the lookup cannot raise. |
| SessionSafety.CloseKeeps | uni_agent/gateway/session/session.py:762-793 | Closing an exhausted chain keeps the invariant, also when a rollback leaves nothing of it. |
| SessionSafety.CommitBalances | uni_agent/gateway/session/session.py:719-760 | A commit raises the trainable total (held plus dropped plus cut) by exactly the tokens it completed. |
| SessionTheorems.ExclusiveOwnership | uni_agent/gateway/session/session.py:240-266 | In every reachable active state no two requests hold one chain, the reserved ids are exactly the held ones, and each held chain is still the snapshot of its request. |
| SessionTheorems.CommitExtendsItsSnapshot | uni_agent/gateway/session/session.py:324-341 | A commit replaces exactly its chain, whose tokens become the context sent (which starts with the snapshot, cut back or not) plus the generated tokens; every other chain stays and only its reservation goes. |
| SessionTheorems.ReservedChainIsUntouched | uni_agent/gateway/session/session.py:585-587 | No number of other steps changes a held chain or the record of its holder, short of ending the session: no update is lost. |
| SessionTheorems.TokenBalance | uni_agent/gateway/session/session.py:713-760 | In every run that is not aborted: mask-1 tokens in active and finished chains, plus those reported as dropped, plus those cut away with an assistant prefix, are the tokens of all committed generations. |
| SessionTheorems.TokenConservation | uni_agent/gateway/session/session.py:713-760 | Conservation without the correction, for every run in which no request repeats a chain's whole history. |
| SessionEcho.EchoLosesTokens | uni_agent/gateway/session/session.py:479-492 | A concrete run with such a request: three tokens are generated and committed, two are accounted for. |
| SessionEcho.EchoBlocksRollback | uni_agent/gateway/session/session.py:466-469 | After such a request, rewriting the repeated assistant raises `ValueError` instead of rolling back. |
| SessionTheorems.AssertionsHold | uni_agent/gateway/session/session.py:689-711 | In every reachable state the boundary lengths are within bounds, the history is one longer than at the boundary, mask and logprobs are aligned, and there is one version mark per surviving generation; the tokens are the last context plus its output. |
| SessionTheorems.RollBackSoundIff | uni_agent/gateway/session/session.py:445-474 | For every reachable chain a rollback succeeds without losing a trainable token if and only if the last token before the boundary was not generated, or there is no assistant prefix to cut. |
| SessionTheorems.RollBackRestoresContext | uni_agent/gateway/session/session.py:445-474 | After merged context, a rollback gives back exactly the context of the last generation less the assistant prefix (cut from the prompt where nothing else is left), drops exactly its output, and removes its mark. |
| SessionTheorems.ChoiceMeaning | uni_agent/gateway/session/session.py:588-607 | An exact selection means the chain's history is a prefix of the request up to tool-call ids; a rollback selection means they agree up to the last assistant and differ there. |
| SessionChoice.ChosenIff | uni_agent/gateway/session/session.py:576-628 | In every reachable state, with a collision-free hash and by the messages alone, exactly this chain is continued: free, same tools, sharing most of the request; whole ones before one to be cut back, the latest committed among whole ones; a chain is cut back only where that is enabled and no other shares as much. |
| SessionTheorems.ChainFates | uni_agent/gateway/session/session.py:762-812 | Every id handed out is in exactly one of active, finished, or dropped by a rollback that left nothing; no id occurs twice. |
| SessionTheorems.FinalizeOrder | uni_agent/gateway/session/session.py:365-381 | Finalize returns every surviving chain exactly once, strictly in the order of its last commit or close. |
| SessionTheorems.FailureLeavesNoTrace | uni_agent/gateway/session/session.py:268-363 | A request that ends in an exception, wherever, changes no chain, finished trajectory, counter or statistic, and once released leaves its chain free and every other request as it was. |
| SessionTheorems.TerminalIsFinal | uni_agent/gateway/session/session.py:365-394 | After finalize or abort nothing that comes later changes what was committed, and at most one finalize succeeds. |
| SessionCapacity.CapacityBound | uni_agent/gateway/session/session.py:544-551 | With a capacity, every call has context < capacity and context + budget <= capacity; if the backend honours the budget, every buffer and every finished trajectory fits the capacity. |
| SessionCapacity.SealFits | uni_agent/gateway/session/session.py:544-551 | The clamp: the budget sent never exceeds the room left, whatever the request asked for. |
| SessionRequests.BaseStarts | uni_agent/gateway/session/session.py:445-478 | By fields: a continuation starts from its chain's tokens, marks, log probabilities, versions and media, or from those cut back to the last boundary with the assistant prefix cut off the end. |
| SessionRequests.PreparationSays | uni_agent/gateway/session/session.py:412-574 | By fields and by the codec's answers: a request that is let through carries its own messages, tools and budget (the smaller of max_tokens and the room left, max_tokens without a capacity); its context is the initial rendering of all its messages, or the chain's tokens and the codec's rendering of exactly the messages the chain does not cover. |
| SessionRequests.EveryRequestIsAsked | uni_agent/gateway/session/session.py:224-394 | That holds for every request in flight in every reachable state, and what came back was appended to exactly that. |
| SessionRequests.PreparedForItsRequest | uni_agent/gateway/session/session.py:240-266 | In every run a request that is let through is prepared for its own messages, not another one's. |
| SessionRequests.ReceiveSays | uni_agent/gateway/session/session.py:283-314 | The backend's answer is appended: its tokens with mask 1, its version, and its log probabilities behind the old ones when they are asked for; without that the buffer has none. |
| SessionOutcomes.PreparationDecided | uni_agent/gateway/session/session.py:412-574 | How every preparation of a reachable session ends, decided by the selection, the capacity and the codec's answers: it calls the backend, finds nothing more fits, or raises, and what; a rollback raises ValueError exactly when what it keeps does not end in the assistant prefix. |
| SessionOutcomes.EveryPreparationDecided | uni_agent/gateway/session/session.py:224-266 | In every run a new request is let through, takes its chain away, or leaves the session as it was, exactly as its preparation ends. |
| SessionOutcomes.EveryAnswerDecided | uni_agent/gateway/session/session.py:283-357 | In every run a call counts as generated exactly when the backend answered and the answer is usable (a log probability per token where asked for, merged by the codec, aligned), and commits exactly when the session is active and its tokens decode. |
| SessionOutcomes.RollbackOnlyWhereEnabled | uni_agent/gateway/session/session.py:576-628 | A session with rollbacks disabled never cuts a chain back in any run, and its rollback statistics stay 0. |
| SessionRecords.CommitRecordsItsRequest | uni_agent/gateway/session/session.py:719-760 | In every run a commit puts a chain with the request's messages and the reply, its tools, buffer, media and boundary in place of its base or behind all others, and records the generation. |
| SessionRecords.CloseHoldsChain | uni_agent/gateway/session/session.py:762-793 | A request that takes a chain away found it full, and leaves a length-limited trajectory with exactly what the chain held, or what the rollback left of it; a chain without a generated token left is dropped. |
| SessionRecords.FreshExhausted | uni_agent/gateway/session/session.py:420-432 | A new chain is refused only when its initial tokens fill the capacity. |
| SessionRecords.FinalizeHoldsChains | uni_agent/gateway/session/session.py:365-381 | Finalize turns every active chain into a trajectory with exactly its prompt, response, mask, log probabilities, versions, turns and media. |
| SessionRecords.TurnsCountMessages | uni_agent/gateway/session/session.py:824-863 | The number of turns is one more than the number of user and assistant messages. |
| SessionRecords.TrajectoriesHoldTheirTokens | uni_agent/gateway/session/session.py:824-863 | In every run, from the generations alone: a trajectory that was not cut back holds the last generation's context and its output, one that was holds the last context less the assistant prefix; its prompt is the chain's initial tokens, less the prefix where the cut fell there. |
| TrajectoryBuffers.TrajectoryBuffer.Copy | uni_agent/gateway/session/session.py:669-677 | The copy is a new object with equal contents, so edits to it cannot reach a chain. |
| TrajectoryBuffers.TrajectoryBuffer.RollBackTo | uni_agent/gateway/session/session.py:456-474 | In-place truncation and prefix cut leave the specified buffer, or raise where the prefix is not there. |
| TrajectoryBuffers.TrajectoryBuffer.TakeOver | uni_agent/gateway/session/session.py:302-314 | Adopting a merged stream in place keeps the prompt and takes over tokens, mask and log probabilities, or raises if the merge changed the prompt or broke alignment. |
| GatewaySessions.SelectThroughViews | uni_agent/gateway/session/session.py:576-628 | Selecting among chains that hold buffer references is selecting among their contents. |
| GatewaySessions.CopyOf | uni_agent/gateway/session/session.py:440-477 | The private copy of the selected chain, rolled back or not, is a new buffer with the specified contents or the specified exception. |
| GatewaySessions.MergeInto | uni_agent/gateway/session/session.py:479-515 | Merging the uncovered messages edits only the private copy and gives the specified encoded data, exhausted or not. |
| GatewaySessions.EncodeFresh | uni_agent/gateway/session/session.py:412-439 | A request that continues nothing gets a new buffer from the initial tokens, exhausted if they fill the capacity. |
| GatewaySessions.SealData | uni_agent/gateway/session/session.py:516-574 | Budget clamp and boundary snapshot of the encoded data; without a message there is no hash to record. |
| GatewaySessions.MergeOutput | uni_agent/gateway/session/session.py:283-314 | The backend's output is merged into the request's own buffer, outside the lock, or raises for missing or misaligned logprobs. |
| GatewaySessions.GatewaySession.constructor | uni_agent/gateway/session/session.py:179-218 | A new session is the model's initial state and meets the invariant. |
| GatewaySessions.GatewaySession.PrepareGenerationInputs | uni_agent/gateway/session/session.py:412-574 | Preparation modifies nothing of the session and returns exactly what the model's preparation does, in a new buffer. |
| GatewaySessions.GatewaySession.StartGeneration | uni_agent/gateway/session/session.py:240-266 | The locked first part takes exactly the model's prepare step: rejects, closes an exhausted chain, or reserves and calls. |
| GatewaySessions.GatewaySession.Reserve | uni_agent/gateway/session/session.py:264-266 | Reserving adds the chain id, if any, and changes no chain. |
| GatewaySessions.GatewaySession.ReceiveOutput | uni_agent/gateway/session/session.py:268-322 | The unlocked middle part takes exactly the model's receive step and writes only its own buffer. |
| GatewaySessions.GatewaySession.FinishGeneration | uni_agent/gateway/session/session.py:324-357 | The locked last part takes exactly the model's commit step, or fails with the phase or decode error. |
| GatewaySessions.GatewaySession.CommitGenerationToChain | uni_agent/gateway/session/session.py:719-760 | The commit writes exactly the model's chain in its place and returns its id. |
| GatewaySessions.GatewaySession.FindActiveChain | uni_agent/gateway/session/session.py:795-799 | Linear search finds the index of the active chain with the id, or tells there is none. |
| GatewaySessions.GatewaySession.CloseLengthExhaustedChain | uni_agent/gateway/session/session.py:762-793 | Closing takes exactly the model's close step: finished cut back, or dropped when the rollback left no generated token. |
| GatewaySessions.GatewaySession.BuildTrajectory | uni_agent/gateway/session/session.py:824-860 | The trajectory of a chain is the model's, version span included, and its alignment assertion holds. |
| Chains.SpanMeaning | uni_agent/gateway/session/session.py:836-844 | The version span is the least lower and the greatest upper mark; it is missing exactly when no generation carries a version, and folding raises exactly when one of several marks lacks its upper end. |
| GatewaySessions.GatewaySession.ReleaseChainReservation | uni_agent/gateway/session/session.py:358-363 | The shielded release frees exactly the failed request's chain. |
| GatewaySessions.GatewaySession.Cancel | uni_agent/gateway/session/session.py:358-363 | A cancellation anywhere leaves only the reservation to release. |
| GatewaySessions.GatewaySession.MaterializeActiveChains | uni_agent/gateway/session/session.py:814-822 | Every active chain is finished in order, under its last commit's order number, and none stays active. |
| GatewaySessions.GatewaySession.Finalize | uni_agent/gateway/session/session.py:365-381 | Finalize takes the model's step, succeeds exactly in the active phase, and returns the sorted trajectories. |
| GatewaySessions.GatewaySession.Abort | uni_agent/gateway/session/session.py:383-394 | Abort takes the model's step, is idempotent, and raises only after finalize. |
| PrefixHashes.HashIncrementally | uni_agent/agent_aware_router/utils/hash.py:53-94 | The loop returns the continued chain and its head, fails exactly when a block to hash holds a token outside 32 bits, rejects a block size below 1, and returns nothing new for a checkpoint beyond the prompt. |
| PrefixHashes.ContinuingIsStartingOver | uni_agent/agent_aware_router/utils/hash.py:83-94 | Hashing from a checkpoint, appended to the checkpoint, is hashing from scratch. |
| PrefixHashes.ChainsAgreeIff | uni_agent/agent_aware_router/utils/hash.py:26-50 | With a collision-free hash, two chains agree at a block if and only if the prompts agree up to its end. |
| PrefixCache.CacheIsTransparent | uni_agent/agent_aware_router/utils/prefix_cache.py:26-59 | For every run in which prompts asked for under cached ids keep or lose whole blocks, with evictions anywhere, each answer and each error is that of hashing the whole prompt. |
| PrefixCache.RunAnsweredRightIff | uni_agent/agent_aware_router/utils/prefix_cache.py:26-59 | With a collision-free hash, all answers of a run are those of hashing the whole prompt if and only if every prompt asked for under a cached id keeps the blocks of the id's last prompt, has fewer, or holds a later token that cannot be packed. |
| PrefixCache.AnswerIsRightIff | uni_agent/agent_aware_router/utils/prefix_cache.py:38-59 | Exactly when an answer is right: the id is not cached, or the prompt keeps the blocks it was last asked with (or has fewer). |
| PrefixCache.RewrittenPromptIsStale | uni_agent/agent_aware_router/utils/prefix_cache.py:38-51 | A same-length prompt with another token is answered with the old prompt's hashes. |
| PrefixCache.LiveIdsAreCached | uni_agent/agent_aware_router/utils/prefix_cache.py:26-59 | In every run the cached ids are exactly those answered for and not evicted since; an error neither adds one nor loses one. |
| PrefixCache.ParentIsLastHash | uni_agent/agent_aware_router/utils/prefix_cache.py:38-59 | In every run a cached row's parent hash is its last hash, or 0 when it has none. |
| PrefixCache.BlockSizeIsFinal | uni_agent/agent_aware_router/store/data_store.py:107-114 | Once learned, the block size never changes. |
| PrefixResolver.ResolvePrefixHashes | uni_agent/agent_aware_router/utils/prefix_cache.py:26-59 | Against the live table the answer is the cache's answer and the table becomes the cache's next state, less at most one evicted row; other keys of every row stay. |
| PrefixResolver.ExtendRow | uni_agent/agent_aware_router/utils/prefix_cache.py:44-51 | The cached row object is extended where it is, hashes and parent together, or stays untouched when packing fails. |
| PrefixResolver.StoreFresh | uni_agent/agent_aware_router/utils/prefix_cache.py:52-59 | A miss or a shrunk prompt stores a newly hashed row, which may cost another request its row. |
| PerRequestStores.PerRequestStore.Put | uni_agent/agent_aware_router/store/per_request_store.py:43-50 | Storing a row keeps the table within its bound; only a full table loses a row, exactly one and another request's. |
| PerRequestStores.PerRequestStore.Set | uni_agent/agent_aware_router/store/per_request_store.py:69-74 | One key of one row changes; everything else stays, but for an eviction. |
| PerRequestStores.PerRequestStore.Incr | uni_agent/agent_aware_router/store/per_request_store.py:76-83 | Adds to a number that defaults to 0 and returns the new value; a non-number is rejected and nothing changes. |
| PerRequestStores.PerRequestStore.Delete | uni_agent/agent_aware_router/store/per_request_store.py:85-93 | Drops one key of one row and prunes the row when it is empty. |
| PerRequestStores.PerRequestStore.DropFromRows | uni_agent/agent_aware_router/store/per_request_store.py:95-107 | Drops the key from exactly the given rows, prunes the emptied ones, and counts them. |
| PerRequestStores.PerRequestStore.DeleteWhere | uni_agent/agent_aware_router/store/per_request_store.py:109-117 | Exactly the rows with that value lose the key; afterwards none has it. |
| PerRequestStores.PerRequestStore.DeleteKey | uni_agent/agent_aware_router/store/per_request_store.py:119-127 | Every row loses the key and the number of rows that had it is returned. |
| KvIndex.IndexListsWhatReplicasHold | uni_agent/agent_aware_router/store/kv_cache_store.py:56-104 | After any adds, removes and clears the index has no empty set and lists for each replica exactly the GPU blocks it holds. |
| KvIndex.IndexIsItsBlocks | uni_agent/agent_aware_router/store/kv_cache_store.py:25-46 | An index without empty sets is determined by the per-replica block sets. |
| KvIndex.CountIsHeldPlusDrift | uni_agent/agent_aware_router/store/kv_cache_store.py:76-117 | The incremental GPU count is the number of held blocks plus the drift (stale adds less absent removes since the last clear), so it is that number if and only if the drift is 0. |
| KvIndex.CountIsNetAdded | uni_agent/agent_aware_router/store/kv_cache_store.py:60-104 | The counter of every layer, CPU and SSD included, is the blocks named in the replica's adds less those in its removes since its last clear. |
| KvIndex.OnlyGpuIsIndexed | uni_agent/agent_aware_router/store/kv_cache_store.py:76-104 | Updates of the other layers never show in the index: a run without them leaves the same index. |
| KvIndex.CleanRunsCount | uni_agent/agent_aware_router/store/kv_cache_store.py:76-117 | When every add is new and every remove present, the count is the number of distinct blocks. |
| KvIndex.RepeatedAddDrifts | uni_agent/agent_aware_router/store/kv_cache_store.py:76-117 | Adding one block twice and removing it once leaves a count of 1 and no block. |
| KvIndex.MatchedIsLongest | uni_agent/agent_aware_router/store/kv_cache_store.py:143-153 | The matched prefix is at least n long exactly when the first n hashes are all cached on the replica. |
| KvIndex.HitRateInUnitInterval | uni_agent/agent_aware_router/store/kv_cache_store.py:143-153 | The rate is in [0, 1], 1 exactly for a wholly cached non-empty chain, and 0 exactly when there is no chain or its first block is missing. |
| KvIndex.HitsFollowUpdates | uni_agent/agent_aware_router/store/kv_cache_store.py:56-104 | Adding a chain makes it match fully; removing its k-th block cuts the match to k; updates of other replicas change no match. |
| KvBatch.FoldingIsFaithfulIff | uni_agent/agent_aware_router/collectors/parse/base.py:55-65 | Folding a payload equals its events one by one if and only if the last event about each stored block stores it. |
| KvBatch.WritingAFolding | uni_agent/agent_aware_router/collectors/collector.py:158-169 | Writing a folded update (clear, remove, add) has the folding's effect on the replica's blocks. |
| KvBatch.StoredThenRemovedStays | uni_agent/agent_aware_router/collectors/parse/vllm/kv.py:109-151 | A block stored and then removed within one payload stays listed. |
| KvCacheStores.KvCacheStore.AddBlocks | uni_agent/agent_aware_router/store/kv_cache_store.py:76-90 | The loop takes the model's add step: counts per layer, index for GPU only. |
| KvCacheStores.KvCacheStore.RemoveBlocks | uni_agent/agent_aware_router/store/kv_cache_store.py:92-104 | The loop takes the model's remove step and deletes a block nobody holds any more. |
| KvCacheStores.KvCacheStore.ClearReplica | uni_agent/agent_aware_router/store/kv_cache_store.py:56-74 | The two passes take the model's clear step on index and counts. |
| KvCacheStores.KvCacheStore.SetBlockSize | uni_agent/agent_aware_router/store/data_store.py:107-114 | The first size is kept, later ones are ignored. |
| KvCacheStores.KvCacheStore.PrefixHitRate | uni_agent/agent_aware_router/store/kv_cache_store.py:119-153 | The walk returns longest cached prefix over length, 0 for other layers, an unknown block size or an empty chain. |
| KvCacheStores.KvCacheStore.WriteUpdate | uni_agent/agent_aware_router/collectors/collector.py:158-169 | One payload moves the store from the state of one run to the state of the run continued, and the replica's blocks by the folding. |
| Inflight.CountIsDispatchedLessCompleted | uni_agent/agent_aware_router/collectors/parse/basic/inflight.py:73-104 | In every run at all, in-flight is dispatched less completed on each replica, and the balancer's counters never go below 0. |
| Inflight.GaugesCountTheRun | uni_agent/agent_aware_router/collectors/parse/basic/inflight.py:73-104 | In every run at all the gauges that only count up are the run's totals per server: dispatches let through by the pool, the lengths of their prompts together, and completions. |
| Inflight.CounterIsReplayed | uni_agent/agent_aware_router/balancer.py:275-369 | In every run exactly the servers of the pool have a counter, and it is their dispatches less their completions since they last left, never below 0: joining again changes none. |
| Inflight.GaugesAreSums | uni_agent/agent_aware_router/collectors/collector.py:215-256 | With one outstanding dispatch per id and no eviction meanwhile, count, tokens and turn sum of each replica are the sums over its outstanding requests, and 0 when it is idle. |
| Inflight.BalancerAgrees | uni_agent/agent_aware_router/balancer.py:275-303 | In such runs the balancer's counter agrees with the gauge and the outstanding requests for every server never removed. |
| Inflight.TotalIsOutstanding | uni_agent/agent_aware_router/balancer.py:351-369 | If no server was removed, the pool's total is the number of outstanding requests. |
| Inflight.DispatchBalancesIff | uni_agent/agent_aware_router/collectors/collector.py:215-256 | After a disciplined run, dispatch once more and complete everything: all turn sums are back at 0 if and only if the id was not outstanding. |
| Inflight.DispatchTokensBalanceIff | uni_agent/agent_aware_router/collectors/collector.py:215-256 | The token gauges are then back at 0 if and only if the id was not outstanding or the two prompts are equally long. |
| Inflight.OverlapDrifts | uni_agent/agent_aware_router/collectors/collector.py:215-256 | Two overlapping dispatches under one id (the gateway sends the session id, session.py line 270), once completed, leave the difference of their lengths and one turn too few. |
| Inflight.EvictBalancesIff | uni_agent/agent_aware_router/collectors/collector.py:236-251 | After a disciplined run, evict any rows and complete everything: all turn sums are back at 0 if and only if no evicted row belonged to an outstanding request. |
| Inflight.EvictTokensBalanceIff | uni_agent/agent_aware_router/collectors/collector.py:236-251 | The token gauges are then back at 0 if and only if every outstanding request whose row was evicted has an empty prompt. |
| Inflight.EvictionDrifts | uni_agent/agent_aware_router/collectors/collector.py:236-251 | What one such eviction leaves, from any state: the request's tokens and turn stay in the gauges of its replica. |
| Balancers.PerReplicaStore.IncrMany | uni_agent/agent_aware_router/store/per_replica_store.py:89-134 | All deltas are added to one replica's row, the new values returned, other replicas untouched; no deltas create no row. |
| Balancers.PerReplicaStore.Refresh | uni_agent/agent_aware_router/store/per_replica_store.py:136-156 | After a refresh every polled key reads what was polled, every other key of every replica reads as before, and a snapshot of each polled row is returned. |
| Balancers.RecordDispatch | uni_agent/agent_aware_router/collectors/collector.py:220-230 | A dispatch raises the request's turn by one and stores the prompt length. |
| Balancers.WriteDeltas | uni_agent/agent_aware_router/collectors/collector.py:215-256 | One update folds the turn and the length in and writes everything at once, as the model's dispatch or completion says, with or without a request id; an update without metrics creates no row. |
| Balancers.Balancer.AcquireServer | uni_agent/agent_aware_router/balancer.py:279-318 | The best of the ranking is taken and all three tables move by one model dispatch; an empty ranking raises and changes nothing but the call count. |
| Balancers.Balancer.ReleaseServer | uni_agent/agent_aware_router/balancer.py:263-277 | All three tables move by one model completion; a server without a counter stays without. |
| Balancers.Balancer.AddServers | uni_agent/agent_aware_router/balancer.py:355-359 | New servers start at 0, known ones keep their counter. |
| Balancers.Balancer.RemoveServers | uni_agent/agent_aware_router/balancer.py:361-367 | Removed servers lose their counter, the gauges stay. |
| Balancers.Balancer.GetTotalInflight | uni_agent/agent_aware_router/balancer.py:351-353 | The sum over all counters. |
| ManagerModel.LeastLoaded | uni_agent/gateway/manager.py:60-63 | The first gateway with the fewest sessions. |
| ManagerModel.CountersAlwaysAgree | uni_agent/gateway/manager.py:60-107 | At every await of every run with fresh ids and one call per session, each counter is the number of sessions routed to its gateway; with no call in flight each registry is exactly its routed sessions. |
| ManagerModel.EndKeepsCountersIff | uni_agent/gateway/manager.py:94-107 | The end of a releasing call keeps the counters right if and only if its session is still routed, and to the gateway the call went to; otherwise that gateway counts one too few, and one the id was routed to meanwhile one too many. |
| ManagerModel.StepAgreesIff | uni_agent/gateway/manager.py:60-107 | From right counters, a step of any kind keeps them right if and only if a create that takes effect names an id that is not routed, and a call that gives its slot back finds its session routed to the gateway it went to. |
| ManagerModel.AgreesThroughoutIff | uni_agent/gateway/manager.py:60-107 | Any run of any calls from right counters has each counter equal to the sessions routed to its gateway at every await if and only if every step meets that condition. |
| ManagerModel.RunAgreesIff | uni_agent/gateway/manager.py:55-107 | So does any run of a new manager. |
| ManagerModel.SecondCreateDrifts | uni_agent/gateway/manager.py:75-88 | Two creates of one id in a pool of two: the counters are 1 and 1 for one route. |
| ManagerModel.HalfAbortedIsReached | uni_agent/gateway/manager.py:75-107 | A run from the start that creates a session, aborts it twice at once and ends one of the aborts. |
| ManagerModel.LateAbortTakesTheNewRoute | uni_agent/gateway/manager.py:102-107 | From there, with the id created anew on the other gateway, the late end removes the new route and takes a slot of the old gateway. |
| ManagerModel.OverlappingAborts | uni_agent/gateway/manager.py:102-107 | Two overlapping aborts of one session both succeed and leave the counter one below the routes. |
| ManagerModel.CreateNeverSpreads | uni_agent/gateway/manager.py:75-93 | A create never makes two counters differ by more than they did, or than one. |
| ManagerModel.BurstStaysBalanced | uni_agent/gateway/manager.py:75-93 | A burst of creates from a balanced state, in which a create that fails does so at a most loaded gateway, keeps max - min <= 1 at every await, in every interleaving. |
| ManagerModel.ReleaseKeepsBalanceIff | uni_agent/gateway/manager.py:89-107 | A failed create, a finalize or an abort leaves balanced gateways balanced if and only if its gateway has the most sessions. |
| ManagerModel.BalancedThroughoutIff | uni_agent/gateway/manager.py:60-107 | Any run of any calls from a balanced state is balanced at every await if and only if every slot given back comes from a most loaded gateway. |
| ManagerModel.FailedCreateUnbalances | uni_agent/gateway/manager.py:85-92 | A burst in which a create fails at a gateway without the most sessions, and which leaves the two gateways two apart; the condition is ReleaseKeepsBalanceIff. |
| GatewayManagers.GatewayActor.CreateSession | uni_agent/gateway/gateway.py:228-252 | Succeeds exactly for a new id that the actor does not refuse; the registry gains exactly this id, or nothing. |
| GatewayManagers.GatewayActor.FinalizeSession | uni_agent/gateway/gateway.py:254-259 | Succeeds exactly for a registered id that the actor does not refuse, KeyError exactly for an unknown one; the registry loses exactly this id on success. |
| GatewayManagers.GatewayActor.AbortSession | uni_agent/gateway/gateway.py:261-267 | Succeeds for an unknown id and for one that the actor does not refuse; the registry loses exactly this id on success. |
| GatewayManagers.GatewayManager.constructor | uni_agent/gateway/manager.py:55-58 | A new manager is the model's start state. |
| GatewayManagers.GatewayManager.SelectGatewayIndex | uni_agent/gateway/manager.py:60-63 | `min` over the counters, first index on ties; raises without gateways. |
| GatewayManagers.GatewayManager.BeginCreate | uni_agent/gateway/manager.py:75-88 | Route and slot are taken before the await, as the model's step says. |
| GatewayManagers.GatewayManager.BeginEnd | uni_agent/gateway/manager.py:65-73 | Finalize and abort only look the route up before their await; no route raises `KeyError`. |
| GatewayManagers.GatewayManager.Complete | uni_agent/gateway/manager.py:89-107 | After the await a failed create and a successful finalize or abort give the slot and the route back; other outcomes change neither. |
| AnthropicContent.ResultAnswersFirst | uni_agent/gateway/adapters/anthropic.py:230-275 | A lowered tool result is never empty, starts with a tool message for its id, holds nothing else but such messages and single images, and says its texts and images in block order. |
| AnthropicContent.ToolResultMessages | uni_agent/gateway/adapters/anthropic.py:230-275 | The loop with its text buffer produces exactly those messages, or rejects an unknown block. |
| AnthropicContent.ItemsReadLikeBlocks | uni_agent/gateway/adapters/anthropic.py:236-275 | The runs and pictures of a tool result read exactly like its blocks, in order, with a new line between neighbouring texts, and two runs never stand side by side. |
| AnthropicContent.ResultLowersIff | uni_agent/gateway/adapters/anthropic.py:230-275 | A tool result is lowered exactly when it is missing, a string, or a list of texts and usable images. |
| AnthropicContent.StringIsOneText | uni_agent/gateway/adapters/anthropic.py:230-275 | A string is read as one text block and gives one tool message with it; a missing content as an empty list. |
| AnthropicMessages.GroupingIsReversible | uni_agent/gateway/adapters/anthropic.py:278-323 | Grouping a user message's blocks loses nothing: the groups give the blocks back in order, and split only at tool results. |
| AnthropicMessages.UserBlocksSay | uni_agent/gateway/adapters/anthropic.py:278-323 | A user message of blocks is lowered exactly when every block is a text, a usable image or an answer to a named call; its messages are those of the groups that make up its blocks. |
| AnthropicMessages.UserMessagesInOrder | uni_agent/gateway/adapters/anthropic.py:278-323 | Groups are lowered one after the other: a run of texts and images is one user message, a tool result gives its own messages. |
| AnthropicMessages.CollapseSays | uni_agent/gateway/adapters/anthropic.py:286-303 | A run with an image keeps its parts; a run of texts is one string of all of them, a line each, in order. |
| AnthropicMessages.StringReadsAsText | uni_agent/gateway/adapters/anthropic.py:278-281 | For users and assistants a string reads as one text block. |
| AnthropicMessages.UserMessagesFromContent | uni_agent/gateway/adapters/anthropic.py:278-323 | The loop yields one user message per run of texts and images and each tool result's answers where it stood, or rejects. |
| AnthropicMessages.AssistantMessageFromContent | uni_agent/gateway/adapters/anthropic.py:326-378 | Texts joined, tool calls in order, thinking dropped, anything else rejected. |
| AnthropicMessages.AssistantSplits | uni_agent/gateway/adapters/anthropic.py:326-378 | An assistant message of two lists of blocks says the texts of both, a line apart, and the calls of both, in order; it is good if and only if both are. |
| AnthropicMessages.AssistantOne | uni_agent/gateway/adapters/anthropic.py:332-373 | One block: a text says itself, a tool use with id, name and input is that call, thinking says nothing, anything else is refused. |
| AnthropicMessages.MessagesInOrder | uni_agent/gateway/adapters/anthropic.py:457-475 | Lowering a list in two parts gives the messages of the first and then those of the second, or the rejection of either. |
| AnthropicMessages.OneEntry | uni_agent/gateway/adapters/anthropic.py:463-474 | A list of one entry gives exactly that entry's messages. |
| AnthropicMessages.EntrySays | uni_agent/gateway/adapters/anthropic.py:463-474 | A user entry gives its user messages, an assistant entry its one message, and any other role is refused. |
| AnthropicMessages.MessagesToInternal | uni_agent/gateway/adapters/anthropic.py:457-475 | The lowered list is the concatenation of its entries' messages; an empty list or one bad entry rejects everything. |
| AnthropicFold.SystemToText | uni_agent/gateway/adapters/anthropic.py:188-207 | A system prompt's text: non-empty block texts joined and cleaned, other shapes rejected. |
| AnthropicFold.SystemSays | uni_agent/gateway/adapters/anthropic.py:188-207 | A system text is cleaned as a whole; two lists of blocks say what both say, a line apart unless one says nothing; a string reads as one text block; anything but texts is refused. |
| AnthropicFold.ReminderSays | uni_agent/gateway/adapters/anthropic.py:437-437 | A reminder is the system text between its two tags, a line each. |
| AnthropicFold.FoldingKeepsEverything | uni_agent/gateway/adapters/anthropic.py:407-454 | Every other message is kept in order, and every non-empty reminder is taken in exactly once, in the original order; a trailing message exists only without any user message. |
| AnthropicFold.NoSystemLeft | uni_agent/gateway/adapters/anthropic.py:407-454 | No system entry is left, at most one entry is added, messages that are not users are unchanged. |
| AnthropicFold.WithoutUser | uni_agent/gateway/adapters/anthropic.py:450-454 | Without a user message the other entries come back as they are, followed by one user message with all reminders, a line each, if there are any. |
| AnthropicFold.TextReadsInOrder | uni_agent/gateway/adapters/anthropic.py:381-404 | A text message reads as the reminders before it, its own text, and those after it, a line each. |
| AnthropicFold.BlocksReadInOrder | uni_agent/gateway/adapters/anthropic.py:381-404 | A message of blocks reads as one block for the reminders before it, its own blocks, and a block for each reminder after it. |
| AnthropicFold.OtherContentReadsInOrder | uni_agent/gateway/adapters/anthropic.py:398-404 | A missing or falsy content becomes the reminder; any other that is no text and no list is written out beside it. |
| AnthropicFoldPass.MessageObject.FoldReminder | uni_agent/gateway/adapters/anthropic.py:381-404 | One reminder folded into a message object in place, per content shape, in front or behind. |
| AnthropicFoldPass.FoldMidListSystemIntoUser | uni_agent/gateway/adapters/anthropic.py:407-454 | The in-place pass over message objects gives exactly the declaratively folded list, or its rejection. |
| AnthropicFoldPass.NothingToFold | uni_agent/gateway/adapters/anthropic.py:428-429 | A list without system entries comes back as it is. |
| Editor.EditPushes | uni_agent/tools/edit_file.py:224-312 | A successful edit pushes exactly the text it started from and touches no other file; a refused one changes nothing. |
| Editor.EditsPush | uni_agent/tools/edit_file.py:224-312 | After any edits (no undo) on any paths a path's stack is the texts its successful edits started from. |
| EditorWrites.ReplaceWritesIff | uni_agent/tools/edit_file.py:234-270 | A replace is done exactly when the file is text, the expanded new text differs from the expanded old one, and the old one occurs in one place; then what is written is the text before, the new text and the text after. |
| EditorWrites.OccursOnceIff | uni_agent/tools/edit_file.py:241-254 | Python's count is 1 if and only if the text splits around the searched one in a single way that leaves it nowhere else. |
| EditorWrites.InsertWritesIff | uni_agent/tools/edit_file.py:272-306 | An insert is done exactly at lines 0 to the number of lines; the lines written are those before, the expanded new ones and those after. |
| EditorWrites.CreateWritesIff | uni_agent/tools/edit_file.py:224-232 | A create is done exactly for a new path that is no directory, in an existing directory, and writes the given text. |
| EditorWrites.TabsReachTheNextStop | uni_agent/tools/edit_file.py:234-250 | Within a line every tab reaches the next multiple of eight columns by one to eight spaces. |
| TextLines.NormalizeAppend | uni_agent/tools/edit_file.py:121-128 | Reading a file turns CR LF, CR and LF into a newline each, leaves every other character, and works piece by piece. |
| Editor.UndoMatchesItsEdit | uni_agent/tools/edit_file.py:224-320 | With undos anywhere: after a successful edit and any commands on any files that leave it on the stack and its path's stack as high as it was, one more undo writes back exactly the text the edit started from. |
| Editor.UndoIsLifo | uni_agent/tools/edit_file.py:314-320 | k undos write back, in reverse order, exactly the texts the last k successful edits of that path started from, and touch no other file. |
| Editor.UndoRestoresIff | uni_agent/tools/edit_file.py:121-128 | Undoing a replace or an insert restores the very same file if and only if it had no carriage return and no tab. |
| EditorSnippets.SnippetsAreLabelledRight | uni_agent/tools/edit_file.py:91-96 | In every untruncated response to a replace or an insert the line labelled n is line n of the file just written, labels are consecutive, and what is shown is the edit with four lines around it. |
| EditorSnippets.OutputShows | uni_agent/tools/edit_file.py:84-96 | A response shows the whole text, tabs expanded, or its first 16000 characters and the note that it was clipped, its lines numbered one by one. |
| EditorSnippets.RunKeepsTabFree | uni_agent/tools/edit_file.py:224-320 | After any commands every stacked text is free of tabs. |
| EditorSnippets.UndoShowsTheFile | uni_agent/tools/edit_file.py:314-320 | After any commands from empty stacks, an undo's untruncated response is the whole file just written, each line under its number. |
| EditFileTools.EditFileTool.ValidatePath | uni_agent/tools/edit_file.py:170-182 | Accepts a new path for a create and an existing file for the rest, and no directory. |
| EditFileTools.EditFileTool.CreateFile | uni_agent/tools/edit_file.py:224-232 | A create takes the model's step, its refusals included. |
| EditFileTools.EditFileTool.ReplaceText | uni_agent/tools/edit_file.py:234-270 | A replace takes the model's step: exactly one occurrence, something to change, tabs expanded. |
| EditFileTools.EditFileTool.InsertText | uni_agent/tools/edit_file.py:272-306 | An insert takes the model's step for every line from 0 to the number of lines. |
| EditFileTools.EditFileTool.UndoEdit | uni_agent/tools/edit_file.py:314-320 | An undo takes the model's step and refuses on an empty stack. |
| ReAct.PairedAppend | uni_agent/agents/react/agent.py:168-213 | Well-paired transcripts stay well paired when put together. |
| ReAct.Episode.Dispatch | uni_agent/agents/react/agent.py:168-213 | All calls of a turn are answered in order, each with its id, name and outcome or as skipped, unless one raises; the turn ends by the first call beyond the timeout budget, by the first that raises, or after all of them, as finished exactly when a finish tool among them succeeded. |
| ReAct.Episode.SkipRest | uni_agent/agents/react/agent.py:197-206 | The calls not executed any more get one answer each, same ids, same order. |
| ReAct.Episode.TakeStep | uni_agent/agents/react/agent.py:119-213 | A turn ends with token_limit exactly when the limit was used up before it, the reply reached it or was cut; finished exactly when the reply has no calls or all ran and a finish tool succeeded; completed when all ran and none did; timeout_limit when a call exhausted the budget. It appends the reply and its answers, counts every call, and leaves the transcript paired, but for a last assistant cut off by a token limit. |
| ReAct.Episode.RunEpisode | uni_agent/agents/react/agent.py:57-117 | The episode ends for the reason of its last turn, every earlier turn completed and each starts where the one before it ended; max_steps only when all of max_steps turns completed. Every transcript sent answers every earlier call exactly once; timeouts <= max(budget, 0) + 1, and timeouts <= budget + 1 if and only if the budget is at least 0, or is -1 and the first call of the episode is not executed or does not time out. |
| ReAct.EndsForOneReason | uni_agent/agents/react/agent.py:119-213 | The conditions under which a turn ends for each reason exclude each other. |
| ReAct.TimeoutBoundIff | uni_agent/agents/react/agent.py:168-206 | A first turn keeps its timeouts within budget + 1 if and only if the budget is at least 0, or is -1 and the one call executed does not time out. |
| ReAct.NegativeBudgetAllowsOne | uni_agent/agents/react/agent.py:168-206 | With any budget below 0 a first call that times out counts one timeout, more than budget + 1, and ends the turn. |
| Boxed.LastBoxedOnlyString | uni_agent/tasks/hotpotqa/reward.py:51-68 | The spaced form first, else the last `\boxed` or `\fbox` up to the first position where its braces close, else nothing. |
| Boxed.Scan | uni_agent/tasks/hotpotqa/reward.py:58-68 | The counting loop stops at the first closing brace at which as many are closed as opened. |
| Boxed.BoxedRoundTrip | uni_agent/tasks/hotpotqa/reward.py:39-68 | Any brace-balanced answer is extracted and unboxed unchanged, whatever stands before it, if neither it nor what follows holds `\boxed` and the spaced form does not occur. |
| Boxed.SpacedRoundTrip | uni_agent/tasks/hotpotqa/reward.py:39-54 | An answer in the spaced form is extracted and unboxed unchanged, whatever stands before it: it ends at the first dollar sign or with the text. |
| Boxed.SpacedFormExtracted | uni_agent/tasks/hotpotqa/reward.py:53-54 | Every text with a spaced form splits around its last one, and what is extracted is that form and its answer. |
| Boxed.ScanBalancedIff | uni_agent/tasks/hotpotqa/reward.py:58-68 | What the scan returns closes as many braces as it opens, and is balanced if and only if its first brace opens. |
| Boxed.ReturnedBalancedIff | uni_agent/tasks/hotpotqa/reward.py:51-68 | Without the spaced form, whatever the extraction returns closes as many braces as it opens, and is balanced if and only if the first brace of the input from the box on is an opening one. |
| Boxed.UnmatchedBoxReturned | uni_agent/tasks/hotpotqa/reward.py:51-68 | The text `\boxed}{{}` is returned whole although its braces do not match. |

## Left out

- SessionTheorems.TokenConservation: holds for runs in which no request repeats a chain's whole history; for the others the code loses tokens, and SessionTheorems.TokenBalance is the exact law of all runs.
- SessionCapacity.CapacityBound: assumes that the backend returns no more tokens than the budget it was sent, which the session does not check.
- PrefixCache.CacheIsTransparent: holds for disciplined runs; PrefixCache.RunAnsweredRightIff says that these are exactly the runs answered right.
- Inflight.GaugesAreSums: needs one outstanding dispatch per id and no eviction meanwhile; Inflight.DispatchBalancesIff and Inflight.DispatchTokensBalanceIff say exactly when one more dispatch can be accounted for, Inflight.EvictBalancesIff and Inflight.EvictTokensBalanceIff exactly when an eviction is harmless.
- Inflight.TotalIsOutstanding: for pools that never lose a server; removing one drops its counter with its requests still running.
- ManagerModel.CountersAlwaysAgree: needs ids that are not routed and one lifecycle call per session at a time; ManagerModel.AgreesThroughoutIff says exactly which runs keep the counters right.
- GatewaySessions.GatewaySession.BuildTrajectory: where folding the version marks raises, the model records the error in the trajectory and does not let it end the close or the finalize.
- Selection.SelectChain: requires that every chain's boundary lies behind at least one message, which every reachable session meets.
- GatewaySessions.GatewaySession.Cancel: a ghost method, because cancelling a request runs no code of the session but the release.
- PerRequestStores.PerRequestStore.Put: some other row is evicted; which one (the least recently used) is not modelled.
- AnthropicFoldPass.FoldMidListSystemIntoUser: requires the entries to be distinct objects, as parsing JSON makes them.
- Tokenizers, chat templates, tool parsers, multimodal extraction and `decode_response`: library code; the session uses only the codec's contract.
- SHA-256 and xxHash: uninterpreted functions on numbers without a width, collision-free only where a lemma says so.
- Preparation is one atomic step: it awaits the media extractor, but under the request lock.
- `routed_experts`, `mm_processor_kwargs`, sampling parameters other than `max_tokens` and `logprobs`, and the fields other components attach to a trajectory: copied along without affecting anything stated here.
- Finish reasons, session snapshots, timestamps, tracing spans, logs and insight events: telemetry.
- HTTP, SSE, Ray, ZMQ and the transports behind the parsers: I/O; events arrive as values.
- The list of prefix hashes handed out is the cached list itself; what a caller that edits it would break is not modelled.
- Routing strategies, scores and weights: the ranking is a parameter of `AcquireServer`; sticky bindings are other keys of the same table.
- Blocks on CPU and SSD have counters but no index in the code; folded payloads are modelled for GPU blocks only.
- Thread locks of the stores: each store call is one atomic step.
- A create, finalize or abort that is cancelled between the actor's execution and the manager's answer (a finalize or an abort then leaves a route and a slot without a registered session), and the actor awaiting a session's lock inside finalize and abort.
- The manager's and the actors' shutdown.
- Media types and base64 of images, conversion of tools and tool choice, and responses to the client: short expressions. An image block is either a URL or rejected.
- The editor's `view` command, the wording of its messages, path arithmetic for the parent directory (a parameter), and write errors of the sandbox.
- Wording of observations, and the sampling parameters the ReAct loop passes on.
- `compute_score`, `is_equiv` and `strip_string`: string comparisons without structure.
