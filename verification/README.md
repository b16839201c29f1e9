# LightBridge in Dafny

A model of the integer, state and byte-layout code under LightBridge's inference kernels, and proofs
about it. `dafny verify dfyconfig.toml` checks the whole project.

Conventions. An F32 is its bit pattern, and float operations are uninterpreted, so equal results are
bit-identical results; where a property is about magnitudes, reals are used and the property says so.
The attention kernel and the dot products are written for any arithmetic: machine arithmetic for what is
bit-identical, exact arithmetic for what the results mean.
SHA-256 is an uninterpreted function. `usize` is 64 bits wide. Masks and shifts of bytes are written
with remainders, quotients and single bits. Files are immutable byte sequences. `memory` parameters say
whether an allocation succeeds.

| part | files |
|---|---|
| concurrent expert cache | `CacheState`, `CacheEviction`, `CacheConcurrency`, `CacheSafety`, `CacheRecency`, `CacheLife`, `CompressedCacheObject`, `CacheThreads` |
| paged KV cache and its snapshots | `KvLayout`, `PagedKv`, `KvSnapshot`, `KvSnapshotIo`, `SnapshotLayout` |
| batched attention | `Attention`, `AttentionKernel`, `AttentionMeaning` |
| token evaluation, generation, prefix reuse | `Evaluator`, `EvaluatorChain`, `Generation`, `GenerationOutcome`, `PrefixReuse`, `SessionInvariant` |
| chat sessions and the stop filter | `SessionSnapshot`, `ChatSessions`, `ChatTurns`, `StopFilter` |
| packed quantised arithmetic | `QuantSums`, `QuantBlocks`, `QuantDot`, `QuantSimd`, `QuantDispatch`, `QuantMeaning`, `QuantPacking`, `IqPacking`, `QuantDecoding` |
| the Q8_K quantiser | `Quantizer`, `QuantizerCode` |
| GGUF extents and expert slabs | `Alignment`, `GgufLayout` |
| the expert sidecar | `SidecarFormat`, `SidecarBinding`, `SidecarPrepare`, `SidecarTheorem` |
| routing | `Routing` |

How the parts fit together. The cache is a transition system whose steps are the critical sections under
the mutex. The class `CompressedCache` has those sections with their loops, and `SharedCache` runs them
for any number of threads: every schedule is a run of the transition system, so what is proved of every
interleaving is about that code. `PrefixReuse` works for any causal model, and `Hy3IsCausal` discharges
its hypotheses for the transactional evaluator. `ChatSession` owns that evaluator, its scratch state and
the paged cache; `ChatTurns` runs prefill, decode and whole turns on it, and shows that they are the
functions the theorems are about. `SessionInvariant` holds of every session, however it was obtained, so
save and restore work for all of them. Specifications that the code follows step by step have a second
description that does not: `CacheLife` tells the life of an entry, `GenerationOutcome` accounts for a
call, `EvaluatorChain` for a token, `AttentionMeaning` gives the formula, `QuantPacking` and `IqPacking`
write the bytes that the decoders read, and `SnapshotLayout` says where every exported byte is. Scalar and
AVX2 dots are proved against one specification, and `QuantMeaning` relates that specification to the
decoders; `QuantizerCode` shows that quantised rows satisfy its condition on stored sums. The sidecar is
written from the slabs that `GgufLayout` shows to exist.

Three places where the code is narrower than it may look. Preparing a sidecar accepts any power of two as
alignment and then validates a manifest that needs at least 32: `ManifestValid` is the exact condition.
The stop filter agrees with truncation of the text consumed so far; whether that is the truncation of the
whole text, whatever the chunks, depends on the stop sequences: it does if and only if none of them,
without its last character, contains a stop sequence after its start (`ChunkingInvisibleIff`;
`OverlappingStopsLookBack` is an input where it fails). A turn on a poisoned session succeeds only when
the history is not a prefix of the prompt, for then the session is reset (`TurnLikeNew`).

## Model

| member | source | states |
|---|---|---|
| `CacheSafety.CacheSafe` | crates/bridge-cache/src/lib.rs:101-265 | In every reachable interleaving used and reserved are the exact sums of Ready and Loading sizes and stay under the capacity, pins count live leases, leases show their entry's bytes, single flight, wake-ups and admission hold; publishing never loses its reservation and no destructor underflows |
| `CacheSafety.StepKeeps` | crates/bridge-cache/src/lib.rs:101-322 | Each critical section of any thread keeps the whole invariant |
| `CacheSafety.RunKeeps` | crates/bridge-cache/src/lib.rs:101-322 | Every run of steps keeps the invariant |
| `CacheSafety.SleeperIsServed` | crates/bridge-cache/src/lib.rs:172-262 | A thread asleep without a notification waits for exactly one owner of the key, and the step by which that owner lets go notifies the sleeper |
| `CacheSafety.OwnerFindsEntry` | crates/bridge-cache/src/lib.rs:445-477 | The owner of a reservation always finds its Loading entry of the reserved size; `ReservationLost` cannot happen |
| `CacheSafety.LeasePinsEntry` | crates/bridge-cache/src/lib.rs:419-443 | A live lease keeps its entry present, pinned and accounted for |
| `CacheSafety.AskKeeps` | crates/bridge-cache/src/lib.rs:150-204 | One pass of the retry loop (hit, wait, evict and reserve, refuse) keeps the invariant, whatever it evicts |
| `CacheSafety.PublishKeeps` | crates/bridge-cache/src/lib.rs:206-262 | Publication cannot fail for a loader with the promised size and keeps the invariant |
| `CacheSafety.DropReservationKeeps` | crates/bridge-cache/src/lib.rs:455-478 | Dropping an armed reservation keeps the invariant |
| `CacheSafety.DropLeaseKeeps` | crates/bridge-cache/src/lib.rs:419-443 | Dropping a lease, including the removal of a non-resident entry, keeps the invariant |
| `CacheSafety.ClearKeeps` | crates/bridge-cache/src/lib.rs:301-322 | Clearing removes exactly the unpinned entries and their bytes and keeps the invariant |
| `CacheSafety.LookupKeeps` | crates/bridge-cache/src/lib.rs:101-125 | A lookup with its pin and its lease keeps the invariant |
| `CacheEviction.ReserveSucceedsIff` | crates/bridge-cache/src/lib.rs:560-595 | Barring overflow of the sum, a reservation succeeds if and only if pinned, in-flight and requested bytes fit the capacity together |
| `CacheEviction.RunRemovesExactlyVictims` | crates/bridge-cache/src/lib.rs:560-595 | Victims are distinct and unpinned; exactly they disappear, and used falls by exactly their bytes |
| `CacheEviction.RunFollowsLastUse` | crates/bridge-cache/src/lib.rs:567-583 | Victims leave in last-used order: none is more recent than an unpinned entry still present |
| `CacheEviction.RunIsShortest` | crates/bridge-cache/src/lib.rs:566-594 | One victim fewer would not have made room |
| `CacheEviction.RefusalFlushesUnpinned` | crates/bridge-cache/src/lib.rs:584-594 | A request refused for lack of room has evicted every unpinned entry |
| `CacheEviction.CompleteRunExists` | crates/bridge-cache/src/lib.rs:560-595 | From every state and for every request the eviction loop can run to its end |
| `CompressedCacheObject.CompressedCache.ReserveCapacity` | crates/bridge-cache/src/lib.rs:560-595 | The eviction loop ends, in the state of a complete least-recently-used run |
| `CompressedCacheObject.CompressedCache.LeastRecentlyUsed` | crates/bridge-cache/src/lib.rs:567-583 | The candidate is unpinned and oldest; there is none only when everything is pinned or loading |
| `CompressedCacheObject.CompressedCache.Get` | crates/bridge-cache/src/lib.rs:101-125 | New state and outcome of a lookup, including the pin overflow error |
| `CompressedCacheObject.CompressedCache.Ask` | crates/bridge-cache/src/lib.rs:150-204 | New state and outcome of one pass of the retry loop; on a miss the entries evicted are those of a complete least-recently-used run |
| `CompressedCacheObject.CompressedCache.Miss` | crates/bridge-cache/src/lib.rs:185-204 | A miss counts the request, evicts a complete run, and reserves exactly when room was made |
| `CompressedCacheObject.CompressedCache.CheckRequest` | crates/bridge-cache/src/lib.rs:139-147 | Sizes from 1 to the capacity pass; the other two cases have their own error |
| `CompressedCacheObject.CompressedCache.MergeHeat` | crates/bridge-cache/src/lib.rs:385-386 | An imported count replaces a smaller one |
| `CompressedCacheObject.CompressedCache.Publish` | crates/bridge-cache/src/lib.rs:222-262 | New state of a publication, or the error it reports |
| `CompressedCacheObject.CompressedCache.DropReservation` | crates/bridge-cache/src/lib.rs:459-477 | New state after an abandoned load |
| `CompressedCacheObject.CompressedCache.DropLease` | crates/bridge-cache/src/lib.rs:423-443 | New state after a lease is returned |
| `CompressedCacheObject.CompressedCache.ClearUnpinned` | crates/bridge-cache/src/lib.rs:301-322 | Removing one entry at a time ends with exactly the unpinned ones gone, and counts them |
| `CacheRecency.UseIsMostRecent` | crates/bridge-cache/src/lib.rs:555-558 | In every reachable world using an entry makes it the most recent one and leaves the last use of all others alone |
| `CacheRecency.LastLeaseDecides` | crates/bridge-cache/src/lib.rs:423-443 | When its last lease is returned, an entry stays, unpinned and with its bytes, if and only if it was admitted |
| `CacheRecency.AdmittedWhenHot` | crates/bridge-cache/src/lib.rs:188-204 | A load is admitted exactly when its key has been requested often enough |
| `CacheLife.EntriesLive` | crates/bridge-cache/src/lib.rs:101-322 | The life of an entry: every change any step may make to it, from the request that starts its load over publication with the promised bytes and the admission decision unchanged, pins and returns, to the only ways it leaves |
| `CacheLife.AdmissionLasts` | crates/bridge-cache/src/lib.rs:222-252 | No step changes the admission decision of an entry that stays, publication included |
| `CacheLife.LoadDecidesStay` | crates/bridge-cache/src/lib.rs:188-443 | Whatever happens between a request that starts a load and the return of the last lease: the entry stays, ready with its bytes, if and only if its key had been requested often enough when the load began |
| `CacheLife.LookupAnswered` | crates/bridge-cache/src/lib.rs:101-125 | A lookup leases exactly a ready entry whose pins do not overflow |
| `CacheLife.AskAnswered` | crates/bridge-cache/src/lib.rs:150-204 | A request is served from a ready entry, waits for one being loaded, and loads a missing one exactly when it fits beside what is pinned and in flight |
| `CacheLife.HeatCountsMisses` | crates/bridge-cache/src/lib.rs:185-192 | The count of a key is the number of requests that missed it, up to the 64-bit limit, unless a count is imported |
| `CacheThreads.SharedCache.Perform` | crates/bridge-cache/src/lib.rs:101-265 | Each critical section a thread runs on the object is a step the transition system allows, with the victims the code itself chose; the world stays reachable |
| `CacheThreads.SharedCache.RunSchedule` | crates/bridge-cache/src/lib.rs:101-322 | Any schedule of any threads on the object is a run of the transition system |
| `CacheThreads.OfferedIffEnabled` | crates/bridge-cache/src/lib.rs:149-204 | No thread is kept from its step by how eviction turns out: what a scheduler sees decides |
| `CacheThreads.ThreadCanStep` | crates/bridge-cache/src/lib.rs:149-262 | In every world a thread inside a call has a step of its own |
| `PagedKv.Replay` | crates/bridge-kv-gqa/src/cache.rs:211-321 | Over any run of appends, rewinds and resets, failing ones included, the paged cache shows what flat lists of rows hold |
| `PagedKv.PagedKvCache.AppendTokens` | crates/bridge-kv-gqa/src/cache.rs:211-286 | An append adds exactly the given rows to its layer, or reports the first failing check and changes nothing a reader can see |
| `PagedKv.PagedKvCache.Key` | crates/bridge-kv-gqa/src/cache.rs:288-293 | Returns the key slice of the flat list's row, exactly for indices in range |
| `PagedKv.PagedKvCache.Value` | crates/bridge-kv-gqa/src/cache.rs:295-300 | Returns the value slice of the flat list's row, exactly for indices in range |
| `PagedKv.PagedKvCache.RewindAll` | crates/bridge-kv-gqa/src/cache.rs:309-321 | Succeeds if and only if every layer stores enough tokens, and then truncates every list |
| `PagedKv.PagedKvCache.Reset` | crates/bridge-kv-gqa/src/cache.rs:302-307 | All lists become empty |
| `PagedKv.PagedKvCache.constructor` | crates/bridge-kv-gqa/src/cache.rs:73-140 | Lazy or eager, a new cache shows empty lists |
| `PagedKv.NewCache` | crates/bridge-kv-gqa/src/cache.rs:73-140 | Construction with its checks: a zero parameter is its own error; without one it succeeds, given memory, exactly when page count and (eagerly) page size fit the word |
| `PagedKv.EnsurePages` | crates/bridge-kv-gqa/src/cache.rs:603-637 | Pages are added without touching existing ones; a failure installs none |
| `PagedKv.WriteTokens` | crates/bridge-kv-gqa/src/cache.rs:270-285 | The copy loops change exactly the rows of the appended tokens |
| `PagedKv.WriteToken` | crates/bridge-kv-gqa/src/cache.rs:270-283 | The head loop writes one whole row and no other |
| `PagedKv.KeyIn` | crates/bridge-kv-gqa/src/cache.rs:647-661 | Page and offset arithmetic finds the head of the stored row |
| `PagedKv.ValueIn` | crates/bridge-kv-gqa/src/cache.rs:663-677 | Page and offset arithmetic finds the head of the stored row |
| `KvLayout.SlotsDoNotAlias` | crates/bridge-kv-gqa/src/cache.rs:679-686 | Distinct token, head and lane triples never share a storage cell |
| `KvSnapshot.SnapshotIsCanonical` | crates/bridge-kv-gqa/src/cache.rs:327-573 | A byte string restores to given rows if and only if it is their export and within the limit |
| `KvSnapshot.DecodeOfEncode` | crates/bridge-kv-gqa/src/cache.rs:436-573 | Decoding an export gives back the same rows |
| `KvSnapshot.DecodeIsCanonical` | crates/bridge-kv-gqa/src/cache.rs:693-739 | Any accepted byte string is the export of what it decodes to |
| `KvSnapshot.EncodeLength` | crates/bridge-kv-gqa/src/cache.rs:327-372 | The size computed before exporting is the exact size |
| `SnapshotLayout.KvExportLayout` | crates/bridge-kv-gqa/src/cache.rs:375-412 | Byte positions of every field of a KV snapshot: header, parameters, lengths and each lane of each head of each token of each layer, keys before values |
| `KvSnapshotIo.ExportSnapshot` | crates/bridge-kv-gqa/src/cache.rs:327-413 | Succeeds exactly when the snapshot fits the limit and its counts the machine word, and yields the encoding of the rows |
| `KvSnapshotIo.RestoreSnapshot` | crates/bridge-kv-gqa/src/cache.rs:436-573 | Accepts exactly the decodable byte strings (given memory) and then holds the decoded rows; a rejected input leaves the cache untouched |
| `KvSnapshotIo.ExportThenRestore` | crates/bridge-kv-gqa/src/cache.rs:327-573 | Restoring an export into another cache gives it the same rows |
| `KvSnapshotIo.RestoreThenExport` | crates/bridge-kv-gqa/src/cache.rs:327-573 | Exporting right after an accepted restore returns the very same bytes |
| `KvSnapshotIo.CheckHeader` | crates/bridge-kv-gqa/src/cache.rs:464-499 | The header loop accepts exactly the bodies that start with the expected header |
| `KvSnapshotIo.ReadLengths` | crates/bridge-kv-gqa/src/cache.rs:500-522 | The length loop reads one bounded length per layer |
| `KvSnapshotIo.RestoreLayers` | crates/bridge-kv-gqa/src/cache.rs:523-572 | The layer loops rebuild the rows that the bytes describe |
| `Attention.BatchingIsInvisible` | crates/bridge-kernels-reference/src/attention.rs:29-88 | An accepted batch of n tokens gives the output rows and the cache of n single-token calls, and fails if and only if one of those fails |
| `Attention.OneByOneMatchesBatch` | crates/bridge-kernels-reference/src/attention.rs:45-84 | The same for every prefix of the batch |
| `Attention.SingleSeesTheSame` | crates/bridge-kernels-reference/src/attention.rs:173-205 | A single call sees the same rows and queries as its token in the batch |
| `Attention.SingleAccepted` | crates/bridge-kernels-reference/src/attention.rs:90-171 | Every check a batch passes is passed by each of its single calls |
| `Attention.LaterTokensDoNotMatter` | crates/bridge-kernels-reference/src/attention.rs:45-84 | Causality: later tokens of the batch do not change an output row |
| `Attention.KvHeadIs` | crates/bridge-kernels-reference/src/attention.rs:40-48 | Query heads attend in contiguous groups of equal size, one per KV head |
| `AttentionMeaning.AttentionMeans` | crates/bridge-kernels-reference/src/attention.rs:29-88 | Over reals: for every accepted call, token and head the output lanes are the means of the values of its KV head for all stored tokens and the batch up to itself, weighted by the softmax of the scaled dot products, each read from and written to its place in the flat buffers |
| `AttentionMeaning.HeadMeans` | crates/bridge-kernels-reference/src/attention.rs:53-83 | One head: softmax with the maximum subtracted is the textbook softmax |
| `AttentionMeaning.SharesSumToOne` | crates/bridge-kernels-reference/src/attention.rs:64-77 | The weights are positive and add up to one |
| `AttentionKernel.CausalGqaAttention` | crates/bridge-kernels-reference/src/attention.rs:29-88 | On success output and cache are those of the specification; on failure neither changes |
| `AttentionKernel.CheckCall` | crates/bridge-kernels-reference/src/attention.rs:90-171 | Accepts exactly the calls that satisfy every documented check |
| `AttentionKernel.AttendTokens` | crates/bridge-kernels-reference/src/attention.rs:45-84 | The token and head loops compute the batch, each value at the end of what was written before |
| `AttentionKernel.AttendHead` | crates/bridge-kernels-reference/src/attention.rs:47-83 | Scores, softmax and weighted values of one query head, or nothing when a value is not finite |
| `AttentionKernel.Softmax` | crates/bridge-kernels-reference/src/attention.rs:64-70 | Scores are replaced by exponentials relative to the maximum; the denominator is their sum in order |
| `AttentionKernel.FillScores` | crates/bridge-kernels-reference/src/attention.rs:53-62 | One scaled dot product per visible token; stops exactly when one is not finite |
| `AttentionKernel.SourceKey` | crates/bridge-kernels-reference/src/attention.rs:173-188 | Cached and batch keys read as one list of rows |
| `AttentionKernel.SourceValue` | crates/bridge-kernels-reference/src/attention.rs:190-205 | Cached and batch values read as one list of rows |
| `Evaluator.Hy3Session.Evaluate` | crates/bridge-runtime/src/hy3_scalar.rs:481-502 | Transactional: a failing token, at whatever layer or stage, leaves position, rows and phase as they were; a successful one appends one row per layer and keeps the earlier rows |
| `Evaluator.Hy3Session.EvaluateInner` | crates/bridge-runtime/src/hy3_scalar.rs:504-649 | Every layer is at most one row ahead when a stage fails; success is the evaluation of the specification |
| `Evaluator.Hy3Session.RunLayers` | crates/bridge-runtime/src/hy3_scalar.rs:537-630 | The layer loop: one row more in every layer on success, at most one row ahead when it stops |
| `Evaluator.Hy3Session.RollbackTo` | crates/bridge-runtime/src/hy3_scalar.rs:754-768 | The rollback rewind never fails and restores the committed rows |
| `Evaluator.Hy3Session.EvaluateLayer` | crates/bridge-runtime/src/hy3_scalar.rs:537-630 | One layer: attention, then dense or routed feed-forward; no phase is left pending on success |
| `Evaluator.Hy3Session.RouteToken` | crates/bridge-kernels-reference/src/layer.rs:473-608 | Routing opens the streaming phase, and only when none is open |
| `Evaluator.Hy3Session.FinishToken` | crates/bridge-kernels-reference/src/layer.rs:610-659 | Finishing accepts only the routed experts, in order, and closes the phase |
| `Evaluator.Hy3Session.LoadExperts` | crates/bridge-runtime/src/hy3_scalar.rs:576-613 | Sequentially or in parallel: one payload per routed expert in routing order, or a failure exactly when one is missing |
| `Evaluator.Hy3Session.LoadInParallel` | crates/bridge-runtime/src/hy3_scalar.rs:576-613 | Loads that finish in any order give the same payloads in the same places |
| `Evaluator.Hy3Session.Reset` | crates/bridge-runtime/src/hy3_scalar.rs:710-720 | A reset session is committed at position zero |
| `Evaluator.Hy3Session.ExportKv` | crates/bridge-runtime/src/hy3_scalar.rs:332-350 | Reports differing layer lengths; otherwise exports the rows exactly when they fit |
| `Evaluator.Hy3Session.RestoreKv` | crates/bridge-runtime/src/hy3_scalar.rs:352-363 | A restored session is committed at the restored length; a refused one is untouched |
| `Evaluator.Hy3IsCausal` | crates/bridge-runtime/src/hy3_scalar.rs:653-751 | What the evaluator computes satisfies the hypotheses of the prefix-reuse theorem; `ChatSession.EvaluateToken` ties it to the object |
| `EvaluatorChain.EvaluationIsChain` | crates/bridge-runtime/src/hy3_scalar.rs:504-649 | Rows and logits are the result if and only if there is a chain of hidden states from the embedding through every layer (projection, attention, mix, dense or routed experts with their payloads) to the logits |
| `EvaluatorChain.LogitsAreChain` | crates/bridge-runtime/src/generation.rs:290-306 | After a token the logits and rows of a session are those at the end of such a chain |
| `PrefixReuse.PrefixReuseInvisible` | crates/bridge-runtime/src/generation.rs:147-307 | For every healthy session replayable from its history, a prefix of the prompt, generating from the suffix gives the tokens, stop reason, history, logits and model state of a fresh session given the whole prompt |
| `PrefixReuse.TurnLikeNew` | crates/bridge-runtime/src/chat_engine.rs:156-164 | A chat turn, which resets unless the history is a prefix of the prompt, answers like a new session, also on a poisoned session that it resets; a poisoned session whose history is a prefix refuses |
| `SessionInvariant.ReachableSessions` | crates/bridge-runtime/src/generation.rs:106-307 | After any sequence of new, reset, generate and restore of any accepted session, a healthy session has history length equal to its position and within the context, tokens in the vocabulary, and logits if and only if its history is not empty |
| `SessionInvariant.GenerateWellFormed` | crates/bridge-runtime/src/generation.rs:147-307 | Cancelled, stopped, failed or complete, a call keeps that invariant |
| `SessionInvariant.TurnWellFormed` | crates/bridge-runtime/src/chat_engine.rs:156-164 | So does a chat turn |
| `SessionInvariant.ResetIsBlank` | crates/bridge-runtime/src/generation.rs:123-129 | A reset session has no history, all logits zero and unused, and equals a new one but for the model state |
| `PrefixReuse.GenerateReplayable` | crates/bridge-runtime/src/generation.rs:147-307 | Whatever happens during a call, a healthy session remains the replay of its history |
| `PrefixReuse.CallsReplayable` | crates/bridge-runtime/src/generation.rs:106-307 | The same over any sequence of calls and restores of replayable copies |
| `PrefixReuse.TurnReplayable` | crates/bridge-runtime/src/chat_engine.rs:156-164 | The same for a chat turn |
| `PrefixReuse.PrefillConcat` | crates/bridge-runtime/src/generation.rs:215-229 | Prefilling two prompts in turn is prefilling their concatenation |
| `GenerationOutcome.GenerateExact` | crates/bridge-runtime/src/generation.rs:147-306 | A permitted call returns a state and a result if and only if they have an account: which prompt tokens the model took and which polls came before, which tokens the sampler drew from which logits, what the listener was told and answered, and why it ended |
| `GenerationOutcome.RefusalMeans` | crates/bridge-runtime/src/generation.rs:147-196 | What a call asks of its caller, exactly; a refused call changes nothing and names something amiss |
| `GenerationOutcome.HistoryGrows` | crates/bridge-runtime/src/generation.rs:147-306 | The history grows by exactly the tokens the model took; only its refusal poisons the session |
| `GenerationOutcome.TurnContinues` | crates/bridge-runtime/src/chat_engine.rs:156-175 | A turn that continues the history evaluates only the rest of the prompt |
| `GenerationOutcome.ReasonsMean` | crates/bridge-runtime/src/generation.rs:229-288 | Callback if and only if the listener let the call go on before the last shown token and asked to stop at it; Cancelled if and only if the poll after the last token said so; a stop token, MaxTokens and ContextLength exactly when nothing before them ended the call |
| `GenerationOutcome.DecodeExact` | crates/bridge-runtime/src/generation.rs:229-288 | The decode loop reports what the one account of its tokens says, sampling and model failures included |
| `Generation.GenerationSession.GenerateStream` | crates/bridge-runtime/src/generation.rs:147-288 | The session after a call and its result are those of the generation function |
| `Generation.GenerationSession.DecodeStream` | crates/bridge-runtime/src/generation.rs:229-288 | The decode loop with its stop tokens, callback, cancellation and limits |
| `Generation.GenerationSession.EvaluateToken` | crates/bridge-runtime/src/generation.rs:290-306 | A failing token marks the session unhealthy and drops its logits |
| `Generation.GenerationSession.New` | crates/bridge-runtime/src/generation.rs:106-121 | A new session is empty and healthy |
| `Generation.GenerationSession.Reset` | crates/bridge-runtime/src/generation.rs:123-129 | A reset session is empty and healthy |
| `SessionSnapshot.SessionSnapshotIsCanonical` | crates/bridge-runtime/src/chat_engine.rs:250-468 | Bytes restore to a saved session if and only if they are its export and within the limit |
| `SessionSnapshot.SessionRoundTrip` | crates/bridge-runtime/src/chat_engine.rs:352-468 | Every well-formed saved session is decoded from its export |
| `SessionSnapshot.EncodeSessionLength` | crates/bridge-runtime/src/chat_engine.rs:285-312 | The size computed before exporting is the exact size |
| `SnapshotLayout.SessionExportLayout` | crates/bridge-runtime/src/chat_engine.rs:300-349 | Byte positions of every field of a session snapshot, with the digest of everything before it at the end |
| `ChatSessions.ExportSession` | crates/bridge-runtime/src/chat_engine.rs:250-350 | Succeeds exactly for a healthy, consistent session with finite logits that fits the limit, and yields its encoding |
| `ChatSessions.RestoreSession` | crates/bridge-runtime/src/chat_engine.rs:352-468 | Given memory, accepts exactly the decodable byte strings; the new session is healthy, well formed and holds what they describe |
| `ChatSessions.RestoreFrame` | crates/bridge-runtime/src/chat_engine.rs:395-467 | The checks behind the header, and the nested KV restore, accept exactly the frames the format decodes |
| `ChatSessions.ReadTokens` | crates/bridge-runtime/src/chat_engine.rs:418-432 | The token loop rejects a token outside the vocabulary |
| `ChatSessions.SaveAndRestore` | crates/bridge-runtime/src/chat_engine.rs:250-468 | Every well-formed session, restored ones included, is exportable exactly when healthy, finite and within the limit, and is then restored under that limit to the same state |
| `ChatSessions.RestoreAndSave` | crates/bridge-runtime/src/chat_engine.rs:250-468 | Exporting what any accepted byte string restores to returns the very same bytes |
| `ChatSessions.ChatSession.EvaluateToken` | crates/bridge-runtime/src/generation.rs:290-306 | A token on the session object, with its scratch state, cache and pages, is the evaluation of the generation model; a failing one poisons the session |
| `ChatSessions.ChatSession.Reset` | crates/bridge-runtime/src/generation.rs:123-129 | Resetting the object is resetting the session |
| `ChatTurns.GenerateStream` | crates/bridge-runtime/src/generation.rs:147-288 | Generation on the object, its prefill and decode loops, is the generation function on its state |
| `ChatTurns.Turn` | crates/bridge-runtime/src/chat_engine.rs:156-164 | A turn on the object keeps it replayable and well formed, and answers as a new session would |
| `ChatTurns.Live` | crates/bridge-runtime/src/chat_engine.rs:352-468 | Through any sequence of turns, resets and restores from arbitrary bytes the object stays well formed |
| `StopFilter.StreamingEqualsTruncation` | crates/bridge-runtime/src/chat_engine.rs:520-579 | For every chunking: once stopped, emitted text is the truncation of all consumed text; before that, it is that truncation minus exactly the pending text |
| `StopFilter.StopsWhenOccurs` | crates/bridge-runtime/src/chat_engine.rs:543-557 | It stops exactly when a stop sequence has occurred in the consumed text |
| `StopFilter.EmittedIsLongestSafe` | crates/bridge-runtime/src/chat_engine.rs:559-573 | Until it stops, emitted text is the longest prefix that no continuation can take back |
| `StopFilter.FirstStopFound` | crates/bridge-runtime/src/chat_engine.rs:520-527 | The minimum over all stop sequences is the first place where any of them occurs |
| `StopFilter.KeepIsLongest` | crates/bridge-runtime/src/chat_engine.rs:559-570 | Exactly the longest suffix that may begin a stop sequence is kept back |
| `StopFilter.FirstStopShifts` | crates/bridge-runtime/src/chat_engine.rs:543-557 | The first stop of all consumed text is found in the pending text alone |
| `StopFilter.KeepShifts` | crates/bridge-runtime/src/chat_engine.rs:559-570 | What must be kept can be computed from the pending text alone |
| `StopFilter.LaterTextCutsEarlier` | crates/bridge-runtime/src/chat_engine.rs:520-527 | Text after a stop can only move the cut to the left |
| `StopFilter.OverlappingStopsLookBack` | crates/bridge-runtime/src/chat_engine.rs:543-557 | It can move: with overlapping stop sequences the filter matches the text consumed so far, not text that would have followed |
| `StopFilter.ChunkingInvisibleIff` | crates/bridge-runtime/src/chat_engine.rs:520-579 | For non-empty stop sequences: every chunking of every text shows the truncation of the whole text if and only if no stop sequence, without its last character, contains a stop sequence after its start |
| `StopFilter.ShownIsTruncation` | crates/bridge-runtime/src/chat_engine.rs:543-579 | Under that condition the shown text, pending text handed out at the end included, is the truncation of the whole text |
| `StopFilter.BetrayedByChunks` | crates/bridge-runtime/src/chat_engine.rs:543-579 | Without it, a stop sequence split before its last character is shown wrongly |
| `StopFilter.TextStopFilter.PushChunk` | crates/bridge-runtime/src/chat_engine.rs:543-574 | Update and new pending text of one push |
| `StopFilter.TextStopFilter.Finish` | crates/bridge-runtime/src/chat_engine.rs:576-578 | Hands out the pending text |
| `QuantDispatch.VecDot` | crates/bridge-quant-layout/src/q8_k.rs:80-119 | The result, error cases included, does not depend on AVX2: bit-identical for arbitrary float operations |
| `QuantDispatch.Validate` | crates/bridge-quant-layout/src/q8_k.rs:121-161 | The checks of both rows, in order |
| `QuantDot.DotKScalar` | crates/bridge-quant-layout/src/q8_k.rs:247-327 | The scalar Q4_K and Q5_K loops with 32-bit wrap-around compute the specified dot product |
| `QuantDot.DotIqScalar` | crates/bridge-quant-layout/src/q8_k.rs:329-434 | The scalar IQ2_S and IQ3_S loops compute the specified dot product |
| `QuantSimd.DotKAvx2` | crates/bridge-quant-layout/src/q8_k.rs:459-542 | The AVX2 loops with 16-bit and 32-bit wrap-around compute the same dot product |
| `QuantSimd.DotIqAvx2` | crates/bridge-quant-layout/src/q8_k.rs:546-666 | The AVX2 loops compute the same dot product |
| `QuantSimd.LaneSums32` | crates/bridge-quant-layout/src/q8_k.rs:670-699 | The vector code yields the exact eight lane sums of 32 signed bytes |
| `QuantSimd.Dot32` | crates/bridge-quant-layout/src/q8_k.rs:703-706 | The exact sum of 32 products |
| `QuantSimd.Dot16` | crates/bridge-quant-layout/src/q8_k.rs:710-731 | The exact sum of 16 products, added in pairs by multiplication with ones |
| `QuantSimd.MulLoExact` | crates/bridge-quant-layout/src/q8_k.rs:689-691 | A product of two signed bytes never wraps 16 bits |
| `QuantDot.KLaneSumsWithin` | crates/bridge-quant-layout/src/q8_k.rs:297-309 | Q4_K and Q5_K lane sums stay below 2^24 |
| `QuantDot.IqBlockWithin` | crates/bridge-quant-layout/src/q8_k.rs:372-434 | Block sums fit 32 bits; those of IQ3_S stay below 2^24 |
| `QuantDot.ScalarLaneSums` | crates/bridge-quant-layout/src/q8_k.rs:297-309 | The triple loop yields the eight accumulators without overflow |
| `QuantDot.MinimumSum` | crates/bridge-quant-layout/src/q8_k.rs:291-295 | The weighted sum of stored activation sums, without overflow |
| `QuantDot.ScalarOctet2` | crates/bridge-quant-layout/src/q8_k.rs:343-362 | Eight lanes of IQ2_S, each signed and added |
| `QuantDot.ScalarOctet3` | crates/bridge-quant-layout/src/q8_k.rs:397-427 | Eight lanes of IQ3_S, added in pairs |
| `QuantMeaning.KDotMeaning` | crates/bridge-quant-layout/src/q8_k.rs:247-327 | Over reals, with correct stored sums, the packed dot is the sum over all lanes of decoded weight times d8 * q8 |
| `QuantMeaning.IqDotMeaning` | crates/bridge-quant-layout/src/q8_k.rs:329-434 | The same for IQ2_S and IQ3_S, for every row and any grid table |
| `QuantMeaning.KBlockMeaning` | crates/bridge-quant-layout/src/q8_k.rs:291-323 | One block adds exactly its decoded dot product, accumulators and minimum together |
| `QuantBlocks.UnpackK` | crates/bridge-quant-layout/src/q8_k.rs:257-289 | Quants, scales and minima of a packed block, nibbles and high-bit plane included |
| `QuantBlocks.UnpackIq` | crates/bridge-quant-layout/src/q8_k.rs:338-362 | Grid entries, signs and scales of a packed block |
| `QuantBlocks.ScaleMinReadsPacked` | crates/bridge-quant-layout/src/k_quants.rs:231-240 | Any eight six-bit scales and eight minima are read back from the twelve bytes they are packed into |
| `QuantBlocks.PackingIsOnto` | crates/bridge-quant-layout/src/k_quants.rs:231-240 | Packing what was read gives the twelve bytes back: no bit is lost or read twice |
| `QuantPacking.KReadsPacked` | crates/bridge-quant-layout/src/q8_k.rs:257-289 | Any quants, scales, minima and factors packed into a Q4_K or Q5_K block (low nibbles for the even rows, high nibbles for the odd ones, a plane of high bits) are read back |
| `QuantPacking.KPacksRead` | crates/bridge-quant-layout/src/q8_k.rs:257-289 | Packing what a block reads as gives its bytes back |
| `QuantPacking.Q8ReadsPacked` | crates/bridge-quant-layout/src/q8_k.rs:55-71 | Scale, lanes and sums packed into a Q8_K block are read back |
| `QuantPacking.Q8PacksRead` | crates/bridge-quant-layout/src/q8_k.rs:55-71 | Packing what a Q8_K block reads as gives its bytes back |
| `IqPacking.IqReadsPacked` | crates/bridge-quant-layout/src/iq3_s.rs:9-53 | Grid indices with their high bits, signs and scales packed into an IQ2_S or IQ3_S block are the ones looked up, lane by lane |
| `IqPacking.IqPacksRead` | crates/bridge-quant-layout/src/iq2_s.rs:9-39 | Packing what such a block reads as gives its bytes back |
| `QuantDecoding.KDecodes` | crates/bridge-quant-layout/src/k_quants.rs:242-301 | A packed block decodes over reals to d * scale * quant - dmin * min of the packed fields |
| `QuantDecoding.IqDecodes` | crates/bridge-quant-layout/src/iq2_s.rs:9-39 | A packed block decodes over reals to its half-row scale times grid value times sign of the packed fields |
| `QuantBlocks.DecodeK` | crates/bridge-quant-layout/src/k_quants.rs:242-301 | Every lane decodes to d * scale * quant - dmin * min |
| `QuantBlocks.DecodeIq` | crates/bridge-quant-layout/src/iq2_s.rs:9-39 | Every lane decodes to its half-row scale times grid value times sign |
| `QuantBlocks.DecodeIqRow` | crates/bridge-quant-layout/src/iq3_s.rs:9-53 | The lanes of one row |
| `Quantizer.LanesInRange` | crates/bridge-quant-layout/src/q8_k.rs:55-59 | Every quantised lane is from -127 to 127 |
| `Quantizer.ExtremeLane` | crates/bridge-quant-layout/src/q8_k.rs:41-59 | The lane of the extreme value is exactly -127 |
| `Quantizer.ExtremeExists` | crates/bridge-quant-layout/src/q8_k.rs:41-59 | A block that is not zero has such a lane |
| `Quantizer.QuantisationError` | crates/bridge-quant-layout/src/q8_k.rs:41-71 | No lane is off by more than abs(max) / 254 |
| `Quantizer.ZeroBlock` | crates/bridge-quant-layout/src/q8_k.rs:51-54 | A zero block is stored as zeros |
| `Quantizer.NearestIntRounds` | crates/bridge-quant-layout/src/q8_k.rs:224-228 | Adding 1.5 * 2^23 and reading the low bits rounds to nearest, halves to even, for every admissible argument |
| `QuantizerCode.QuantizeRow` | crates/bridge-quant-layout/src/q8_k.rs:16-76 | The first failing length check is reported, then the first activation that is not finite; otherwise each block is the stored form of its values |
| `QuantizerCode.QuantizeBlock` | crates/bridge-quant-layout/src/q8_k.rs:35-73 | The loops produce the stored form of a block |
| `QuantizerCode.EncodedHolds` | crates/bridge-quant-layout/src/q8_k.rs:35-73 | Reading a stored block gives back its scale, lanes and sums |
| `QuantizerCode.StoredLane` | crates/bridge-quant-layout/src/q8_k.rs:35-73 | A quantised row, byte by byte: each lane stands for its value of the input within abs(max) / 254, under the scale at the front of its block |
| `QuantizerCode.EncodedSumsCorrect` | crates/bridge-quant-layout/src/q8_k.rs:60-70 | The sixteen stored sums are the sums of their lanes |
| `QuantizerCode.GroupSum` | crates/bridge-quant-layout/src/q8_k.rs:60-66 | Sums of sixteen lanes fit 16 bits |
| `QuantizerCode.QuantizedDotMeaning` | crates/bridge-quant-layout/src/q8_k.rs:247-327 | With a quantised row the Q4_K and Q5_K dots keep their meaning unconditionally |
| `GgufLayout.CheckExtents` | crates/bridge-gguf/src/reader.rs:283-331 | The extent loop accepts exactly the directories whose tensors follow each other, padded, inside the file |
| `GgufLayout.PayloadInside` | crates/bridge-gguf/src/reader.rs:283-331 | In an accepted file every payload is aligned, not empty and inside the file |
| `GgufLayout.PayloadsDisjoint` | crates/bridge-gguf/src/reader.rs:292-318 | Payloads come in directory order and do not overlap |
| `GgufLayout.ComputeStrides` | crates/bridge-core/src/tensor.rs:99-123 | Succeeds exactly for describable shapes; strides are row bytes times the rows skipped |
| `GgufLayout.NewTensor` | crates/bridge-core/src/tensor.rs:21-42 | A descriptor exists exactly for describable shapes |
| `GgufLayout.EncodedBytes` | crates/bridge-core/src/tensor.rs:75-83 | The encoded length is the whole payload, or an overflow |
| `GgufLayout.CheckedAbsoluteRange` | crates/bridge-core/src/tensor.rs:85-97 | The absolute range, exactly when it fits 64 bits and the file |
| `GgufLayout.RowSize` | crates/bridge-core/src/ggml_type.rs:150-162 | Exactly when it succeeds and which error it reports otherwise; the bytes of the whole blocks, positive for a positive width |
| `GgufLayout.SlabExists` | crates/bridge-model-hy3/src/schema.rs:524-584 | For a rank-3 tensor with the expert count as last dimension every expert has a slab: the divisibility and arithmetic errors are unreachable |
| `GgufLayout.SlabsDisjoint` | crates/bridge-model-hy3/src/schema.rs:563-584 | Slabs are equal, not empty and disjoint |
| `GgufLayout.SlabsCover` | crates/bridge-model-hy3/src/schema.rs:563-584 | Every payload byte lies in a slab |
| `Alignment.AlignUp` | crates/bridge-gguf/src/reader.rs:532-537 | Rounds up to the nearest multiple, failing exactly when the addition overflows |
| `Alignment.CheckedAlignUp` | crates/bridge-format/src/lib.rs:377-386 | Rejects zero and every alignment that is no power of two; otherwise the nearest multiple or an overflow |
| `Alignment.ClearLowRounds` | crates/bridge-gguf/src/reader.rs:532-537 | Masking the low bits rounds down to a multiple |
| `Alignment.MultipleIsRemainder` | crates/bridge-format/src/lib.rs:139-146 | Zero low bits are the same as a zero remainder |
| `Alignment.RoundUpIsLeast` | crates/bridge-format/src/lib.rs:377-386 | The result is the least multiple not below the value |
| `SidecarTheorem.PrepareSidecar` | crates/bridge-prepare/src/lib.rs:206-385 | Succeeds if and only if the alignment is a power of two from 32 up, the chunk size is allowed, there are shards (numbered in 32 bits, lengths adding up in 64) and no position overflows; then the sidecar opens, carries the digest of its data, is bound to its shards, and every key reads through it as it reads directly |
| `SidecarTheorem.ManifestValid` | crates/bridge-format/src/lib.rs:114-179 | The manifest of the write loop validates if and only if its identity does and the alignment is at least 32 |
| `SidecarTheorem.SameReads` | crates/bridge-runtime/src/hy3_scalar.rs:1040-1064 | Sidecar and direct reads agree on every key, present or missing |
| `SidecarTheorem.TightRead` | crates/bridge-runtime/src/hy3_scalar.rs:1040-1064 | The tight payload of every expert is its slab of the gate, the up and the down tensor, in this order and nothing else |
| `SidecarTheorem.PayloadsServed` | crates/bridge-runtime/src/hy3_scalar.rs:1040-1064 | A prepared sidecar serves every expert of the model with exactly that payload, and no other key |
| `SidecarTheorem.RecordsDescribe` | crates/bridge-prepare/src/lib.rs:273-364 | Every record names an expert and gives type and length of its three tensors |
| `SidecarTheorem.WriteAll` | crates/bridge-prepare/src/lib.rs:265-356 | The write loop fails exactly on overflow; header, records and payload bytes are where the manifest says |
| `SidecarPrepare.WriteRecord` | crates/bridge-prepare/src/lib.rs:273-350 | One record: gate, up and down behind their padding, in both layouts |
| `SidecarPrepare.PadAndCopy` | crates/bridge-prepare/src/lib.rs:523-556 | A segment is copied unchanged to the position it is recorded at |
| `SidecarPrepare.Pad` | crates/bridge-prepare/src/lib.rs:725-742 | Zero bytes up to the next multiple, in chunks |
| `SidecarPrepare.BuildIndex` | crates/bridge-prepare/src/lib.rs:49-78 | The index has every expert of every MoE layer exactly once, in key order, with the slab it names |
| `SidecarPrepare.SourceSegment` | crates/bridge-prepare/src/lib.rs:507-521 | Absolute slab positions; never fails on a validated model |
| `SidecarFormat.Validate` | crates/bridge-format/src/lib.rs:114-179 | Accepts exactly the valid manifests: format, versions, digests, source files, alignment, records and their segments |
| `SidecarFormat.RecordsInOrder` | crates/bridge-format/src/lib.rs:151-178 | Records of a valid manifest have increasing keys and do not overlap |
| `SidecarFormat.ValidRecord` | crates/bridge-format/src/lib.rs:114-179 | What a valid manifest promises about any record: bounds, order and alignment of its segments in both layouts |
| `SidecarFormat.HeaderLayout` | crates/bridge-format/src/lib.rs:207-216 | Byte positions of the header fields |
| `SidecarFormat.HeaderRoundTrip` | crates/bridge-format/src/lib.rs:207-244 | Decoding an encoded header gives it back |
| `SidecarFormat.HeaderIsCanonical` | crates/bridge-format/src/lib.rs:217-244 | Only the encoding of a header decodes to it |
| `SidecarFormat.FindOrdered` | crates/bridge-format/src/lib.rs:181-186 | Ordered keys identify their record |
| `SidecarBinding.HashFile` | crates/bridge-prepare/src/lib.rs:602-616 | Hashing in chunks of any allowed size digests the whole file |
| `SidecarBinding.HashFiles` | crates/bridge-prepare/src/lib.rs:570-624 | One identity per shard in order; fails exactly for a bad chunk size or an ordinal beyond 32 bits |
| `SidecarBinding.SumLengths` | crates/bridge-prepare/src/lib.rs:225-229 | The total length, or a 64-bit overflow |
| `SidecarBinding.VerifyBindings` | crates/bridge-prepare/src/lib.rs:439-475 | Accepts exactly the same tensor directory and shards of the same number, order, lengths and digests |
| `SidecarBinding.BoundFilesEqual` | crates/bridge-prepare/src/lib.rs:439-475 | Unless digests collide, two sets of shards bound to one manifest hold the same bytes |
| `Routing.SelectsTheBest` | crates/bridge-model-hy3/src/routing.rs:77-106 | Each selected expert beats each expert that is not selected, by score, then by lower id |
| `Routing.SelectedRoutes` | crates/bridge-model-hy3/src/routing.rs:69-106 | In logits and biases: k experts in ascending order, each beating every other by sigmoid of logit plus bias, then by lower id; each coefficient its share of the scale in proportion to its sigmoid |
| `Routing.SelectedIff` | crates/bridge-model-hy3/src/routing.rs:86-105 | Exactly the first k of the ranking are selected |
| `Routing.SelectedAscend` | crates/bridge-model-hy3/src/routing.rs:99-106 | k distinct ids in ascending order |
| `Routing.CoefficientsSum` | crates/bridge-model-hy3/src/routing.rs:93-104 | Coefficients add up to scale * S / max(S, floor) |
| `Routing.Normalised` | crates/bridge-model-hy3/src/routing.rs:93-104 | Above the floor they add up to the scale |
| `Routing.RankedFacts` | crates/bridge-model-hy3/src/routing.rs:77-91 | The ranking holds every candidate once, best first |
| `Routing.RouteExperts` | crates/bridge-model-hy3/src/routing.rs:25-107 | Which check fails first, lengths before finiteness; a rejected call leaves the buffers alone; otherwise one holds the ranking, the other the selection |
| `Routing.CheckFiniteInputs` | crates/bridge-model-hy3/src/routing.rs:69-75 | Names the first value that is not finite: the scale, then logit and bias expert by expert |
| `Routing.CheckOrder` | crates/bridge-kernels-reference/src/moe.rs:173-189 | Accepts exactly strictly ascending ids |
| `Routing.RouteThenCheck` | crates/bridge-kernels-reference/src/moe.rs:173-189 | What routing selects is never rejected for its order |

## Left out

- HTTP server, CLI, reports, tokenizer, chat template, host detection, thread pools, timing and statistics counters.
- Poisoned mutexes; allocation failure is modelled only where a call takes `memory`.
- Heat import and export as JSON; merging is the step that raises the count of one key to a maximum.
- The numerics of f32 (rounding, exp, sqrt, RoPE, RMSNorm): operations are uninterpreted, or reals where stated.
- Grid tables: any table of the right shape with bytes up to 43 (IQ2_S) or 15 (IQ3_S).
- JSON text of manifests and its size limit, the engine version, temporary files, renames and cancellation of the sidecar; the digest of the tensor directory is a parameter.
- GGUF parsing before the tensor extents: metadata values, array and metadata budgets, tensor names.
- Error payloads beyond an index; where several checks fail at once the KV append, the dot validation, the quantiser and the router say which error wins.
- ChatTurns.GenerateStream: allocations are taken to succeed; `ChatSession.EvaluateToken` covers the others.
- CacheThreads.SharedCache.Perform: leases and the condition variable are data of the scheduler; a wake-up may be spurious.
- Evaluator.Hy3Session.EvaluateInner: kernels and expert loads are uninterpreted functions that may fail; hidden values left behind by a failing stage are not described.
- AttentionKernel.CausalGqaAttention: the scratch output is the sequence of values written so far rather than a preallocated buffer, and scratch contents after the call are not described.
- QuantBlocks.UnpackIq: grid lookups are done for a block before its sums; the source interleaves them lane by lane.
- QuantBlocks.DecodeK: the 256 lanes of a block are eight rows of 32 built in order, not a buffer written at offsets.
- Quantizer.QuantisationError: exact reals stand for f32, so the rounding of the stored scale is not modelled.
- Routing.RouteExperts: exact reals stand for finite f32, over which the check of the selection score cannot fail; the library sort is an insertion sort.
- SidecarFormat.FindOrdered: the binary search of the standard library is a search over ordered keys.
- StopFilter.TextStopFilter.PushChunk: text is a sequence of characters; UTF-8 byte offsets are not modelled.
