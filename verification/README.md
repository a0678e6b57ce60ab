# XLM Paymaster: verified models

A Dafny model of the parts of the fee-sponsorship server and its client SDKs whose behaviour is hard to
see by reading one function at a time, with proofs about all inputs, all runs or all reachable states.
`dafny verify dfyconfig.toml` checks everything.

| files | what they model |
|---|---|
| `Bits`, `Varint`, `Splitting`, `Wire`, `Messages`, `Batches`, `Frames` | the hand-written gRPC-web / Protocol Buffers codec (`client/src/grpcTransport.ts`) |
| `SignerPool`, `Pipeline`, `SignerHistory`, `Quota`, `Overrun`, `Server` | signer leases, the quota ledger and the sponsorship requests (`state.rs`, `main.rs`) |
| `OfflineQueue`, `QueueActions`, `ClearedSends` | the offline queue (`client/src/queue.ts`), interrupted at every `await` |
| `RoundRobin`, `HorizonCluster` | failover between Horizon nodes (`horizon.rs`) |
| `ServerSelection`, `Fallback` | failover in the TypeScript and Python clients |
| `Timestamps`, `SlidingWindow`, `WindowLimits`, `Overtaking`, `FixedWindow`, `ContractCache`, `AbuseGate`, `AbuseInterleaving` | limiters, the TTL cache, the tracker with its blocklist |
| `SignerWeight`, `Fees` | signature weights and the three fee formulas |
| `Prelude`, `Sums`, `Sorting` | shared vocabulary |

How it is built:

* Code that changes state in place is a class whose methods are proved against a specification function
  of the old state; the theorems are about runs of that function. Reading loops are proved against a
  suffix-based function.
* What an operation does is also stated without the functions it shares with its specification: on the
  bytes, on the fields of the records, on the answers a call gets, or on the actions of the run.
* Time is an explicit input. Theorems about runs assume that the clock never goes back.
* Concurrency is a step machine: a step is what happens under one lock or between two awaits, and
  theorems quantify over every sequence of steps. `Server.Gateway.Process` and `Server.Gateway.Batch`
  are the handlers themselves, each proved to be a run of `Pipeline` steps; `OfflineQueue.PaymasterQueue`
  relates to its machine in the same way.
* Answers of the network, the strkey decoder, UTF-8, trailer text and address normalisation are
  parameters.

## Where the code differs from what it says

* A varint of six bytes is accepted, because the loop stops at `shift > 35`, and its sixth group is
  shifted by 35 modulo 32. `Varint.ReadVarintFaithful` says exactly when the value is right.
* Fixed-width unknown fields (wire types 1 and 5) are skipped without a bounds check, so a truncated
  message can be accepted (`Messages.TruncatedAccepted`). "Well formed" therefore means that the fields end
  where the message ends; `Wire.WellFormedExactly` says exactly when a message that decodes is.
* Merging decoded values is weaker than merging messages: `xdr` and `status` do not record whether they
  were present. `Messages.MergeValuesExact` gives the exact condition, `Batches.MergeLosesBlank` a pair
  that violates it.
* A fixed-window limiter allows up to `2 * max - 1` requests in one window length
  (`FixedWindow.AtMostTwoWindows`, met by `FixedWindow.BoundIsMet`). `FixedWindow.MaximumExactly` says when
  the maximum itself holds.
* The sliding-window limiter reads the clock before it takes its lock, so operations can overtake each
  other. A call that is overtaken by a call meets later timestamps: the subtraction of unsigned numbers
  wraps (with overflow checks it panics instead, which is not modelled) and the newer admissions are
  forgotten (`Overtaking.PruneExactly`, `Overtaking.OvertakenAdmitsTwo`). A call that is overtaken by a
  count misses admissions that the count has forgotten (`Overtaking.CountAdmitsTwo`). Then no positive
  limit holds: `Overtaking.LimitExactly`. With readings in the order of the operations it always does:
  `SlidingWindow.AtMostLimitPerWindow`.
* The quota check and the ledger push are two lock acquisitions. `Quota.QuotaUnderInterleaving` bounds
  the overrun, `Overrun.QuotaOverrunReached` shows that the bound is met for every quota, fee and number of
  requests, and `Overrun.QuotaHoldsExactly` says when the quota itself holds.
* The round-robin cursor is a machine word: when it wraps, a cluster whose size does not divide its
  range serves some node twice in a row of `n` calls. `RoundRobin.FairExactly` is an equivalence.
* The burst rule of the request tracker compares the newest call with the oldest one still tracked, not
  with the third newest, so an older call hides a burst: `AbuseGate.BurstMissed`, with the exact condition
  in `AbuseGate.FlaggedExactly`.
* A call that passed the blocklist check can still pass the gate after its address was blocked
  (`AbuseInterleaving.StragglerPasses`), exactly when the address was added between its check and its
  tracking (`AbuseInterleaving.PassesWhileBlocked`). Such stragglers can also get the first call after
  the hour flagged (`AbuseInterleaving.FirstCallFlagged`; the exact rule is
  `AbuseInterleaving.FlaggedExactly`).
* Clearing the offline queue does not stop a running flush: it goes on to send its snapshot.
  `ClearedSends.SendsGoneExactly` says exactly which removed items are still sent.
* The fee written into the envelope multiplies an amount that already covers all operations by their
  number plus one again, so the two agree for transactions without operations only
  (`Fees.EnvelopeIsCharge`). A multiplier below 1 is not refused and can leave the envelope below the base
  fee for its operations; `Fees.EnvelopePaysBaseFee` says exactly when.
* A signature that appears several times is counted each time (`SignerWeight.RepeatedSignature`);
  `SignerWeight.MatchedSetExactly` says exactly when that makes a difference.

## Model

| member | source | states |
|---|---|---|
| `Varint.EncodeVarint` | client/src/grpcTransport.ts:127-138 | the loop writes the canonical base 128 form of `value >>> 0`, for every integer |
| `Varint.ReadVarintAt` | client/src/grpcTransport.ts:140-168 | the loop at an offset returns what the specification reads from the rest of the bytes, value, size and error alike; it ends on all bytes |
| `Varint.ReadVarintValue` | client/src/grpcTransport.ts:140-168 | what is read: the base 128 number modulo 2^32 for up to five bytes, and how a sixth group is folded in |
| `Varint.ReadVarintAccepts` | client/src/grpcTransport.ts:140-168 | a varint is accepted if and only if it ends within six bytes |
| `Varint.ReadVarintFails` | client/src/grpcTransport.ts:140-168 | one error if and only if fewer than six bytes all ask for another, the other if and only if the first six do |
| `Varint.ReadVarintFaithful` | client/src/grpcTransport.ts:145-164 | the value is the base 128 number modulo 2^32 if and only if the varint has at most five bytes or its sixth group adds no new bit |
| `Varint.SixByteVarintMisread` | client/src/grpcTransport.ts:155-162 | a family of six-byte varints that denote a multiple of 2^32 but are read as another number |
| `Varint.VarintBytesCanonical` | client/src/grpcTransport.ts:127-138 | the form written ends where it should, denotes its number and takes at most five bytes for 32 bits |
| `Varint.VarintRoundTrip` | client/src/grpcTransport.ts:127-168 | every 32-bit number is read back with its exact length, whatever follows |
| `Varint.ReadVarintExtends` | client/src/grpcTransport.ts:140-168 | bytes after a varint never change how it is read |
| `Wire.ReadFieldKeyAt` | client/src/grpcTransport.ts:241-248 | reads the key the specification reads, and moves on by at least one byte within bounds |
| `Wire.ReadLengthDelimitedAt` | client/src/grpcTransport.ts:205-220 | reads the chunk the specification reads, within bounds, or the same error |
| `Wire.SkipFieldAt` | client/src/grpcTransport.ts:222-239 | skips as much as the specification, or the same error; the lemmas on unknown fields say how much that is, on the bytes |
| `Wire.EncodeFieldKey` | client/src/grpcTransport.ts:170-172 | the bit operations write eight times the field number plus the wire type, as one varint |
| `Wire.EncodeChunkField` | client/src/grpcTransport.ts:174-203 | writes key, length and payload |
| `Wire.EncodeNumberField` | client/src/grpcTransport.ts:190-195 | writes key and value reduced to 32 bits |
| `Wire.ChunkFieldRoundTrip` | client/src/grpcTransport.ts:174-220 | a written string or embedded message is the next field read, whatever follows |
| `Wire.NumberFieldRoundTrip` | client/src/grpcTransport.ts:190-195 | a written 32-bit number is the next field read, whatever follows |
| `Wire.UnknownChunkSkipped` | client/src/grpcTransport.ts:222-239 | an unknown length-delimited field is read as key, length and whole payload and skipped, whatever follows |
| `Wire.UnknownNumberSkipped` | client/src/grpcTransport.ts:222-239 | an unknown varint field is skipped whole, whatever follows |
| `Wire.UnknownFixedSkipped` | client/src/grpcTransport.ts:222-239 | unknown fields of wire type 1 and 5 take eight and four bytes after the key, whatever is left |
| `Wire.UnsupportedRefused` | client/src/grpcTransport.ts:222-239 | an unknown field of wire type 3, 4, 6 or 7 is refused with that wire type |
| `Wire.WrongWireTypeRefused` | client/src/grpcTransport.ts:443-530 | a known field with another wire type than its own is refused with its number |
| `Wire.LongChunkRefused` | client/src/grpcTransport.ts:205-220 | a chunk announced longer than what is left is refused |
| `Wire.FieldsConcat` | client/src/grpcTransport.ts:222-248 | a well-formed message followed by any bytes splits into its own fields, then those of the rest, with the same error |
| `Wire.WellFormedExactly` | client/src/grpcTransport.ts:222-239 | a message that splits is well formed if and only if its last field is not an unknown 64-bit or 32-bit field cut short |
| `Messages.DecodeFeeBumpResponse` | client/src/grpcTransport.ts:439-533 | the one-pass loop ends on all bytes and equals splitting into fields and assigning them in order |
| `Messages.TruncatedExactly` | client/src/grpcTransport.ts:439-533 | the same condition for every response that decodes |
| `Messages.TruncatedAccepted` | client/src/grpcTransport.ts:227-232 | a two-byte message that ends inside its only field decodes without an error |
| `Messages.LastOneWins` | client/src/grpcTransport.ts:443-530 | assigning in order leaves in each slot the last field that names it |
| `Messages.DecodeResponseConcat` | client/src/grpcTransport.ts:439-533 | decoding is a homomorphism: concatenation overlays the second message on the first, and errors stay as they are |
| `Messages.MergeValuesExact` | client/src/grpcTransport.ts:439-533 | decoded values alone merge to the decoded concatenation if and only if the second message blanks out no `xdr` or `status` that the first one set |
| `Batches.MergeLosesBlank` | client/src/grpcTransport.ts:439-558 | two encoded responses, the second with an empty `xdr`: the decoded concatenation loses the `xdr` that a merge of the decoded values keeps |
| `Messages.UnknownFieldsIgnored` | client/src/grpcTransport.ts:222-239 | well-formed unknown fields at any field boundary change neither result nor error |
| `Messages.UnknownInFront` | client/src/grpcTransport.ts:439-533 | the bytes of an unknown field of any supported wire type in front of a message leave its decoding unchanged, errors included |
| `Messages.TextFieldSets` | client/src/grpcTransport.ts:448-512 | the bytes of a text field 1 to 5 decode to a response with exactly its text set |
| `Messages.NumberFieldSets` | client/src/grpcTransport.ts:513-525 | the bytes of field 6 set the number of attempts and nothing else |
| `Messages.WrongTypesRefused` | client/src/grpcTransport.ts:443-530 | a known field with a wrong wire type is an error that names the field, whatever follows |
| `Batches.EncodeFeeBumpResponse` | client/src/grpcTransport.ts:535-558 | writes two mandatory texts, the non-empty optional ones and the counter, in order |
| `Batches.ResponseRoundTrip` | client/src/grpcTransport.ts:439-558 | an encoded response is well formed and decodes to itself, empty optional strings apart |
| `Batches.DecodeFeeBumpBatchResponse` | client/src/grpcTransport.ts:560-586 | the loop collects the embedded responses in order, or the first error |
| `Batches.DecodeBatchConcat` | client/src/grpcTransport.ts:560-586 | a complete batch followed by any bytes decodes to its responses followed by theirs |
| `Batches.ResponseInFront` | client/src/grpcTransport.ts:560-586 | an embedded response in front of a batch is decoded by itself and comes first, or its error is the result |
| `Batches.UnknownInFrontOfBatch` | client/src/grpcTransport.ts:560-586 | the bytes of an unknown field in front of a batch leave its decoding unchanged |
| `Batches.TruncatedBatchExactly` | client/src/grpcTransport.ts:560-586 | a batch that decodes ends where its fields do if and only if its last field is not an unknown one cut short |
| `Batches.ConcatBytes` | client/src/grpcTransport.ts:114-125 | copying part by part into one buffer yields their concatenation |
| `Batches.EncodeFeeBumpBatchResponse` | client/src/grpcTransport.ts:588-596 | writes each response as an embedded message, in order |
| `Batches.BatchRoundTrip` | client/src/grpcTransport.ts:560-596 | every batch of encodable responses is decoded to the same list in order, normalised |
| `Frames.EncodeGrpcWebFrame` | client/src/grpcTransport.ts:273-280 | writes 0x80 for a trailer and 0 for data, the length with its most significant byte first, and the payload |
| `Frames.DecodeGrpcWebFrames` | client/src/grpcTransport.ts:290-325 | the loop keeps data payloads in order and overlays trailers, or fails as splitting fails |
| `Frames.FramesDecoded` | client/src/grpcTransport.ts:290-325 | written frames decode to the payloads of the data frames in order, and for each trailer name to its last value |
| `Frames.BrokenTail` | client/src/grpcTransport.ts:290-325 | after whole frames, one to four bytes are a malformed header, and a payload shorter than announced a malformed payload |
| `Frames.FramesRoundTrip` | client/src/grpcTransport.ts:273-325 | written frames are split back into themselves in order |
| `Frames.FramesTileExactly` | client/src/grpcTransport.ts:290-325 | splitting yields given frames if and only if they tile the body exactly |
| `Frames.BatchEndToEnd` | client/src/grpcTransport.ts:273-325 | encoding a batch, framing it, appending a trailer frame, splitting and decoding gives the batch back |
| `SignerPool.Pool.Create` | paymaster-server/src/state.rs:185-212 | a pool needs at least one secret and each has to decode, the first that does not is the error; it starts with idle active accounts |
| `SignerPool.Pool.Acquire` | paymaster-server/src/state.rs:214-244 | leases the account that goes before all other active ones, by known balance, then by fewest leases, then by the later position; none if and only if none is active; it gains a lease and a use |
| `SignerPool.Pool.Release` | paymaster-server/src/state.rs:361-368 | one lease less on one account, saturating at none |
| `SignerPool.Pool.ReportSuccess` | paymaster-server/src/state.rs:246-253 | clears one account's failures and changes nothing else |
| `SignerPool.Pool.ReportFailure` | paymaster-server/src/state.rs:255-271 | counts a failure and deactivates the account at the third |
| `SignerPool.Pool.Revalidate` | paymaster-server/src/state.rs:299-338 | stores the balance, and restores an account that was inactive when the round began |
| `SignerPool.LeasesTheBest` | paymaster-server/src/state.rs:214-236 | the account chosen has, against every active one, the higher balance (an unknown one counts as 0), or the same and fewer leases, or the same of both and the later position |
| `SignerPool.LeasesSpreadEvenly` | paymaster-server/src/state.rs:214-244 | from an idle pool of equal balances any number of leases is spread within one |
| `Pipeline.LeasesConserved` | paymaster-server/src/main.rs:733-849 | in every interleaving each account's `in_flight` is the number of outstanding leases on it |
| `Pipeline.ReleaseNeverSaturates` | paymaster-server/src/state.rs:361-368 | a lease being released is always counted, so the saturating subtraction is exact |
| `Pipeline.AllLeasesReturned` | paymaster-server/src/main.rs:733-849 | every exit returns its lease: when all tasks are over nothing is in flight |
| `Pipeline.ActiveAccountsTrusted` | paymaster-server/src/state.rs:246-340 | in every run an active account has fewer than three failures in a row, however stale a revalidation |
| `SignerHistory.InactiveExactly` | paymaster-server/src/state.rs:246-340 | in every run an account is inactive if and only if three failures were reported for it with no success or restoration between them and no restoration since; its counter is its failures in a row |
| `SignerHistory.AnsweredBySubmit` | paymaster-server/src/main.rs:814-826 | the answer a task reports is the one Horizon gave to its submission, for the signer it has leased since |
| `Quota.QuotaUnderInterleaving` | paymaster-server/src/main.rs:759-793 | with at most n requests of a tenant between check and push and fees up to f, the fees recorded on the UTC day of the clock plus the pending ones stay within the largest quota of its keys plus (n - 1) f |
| `Quota.SerialRequestsWithinQuota` | paymaster-server/src/main.rs:759-793 | requests never between check and push together stay within the quota on every UTC day |
| `Pipeline.DayStartIs` | paymaster-server/src/state.rs:451-455 | the day start is the latest whole number of UTC days not after the clock |
| `Quota.SpendIsToday` | paymaster-server/src/state.rs:451-455 | in every run the sum from the day start on is the sum of the fees recorded on the UTC day of the clock |
| `Quota.ReadCoversSpend` | paymaster-server/src/state.rs:451-455 | taking the day start anew for each record never misses a fee recorded on the UTC day the read ends in |
| `Overrun.QuotaOverrunReached` | paymaster-server/src/main.rs:759-793 | the bound is exact: for every quota, every n and every fee f within the quota, some run that meets the premise spends quota plus (n - 1) f in a day |
| `Overrun.QuotaHoldsExactly` | paymaster-server/src/main.rs:759-793 | the quota holds in every run if and only if n is at most one, all fees are zero or there is no quota at all |
| `Server.Gateway.CurrentSpend` | paymaster-server/src/main.rs:759-769 | the sum of the tenant's fees recorded on the UTC day of each reading or later, one clock reading per record |
| `Server.Gateway.Process` | paymaster-server/src/main.rs:650-849 | when a request succeeds, the ledger record it leaves, what becomes of the best signer and that no other account changes, told on the fields for every combination of answers; and that it is a run of pipeline steps |
| `Server.Gateway.Sponsor` | paymaster-server/src/main.rs:733-849 | the part that holds a lease: charged if and only if affordable, the signer told of Horizon's answer only if it was asked |
| `Server.Gateway.Batch` | paymaster-server/src/main.rs:630-642 | every item up to the first that fails does what a single request does to the memory the one before it left, and nothing is done after a failure; all leases are given back |
| `Server.StepsExtendRuns` | paymaster-server/src/main.rs:650-849 | handler calls extend runs, so the theorems about runs apply to them |
| `OfflineQueue.StoredExactly` | client/src/queue.ts:97-217 | in every run the queue holds exactly the items added and not delivered, failed, expired or cleared, each once, in add order |
| `OfflineQueue.NeverReinserted` | client/src/queue.ts:203-217 | an item that has left the queue is never stored again |
| `OfflineQueue.DeliveryBounds` | client/src/queue.ts:184-200 | each id is sent at most max(1, maxRetries) times, gets at most one terminal callback, and `onError` only after all those sends |
| `OfflineQueue.SendsProper` | client/src/queue.ts:176-200 | whatever is sent is an item as added, numbered by its earlier sends and without terminal callback before |
| `QueueActions.AddedExactly` | client/src/queue.ts:97-105 | in every run the items added are those the calls of `add` gave, `submit` included, one each and in that order |
| `QueueActions.ItemsFromAdds` | client/src/queue.ts:97-200 | everything stored and everything sent is, up to its retries, what some call of `add` gave |
| `QueueActions.EveryEventCaused` | client/src/queue.ts:97-201 | every event of every run has its cause: sent within three minutes of its call, expired after them, succeeded or failed by the answer to the item last sent, a flush only of a queue that holds something, an empty queue reported only when nothing is stored |
| `ClearedSends.SendsGoneExactly` | client/src/queue.ts:141-200 | an item that is sent has left the queue before if and only if the queue was cleared since the running flush took its snapshot; nothing delivered, failed, expired or cleared earlier is sent again |
| `ClearedSends.ClearedYetSent` | client/src/queue.ts:141-171 | an item cleared while it waits in the snapshot is sent |
| `OfflineQueue.FlushesExclude` | client/src/queue.ts:150-171 | the flag is a lock: at most one flush runs |
| `QueueActions.EveryActionTold` | client/src/queue.ts:97-201 | what every call, turn and answer of every run logs; an error ends an item if and only if it was sent `maxRetries` times or more, and an ending flush reports an empty queue if and only if nothing is stored |
| `OfflineQueue.PaymasterQueue.Save` | client/src/queue.ts:97-109 | `add` up to its flush appends the item as given, with no retries, and is a step of the machine |
| `OfflineQueue.PaymasterQueue.ClearAll` | client/src/queue.ts:141-144 | `clear` empties the storage, leaves a running flush alone and is a step of the machine |
| `OfflineQueue.PaymasterQueue.RemoveFromStorage` | client/src/queue.ts:209-212 | keeps the items with other ids, in order |
| `OfflineQueue.PaymasterQueue.ProcessItem` | client/src/queue.ts:176-201 | an item that expires, succeeds, fails or is kept for a retry, as two steps of the machine |
| `OfflineQueue.PaymasterQueue.FlushAll` | client/src/queue.ts:150-172 | an undisturbed flush is a run of the machine and leaves exactly the items to retry, counted up, in order |
| `SlidingWindow.RateLimiter.IsAllowed` | paymaster-server/src/rate_limiter.rs:56-69 | one step of the limiter under its own limits, the 64-bit subtraction wrapping when a timestamp is later than the reading |
| `SlidingWindow.RateLimiter.IsAllowedWithLimits` | paymaster-server/src/rate_limiter.rs:71-94 | one step under given limits, with an empty window when they changed, the 64-bit subtraction wrapping when a timestamp is later than the reading |
| `SlidingWindow.RateLimiter.GetRequestCount` | paymaster-server/src/rate_limiter.rs:96-113 | prunes and counts, the 64-bit subtraction wrapping when a timestamp is later than the reading |
| `SlidingWindow.RateLimiter.ResetKey` | paymaster-server/src/rate_limiter.rs:115-119 | forgets one key |
| `SlidingWindow.AnswersFromHistory` | paymaster-server/src/rate_limiter.rs:22-113 | after every run each request is answered as the full admission history answers it |
| `WindowLimits.AnswersFromRun` | paymaster-server/src/rate_limiter.rs:22-113 | every call of every run is answered by the limits of its key, as the calls before set them, and by the admissions since those last changed that are younger than the window |
| `SlidingWindow.CountsChangeNothing` | paymaster-server/src/rate_limiter.rs:96-113 | with readings in the order of the operations, counting anywhere in a run never changes a later answer |
| `SlidingWindow.AtMostLimitPerWindow` | paymaster-server/src/rate_limiter.rs:22-33 | with fixed limits any half-open window holds at most `limit` admissions of a key |
| `Overtaking.PruneExactly` | paymaster-server/src/rate_limiter.rs:22-26 | of what is still stored a call keeps all that is inside its window if and only if no timestamp is later than the clock it read |
| `Overtaking.LimitExactly` | paymaster-server/src/rate_limiter.rs:22-94 | when readings may be in any order, every window of every run holds at most the limit if and only if the limit or the window is zero |
| `Overtaking.BurstExceeds` | paymaster-server/src/rate_limiter.rs:56-94 | for every positive limit and window a run that puts one admission more than the limit into a window |
| `Overtaking.OvertakenAdmitsTwo` | paymaster-server/src/rate_limiter.rs:56-69 | for every window two calls that take the lock in another order than they read the clock both pass a limit of one |
| `Overtaking.CountAdmitsTwo` | paymaster-server/src/rate_limiter.rs:96-113 | a count that overtakes a call lets it pass a limit of one that holds without the count, though no stored timestamp is ever later than a reading |
| `FixedWindow.RateLimiter.Check` | paymaster-server/src/state.rs:379-409 | one check: the new entry, remaining plus count equal to the maximum, other keys untouched |
| `FixedWindow.CountWithinMax` | paymaster-server/src/state.rs:379-409 | in every run the count stays within the maximum |
| `FixedWindow.OutcomeExactly` | paymaster-server/src/state.rs:379-409 | in every run the first max calls of a window are admitted and the others refused, with what remains and when the window ends; a window opens with the first call a full length after the last one opened |
| `FixedWindow.AtMostTwoWindows` | paymaster-server/src/main.rs:980-1016 | any half-open interval of one window length holds at most 2 max - 1 admissions of a key |
| `FixedWindow.BoundIsMet` | paymaster-server/src/main.rs:980-1016 | for every maximum and every window of two milliseconds or more some run meets that bound |
| `FixedWindow.OneMillisecond` | paymaster-server/src/state.rs:379-409 | a window of one millisecond holds at most the maximum |
| `FixedWindow.MaximumExactly` | paymaster-server/src/state.rs:379-409 | every interval of one window length holds at most the maximum, in every run, if and only if the maximum is at most one or the window at most a millisecond |
| `ContractCache.Cache.GetDefinition` | paymaster-server/src/contract_cache.rs:70-76 | finds an entry if and only if it is stored and not yet at its expiry |
| `ContractCache.Cache.GetFootprint` | paymaster-server/src/contract_cache.rs:85-91 | the same for footprints |
| `ContractCache.Cache.PutFootprint` | paymaster-server/src/contract_cache.rs:93-98 | replaces one footprint |
| `ContractCache.Cache.EvictExpiredFootprints` | paymaster-server/src/contract_cache.rs:119-127 | the second half of an eviction, under its own lock |
| `ContractCache.Cache.PutDefinition` | paymaster-server/src/contract_cache.rs:78-83 | replaces one entry, to expire a time to live later |
| `ContractCache.Cache.InvalidateId` | paymaster-server/src/contract_cache.rs:100-107 | removes one id from both maps |
| `ContractCache.Cache.EvictExpiredDefinitions` | paymaster-server/src/contract_cache.rs:109-119 | removes the entries expired when examined, and counts them |
| `ContractCache.EvictionInvisible` | paymaster-server/src/contract_cache.rs:70-128 | every lookup is that of a cache that never evicts |
| `ContractCache.CacheLookups` | paymaster-server/src/contract_cache.rs:70-128 | over interleaved operations, a lookup finds a value if and only if some call set it less than a time to live ago and no later one set or invalidated the id; for both maps, the two halves of an eviction apart |
| `ContractCache.EvictionLeavesTheLive` | paymaster-server/src/contract_cache.rs:109-137 | after an eviction exactly the entries a lookup would find remain |
| `AbuseGate.Gate.TrackerIsSuspicious` | paymaster-server/src/heuristics.rs:18-35 | prunes, records and judges one key's calls |
| `AbuseGate.Gate.BlocklistAdd` | paymaster-server/src/blocklist.rs:46-58 | one entry, an hour long, under the normalised address |
| `AbuseGate.Gate.Admit` | paymaster-server/src/lib.rs:264-290 | the gate in one call: blocked, flagged or passed, and the state it leaves |
| `AbuseGate.BlockedExactly` | paymaster-server/src/blocklist.rs:46-80 | a call is refused if and only if its address was flagged within the hour |
| `AbuseGate.FirstCallAfterExpiryPasses` | paymaster-server/src/lib.rs:264-290 | the first call once the hour is over passes, as all that is tracked is stale |
| `AbuseGate.AtMostFivePass` | paymaster-server/src/heuristics.rs:18-35 | any half-open ten seconds hold at most five passing calls of a key |
| `AbuseGate.FlaggedExactly` | paymaster-server/src/heuristics.rs:18-35 | in every serial run a call that is not blocked is flagged if and only if it is one of more than five of its key in ten seconds, or one of three in three seconds with none between three and ten seconds old |
| `AbuseGate.BurstMissed` | paymaster-server/src/heuristics.rs:29-32 | calls at 0, 7, 8 and 9 seconds all pass, though the last three are a burst that would be flagged without the first |
| `AbuseInterleaving.SerialCall` | paymaster-server/src/lib.rs:264-290 | a call that nothing interrupts is its three locked steps in a row |
| `AbuseInterleaving.AtMostFivePass` | paymaster-server/src/lib.rs:264-290 | however calls overlap, any half-open ten seconds hold at most five passing calls of a key |
| `AbuseInterleaving.CheckRefusesExactly` | paymaster-server/src/blocklist.rs:46-80 | however calls overlap, the check refuses an address if and only if it was last added less than an hour ago |
| `AbuseInterleaving.BlockedByAddition` | paymaster-server/src/blocklist.rs:46-80 | however calls overlap, an address is blocked if and only if some addition of it is less than an hour old |
| `AbuseInterleaving.PassesWhileBlocked` | paymaster-server/src/lib.rs:264-290 | a call that the check let through reaches the tracker with its address blocked if and only if the address was added after that check and less than an hour before; it passes then if and only if the rule on bursts allows it |
| `AbuseInterleaving.StragglerPasses` | paymaster-server/src/lib.rs:264-290 | such a run: a call checked before another is flagged passes while its address is blocked |
| `AbuseInterleaving.FlaggedExactly` | paymaster-server/src/heuristics.rs:18-35 | however calls overlap, a call that reaches the tracker is flagged by the same rule over the calls of its key that reached it, and passes otherwise |
| `AbuseInterleaving.QuietKeyPasses` | paymaster-server/src/heuristics.rs:18-35 | it passes when no call of its key reached the tracker for ten seconds |
| `AbuseInterleaving.FirstCallFlagged` | paymaster-server/src/lib.rs:264-290 | two stragglers just before the hour is over get the first call after it flagged |
| `HorizonCluster.PriorityOrder` | paymaster-server/src/horizon.rs:349-357 | by priority the active nodes come first and the others last, each in configured order |
| `HorizonCluster.RotatedOrder` | paymaster-server/src/horizon.rs:358-366 | in turn, the k-th node visited is the one k places after the cursor, around the configured order |
| `HorizonCluster.OrderIsPermutation` | paymaster-server/src/horizon.rs:345-369 | both strategies visit every node exactly once |
| `HorizonCluster.Cluster.NodeOrder` | paymaster-server/src/horizon.rs:345-369 | the order of the strategy; round robin moves the cursor by one, with wrap-around |
| `HorizonCluster.Cluster.MarkNode` | paymaster-server/src/horizon.rs:379-409 | what success, retryable and final errors make of one node, field by field |
| `HorizonCluster.Cluster.Submit` | paymaster-server/src/horizon.rs:107-200 | every attempt before the last met a node that was unreachable or answered 408, 425, 429, 500, 502, 503 or 504; the last answer alone decides the result, case by case; each node contacted gets the status of its answer and no other changes |
| `HorizonCluster.NoNodeTwice` | paymaster-server/src/horizon.rs:107-117 | no submission contacts a node twice |
| `HorizonCluster.MarksTouchOnce` | paymaster-server/src/horizon.rs:379-409 | each node contacted gets its own answer's mark and no other node changes |
| `HorizonCluster.InactiveExactly` | paymaster-server/src/horizon.rs:379-409 | whatever submissions overlap, a node is inactive if and only if it was down at some attempt and has taken no transaction since, and counts how often |
| `HorizonCluster.EachNodeFirst` | paymaster-server/src/horizon.rs:358-366 | in n consecutive calls each node comes first once if and only if the cursor does not wrap or its range is a multiple of n |
| `RoundRobin.FairExactly` | paymaster-server/src/horizon.rs:358-366 | the arithmetic of that equivalence for a counter of any range |
| `ServerSelection.ComparatorDecides` | client/src/PaymasterClient.ts:207-223 | whatever algorithm sorts by score and index, the result is the stable sort by score |
| `ServerSelection.SameOrder` | paymaster-py/paymaster_py/client.py:351-369 | the Python order by score in seconds equals the TypeScript order by score in milliseconds |
| `ServerSelection.HealthyFirst` | client/src/PaymasterClient.ts:207-223 | the order is a permutation: healthy servers as configured, then cooling ones by remaining cooldown |
| `Fallback.PaymasterClient.MarkServerFailure` | client/src/PaymasterClient.ts:225-233 | counts the failure and sets the cooldown to 30, 60 or 120 s |
| `Fallback.PaymasterClient.MarkServerSuccess` | client/src/PaymasterClient.ts:235-237 | forgets the server's failures |
| `Fallback.PaymasterClient.OrderedServerUrls` | client/src/PaymasterClient.ts:207-223 | returns the servers in the preferred order |
| `Fallback.PaymasterClient.RequestWithFallback` | client/src/PaymasterClient.ts:361-417 | tries a duplicate-free prefix of the preferred order: an answer ends it well, a configuration error or a 400 is thrown at once, and when every server failed a server's own last error is thrown on; every failed server gains one failure with its cooldown, the one that answers is cleared, nothing else changes; what it sleeps in all |
| `Fallback.EntriesFromHistory` | paymaster-py/paymaster_py/client.py:371-395 | however requests overlap, an entry exists if and only if the server failed since its last success, counts those failures and cools down 30, 60 or 120 s from the last |
| `Fallback.DelaysGrow` | client/src/PaymasterClient.ts:240-245 | the delays are 250, 500, 1000 and then always 2000 ms |
| `SignerWeight.WeightForHint` | paymaster-server/src/signer_weight.rs:124-138 | the weight of the first ed25519 signer whose key ends in the four bytes of the hint, or none if there is none |
| `SignerWeight.ContributionIs` | paymaster-server/src/signer_weight.rs:82-138 | what a signature adds to the sum: the weight of the first signer it fits, or nothing if it fits none |
| `SignerWeight.TotalSignatureWeight` | paymaster-server/src/signer_weight.rs:71-95 | an error if and only if there are signatures and none fits a signer, and else the whole sum capped at 4294967295 |
| `SignerWeight.ValidateInnerEnvelope` | paymaster-server/src/signer_weight.rs:98-110 | the verdict against the medium threshold, with the exact sum and the threshold in the error |
| `SignerWeight.VerdictOfExactSum` | paymaster-server/src/signer_weight.rs:98-110 | accepted if and only if the exact sum reaches the threshold and some signature, if there is any, fits a signer: saturation never changes the verdict |
| `SignerWeight.SignatureOrderIrrelevant` | paymaster-server/src/signer_weight.rs:71-95 | any permutation of the signatures gives the same result |
| `SignerWeight.SumOverSigners` | paymaster-server/src/signer_weight.rs:71-138 | with distinct signer hints the sum is each signer's weight times the number of its signatures |
| `SignerWeight.MatchedSetExactly` | paymaster-server/src/signer_weight.rs:71-138 | with distinct signer hints the sum is that of the set of matched signers if and only if no signer of positive weight has two signatures |
| `SignerWeight.SignerOrderIrrelevant` | paymaster-server/src/signer_weight.rs:71-138 | with distinct signer hints the whole result, errors included, does not depend on the order of the signers |
| `SignerWeight.WeightOfMatchedSigners` | paymaster-server/src/signer_weight.rs:71-138 | with distinct hints on both sides the sum is that of the matched signers, at most the account's total |
| `SignerWeight.RepeatedSignature` | paymaster-server/src/signer_weight.rs:82-88 | a signature given k times counts k times |
| `Fees.FeeCalculator.Calculate` | paymaster-server/src/fee_calculator.rs:72-133 | succeeds if and only if base fee and multiplier are positive, and names the first that is not; the fee per operation is the least whole number that covers the exact one, the total its sum over all operations and the fee bump |
| `Fees.ServerMatchesCore` | paymaster-core/src/types.rs:332-335 | the server charges what the core crate computes |
| `Fees.ChargeIsLeast` | paymaster-server/src/stellar.rs:95-96 | the charge is the least whole number that covers base fee times multiplier for every operation and the fee bump; so is the core crate's fee |
| `Fees.EnvelopeRepeats` | paymaster-server/src/stellar.rs:107 | the envelope fee is the charge as often as there are operations, and once more |
| `Fees.ServerBelowCalculator` | paymaster-server/src/fee_calculator.rs:72-94 | the charge is at most the calculator's total and at most n below it; equal if and only if the rounding of all operations adds up to less than a stroop |
| `Fees.ChargeMonotone` | paymaster-server/src/stellar.rs:95-96 | the charge grows with operations, base fee and multiplier |
| `Fees.EnvelopeMonotone` | paymaster-server/src/stellar.rs:107 | so does the envelope fee |
| `Fees.EnvelopeIsCharge` | paymaster-server/src/stellar.rs:95-107 | the envelope fee is the charge if and only if the transaction has no operations, and never below it |
| `Fees.EnvelopePaysBaseFee` | paymaster-server/src/stellar.rs:95-107 | the envelope pays the base fee for every operation and the fee bump if and only if the exact charge exceeds the base fee less one |
| `Fees.EnvelopeTooLow` | paymaster-server/src/config.rs:57 | a multiplier of one quarter, which the configuration admits, leaves a transaction of one operation short |
| `Fees.EnvelopeOverpays` | paymaster-server/src/stellar.rs:95-107 | with a multiplier of at least one the envelope pays that amount n + 1 times over |

## Left out

- The request codecs (`client/src/grpcTransport.ts` lines 327-437): strings and a flag over the same fields, varints and skipping; they would repeat the response proofs on fewer fields.
- Trailer text: parsing and printing of `name: value` lines is a parameter of `Frames.DecodeGrpcWebFrames`; only which frames are trailers and how their results combine is modelled.
- UTF-8: `TextEncoder` and `TextDecoder` are parameters. Round trips assume strings that come back unchanged, which excludes a leading byte order mark and lone surrogates.
- Lengths of 2^32 and more: a frame or field that long is written with its length modulo 2^32, and the round trips exclude it.
- Frames.EncodeGrpcWebFrame and Batches.ConcatBytes are the only members on arrays; the decoders read an immutable byte sequence.
- Pipeline and Server: `disable_rate_limits`, configuration reloads, cancelled requests, panics, the metrics and the transaction store. The checks before the lease (XDR syntax, operation count, signer weight) are one boolean answer there; the weight check has its own module.
- Quota.QuotaUnderInterleaving: fees are natural numbers and sums unbounded; the 64-bit overflow of the server's sum is not modelled.
- SignerPool: secrets and keys; an account is known by its position. `snapshot` and the failure messages are left out; a lookup that fails during revalidation changes nothing and is no step.
- HorizonCluster: `fetch_account_auth` and `get_transaction` use the same loop and marks with one more final status. Failure counters are unbounded.
- Fallback.PaymasterClient.RequestWithFallback models the TypeScript client. The Python loop differs in its final error, and in letting errors other than its own request error escape.
- URL normalisation, telemetry, workers and wallets in the clients.
- OfflineQueue: storage is a sequence of items, so JSON and `localStorage` failures are left out, as are two queues on one key, page reloads during a flush and callbacks that throw. Nothing is promised about when items added during a flush are processed.
- SlidingWindow.AtMostLimitPerWindow holds for fixed limits without a reset, as a reset forgets admissions; `SlidingWindow.AnswersFromHistory` and `WindowLimits.AnswersFromRun` cover every operation.
- AbuseGate: `clear`. The blocklist theorems there are about serial calls; overlapping calls are in AbuseInterleaving.
- Clocks: a system clock that is set back. Outside the sliding window, whose wrap-around is modelled, the clock is read under the lock that guards what it is compared with.
- SignerWeight: XDR envelopes and muxed accounts; an envelope is its list of signature hints. Verifying the signatures is not part of the code's check either.
- Fees: exact reals. The rounding of 64-bit floating point, non-finite multipliers and integer overflow are not modelled.
- HTTP, gRPC and database plumbing, strkey, base64, Ed25519, SHA-256 and the Stellar XDR codec.
- The logging worker, tracing, metrics, gateway configuration, the admin dashboard, the React components, wallets, telemetry, examples and load tests.
