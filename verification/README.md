# get_transaction resolver — a Dafny model

This project models the transaction resolver of the swaps service
(`blocks/get_transaction.js`). The resolver looks up a raw transaction by its
id on a named network. A request may pin the block that holds the
transaction, and may name a cache. The resolver chooses among a cached
transaction, a cached block, a fresh block or transaction from the chain,
write-backs to the cache, and a search inside a block. It keeps one piece of
module state, the `lastBlock` memo: for each network, the last block it
resolved there.

The `asyncAuto` dependency graph is modelled as a fixed sequential pipeline.
There is one pure function per step in `steps.dfy`: `Validate`,
`GetCachedTx`, `GetCachedBlock`, `GetFreshBlock`, `GetFreshTx`,
`SetCachedBlock`, `SetCachedTx`, `TxInBlock` and `Compose` (the `result`
step). Each step either does nothing or issues one external call, and a
guard over the request, the memo and earlier outputs decides which.
`Resolver.Resolve` runs the steps in their declared order and stops at the
first error. It returns a `Reply` with three parts:

- the outcome: one of the resolver's own `[code, tag]` errors, a
  collaborator's error passed through, the result `{transaction}`, or a
  crash;
- the external calls issued, with their arguments;
- the new memo.

`Resolve` is written as a chain of stage functions (`AfterCachedTx`,
`AfterCachedBlock`, `AfterFreshBlock`, `AfterFreshTx`, `Conclude`), one per
boundary between steps. The `Paths` module states the reply along each path
through that chain, and `CallProperties.BlockResolve`,
`CallProperties.DirectResolve` and `CallProperties.Resolves` sum those paths
up for block-scoped and direct lookups.

`Resolver.Run` resolves a sequence of requests against the shared memo.
`DecisionTable` writes the guards out flat, as one condition per external
call. `CallProperties.CallsFollowTable` proves that the pipeline issues
exactly the calls the table lists.

The collaborators are inputs. An `Oracle` holds the answer each possible
call would get. A cache read or chain fetch answers with an error, with
`undefined`, or with an object whose `transaction`/`block` field may be
missing. A cache write answers with an error or with success. The block
codec is a partial map from raw hex to its list of `(id, hex)`
transactions; hex outside the map makes `Block.fromHex` throw. An absent
request argument and an empty one behave alike in every guard, so both are
written `""`.

The external callbacks are assumed to arrive asynchronously. Under that
assumption, `setCachedBlock` has already issued its write when `txInBlock`
runs. An error from `txInBlock` is therefore reported before any error
from that write. The memo update does not wait for the write either.

## Behaviour kept as written

- The in-block search `transactions.find(t => t.getId())` only checks
  whether an id is truthy. It never compares it with the requested id.
  `InBlockIgnoresRequestedId` proves that a block-scoped reply is the same
  for any non-empty id (an empty id still fails validation). `RequestedTxNotReturned` asks for "abc" in a
  block whose first transaction is "cb", and gets "cb".
- Without a cache, `getCachedBlock` exits before it creates or wipes the
  network's memo slot. A first block-scoped lookup on that network that
  fetched a block then reads `.transactions` of `undefined` and fails with
  `[503, 'FailedToDeriveTransactionsFromBlock']` (`NoCacheFirstLookupFails`).
  A later lookup reuses whatever list the slot holds, even one from another
  block (`NoCacheReusesList`, `StaleListExample`). With a cache, every
  stored list is the parse of the block stored beside it
  (`PreservesCoherence`, `RunKeepsCoherence`).
- When `txInBlock` leaves no hex in a block-scoped lookup, the `result`
  step destructures `undefined` and throws. The same happens in a direct
  lookup whose fetch answered `undefined` with no cached object to fall
  back on. This outcome is `Crashed`.
- Cache read and write errors reach the caller through `cbk`; they are
  not treated as misses.

## Model

| member | source | states |
|---|---|---|
| Resolver.Resolve | blocks/get_transaction.js:30-206 | definition: the steps in their declared order, stopping at the first error; pinned by CallsFollowTable, BlockResolve, DirectResolve and the lemmas below |
| Steps.Validate | blocks/get_transaction.js:32-42 | definition; pinned by ValidationComesFirst |
| Steps.GetCachedTx | blocks/get_transaction.js:45-52 | definition; pinned by CallsFollowTable, DirectCacheHit |
| Steps.GetCachedBlock | blocks/get_transaction.js:55-74 | definition; pinned by CallsFollowTable, MemoMismatchWipes, MemoHitSkipsBlockIo |
| Steps.GetFreshBlock | blocks/get_transaction.js:77-83 | definition; pinned by CallsFollowTable, BlockLookupWithoutBlock |
| Steps.GetFreshTx | blocks/get_transaction.js:86-92 | definition; pinned by CallsFollowTable, DirectFetchAnswers |
| Steps.SetCachedBlock | blocks/get_transaction.js:95-118 | definition; pinned by BlockCacheWriteExactly |
| Steps.SetCachedTx | blocks/get_transaction.js:121-149 | definition; pinned by TxCacheWriteExactly |
| Steps.TxInBlock | blocks/get_transaction.js:152-188 | definition; pinned by InBlockKeeps, SearchRecordsBlock, DeriveFailedExactly |
| Steps.Compose | blocks/get_transaction.js:191-204 | definition; pinned by DirectLookupWithoutAnswer, DirectFetchAnswers, InBlockHexAnswers |
| LastBlock.Touch | blocks/get_transaction.js:64 | definition; pinned by SlotInitialisedLazily |
| LastBlock.Holds | blocks/get_transaction.js:66 | definition; pinned by MemoHitSkipsBlockIo, BlockCacheWriteExactly |
| LastBlock.Wipe | blocks/get_transaction.js:71 | definition; pinned by MemoMismatchWipes |
| CallProperties.CallsFollowTable | blocks/get_transaction.js:44-149 | the calls a request issues are exactly the decision table's, in its order (cache reads, then chain fetches, then cache writes), each with the arguments the source passes |
| CallProperties.ValidationComesFirst | blocks/get_transaction.js:32-42 | an empty id gives `[400,'ExpectedIdForTransaction']`; an empty network with an id gives `[400,'ExpectedNetworkToLookForTransaction']`; both issue no call and leave the memo unchanged; a request with both fields never gets either error |
| CallProperties.DirectCacheHit | blocks/get_transaction.js:45-204 | a direct lookup with a cache whose cached transaction is truthy issues only that cache read, answers with the cached transaction and leaves the memo unchanged |
| CallProperties.DirectLookupScenario | blocks/get_transaction.js:45-149 | a direct lookup with a cache miss reads the cache, fetches by id, writes the transaction back under its id for 600000 ms, and answers with it |
| CallProperties.TxCacheWriteExactly | blocks/get_transaction.js:121-149 | the transaction cache is written if and only if the lookup is direct, a cache is set, nothing truthy was cached and the fetch produced a transaction; the write is keyed by id with ms 600000 |
| CallProperties.BlockCacheWriteExactly | blocks/get_transaction.js:95-118 | the block cache is written if and only if the lookup is block-scoped, a cache is set, the memo missed, no block was cached and the fetch produced one; the write is keyed by the block hash with ms 600000 |
| CallProperties.BlockScopedSkipsDirectSteps | blocks/get_transaction.js:45-149 | a block-scoped lookup never touches the transaction cache and never fetches the transaction by id |
| CallProperties.DirectFetchAnswers | blocks/get_transaction.js:191-204 | when a direct lookup fetched an object and its write-back did not fail, the answer is that object's transaction, so the fetched value beats the cached one |
| CallProperties.DirectLookupWithoutAnswer | blocks/get_transaction.js:196-202 | a direct fetch answering `undefined` crashes the result step if and only if no cached object exists; otherwise the cached object's transaction is the answer |
| CallProperties.BlockLookupWithoutBlock | blocks/get_transaction.js:157-202 | a block-scoped lookup that finds no block anywhere leaves txInBlock empty and the result step crashes |
| CallProperties.InBlockHexAnswers | blocks/get_transaction.js:191-204 | in a block-scoped lookup whose block lookups succeeded, a truthy hex found in the block is the answer unless the block write-back failed |
| CallProperties.BlockReplyIgnoresDirectAnswers | blocks/get_transaction.js:45-149 | a valid block-scoped reply is the same whatever the transaction cache, the fetch by id and the transaction-cache write would answer |
| BlockSearch.FirstWithId | blocks/get_transaction.js:178-182 | the search gives the first transaction with a non-empty id, and none exactly when every id is empty |
| LastBlock.Record | blocks/get_transaction.js:171-176 | the slot takes the block hash and raw block, keeps a list it already had and stores the parsed one otherwise; other networks are untouched |
| Resolver.Run | blocks/get_transaction.js:11 | requests resolved in sequence over the shared memo give one reply each |
| MemoProperties.OtherNetworksUntouched | blocks/get_transaction.js:64-176 | a request changes no network's slot but its own |
| MemoProperties.DirectLookupLeavesMemo | blocks/get_transaction.js:55-162 | a direct lookup, or one that fails validation, leaves the memo unchanged |
| MemoProperties.SlotInitialisedLazily | blocks/get_transaction.js:64 | a valid block-scoped lookup with a cache always leaves a slot for its network, even when a later step fails |
| MemoProperties.MemoSteps | blocks/get_transaction.js:55-188 | only getCachedBlock and txInBlock write the memo: the reply's memo is the original, the one getCachedBlock left, or the one txInBlock left after it |
| MemoProperties.CachedBlockKeeps | blocks/get_transaction.js:55-74 | getCachedBlock changes only its network's slot and keeps the memo well-formed and coherent |
| MemoProperties.InBlockKeeps | blocks/get_transaction.js:152-188 | txInBlock changes only its network's slot, keeps the memo well-formed, and keeps it coherent when a list already in the slot belongs to the searched block |
| MemoProperties.MemoHitSkipsBlockIo | blocks/get_transaction.js:66-103 | when the slot holds the requested block, no cache read, fetch or cache write happens; when it also holds the list, the reply depends on no collaborator, the memo is unchanged, and the answer is the search over the list |
| MemoProperties.MemoMismatchWipes | blocks/get_transaction.js:64-73 | on a memo miss with a cache, the first call is the block cache read and a failed read leaves the slot `{}`; the slot ends up either `{}` or wholly replaced by the new block and its parse, never merged |
| MemoProperties.SearchRecordsBlock | blocks/get_transaction.js:164-184 | a lookup ending in a result or in `[400,'TransactionNotFoundInBlock']` has recorded the block hash and raw block in the slot; the answer is the search over the slot's list, which is the old list whenever the slot still had one |
| MemoProperties.SearchAlwaysRecordsBlock | blocks/get_transaction.js:164-184 | once both block lookups succeeded and the search runs (a block was handed on, its slot exists, and the slot has a list or the codec parses the block), the slot holds the block hash, the raw block and a list whatever the block write-back answers; the answer is the search over that list unless the write failed |
| MemoProperties.DeriveFailureKeepsSlot | blocks/get_transaction.js:166-187 | `[503,'FailedToDeriveTransactionsFromBlock']` leaves the memo as getCachedBlock left it: no id or block is set |
| MemoProperties.DeriveFailedExactly | blocks/get_transaction.js:164-187 | a valid block-scoped lookup fails with `[503,'FailedToDeriveTransactionsFromBlock']` if and only if both block lookups succeeded, a block was handed on, and either its network has no slot or the slot has no list and the codec cannot parse the block; the memo is then as getCachedBlock left it |
| MemoProperties.UnparsableCachedBlockFails | blocks/get_transaction.js:64-187 | on a memo miss with a cache, a cached block the codec cannot parse gives 503 after the one block cache read, with the slot left `{}` |
| MemoProperties.NoCacheFirstLookupFails | blocks/get_transaction.js:56-187 | without a cache, a block-scoped lookup on a network with no slot fetches the block and then fails with 503, memo unchanged |
| MemoProperties.NoCacheReusesList | blocks/get_transaction.js:167-176 | without a cache, the slot's existing list is searched and kept beside the new block's hash and hex, and the codec is never consulted |
| MemoProperties.FreshBlockScenario | blocks/get_transaction.js:77-184 | a block in neither memo nor cache is read, fetched and written back once; the slot becomes exactly that block with its parse; the answer is the search over the parse |
| MemoProperties.InBlockIgnoresRequestedId | blocks/get_transaction.js:178 | in a block-scoped lookup any two non-empty ids get the identical reply |
| MemoProperties.RequestedTxNotReturned | blocks/get_transaction.js:178-184 | asking for "abc" in a block whose first transaction is "cb" answers with "cb"'s hex |
| MemoProperties.StaleListExample | blocks/get_transaction.js:167-176 | without a cache, a coherent memo holding block B1 answers a lookup in B2 with B1's transaction, and the memo becomes incoherent |
| MemoProperties.PreservesWellFormed | blocks/get_transaction.js:64-176 | every request keeps each slot's hash and raw block set together and non-empty, with a list only beside them |
| MemoProperties.PreservesCoherence | blocks/get_transaction.js:64-176 | a request with a cache keeps every stored list equal to the parse of the raw block beside it |
| RunProperties.RunKeepsWellFormed | blocks/get_transaction.js:64-176 | every run of requests keeps the memo well-formed |
| RunProperties.RunKeepsCoherence | blocks/get_transaction.js:64-176 | a run of requests that all use a cache, with a fixed codec, keeps the memo coherent |
| RunProperties.MemoHitPersists | blocks/get_transaction.js:64-184 | once a slot holds a block and its list, any number of lookups in that block with a cache issue no call, leave the memo unchanged, and all get the same answer |
| RunProperties.SecondLookupInSameBlock | blocks/get_transaction.js:64-184 | after a block-scoped lookup with a cache resolves, the next lookup in that block with a cache issues no call and returns the same transaction, whatever id it asks for |

## Left out

- `asyncAuto` scheduling and the callback plumbing: the graph is a fixed sequential order. Collaborators are assumed to call back asynchronously.
- Concurrency between requests that share `lastBlock`: interleaved requests race on the memo, and a sequential model cannot express that.
- The cache and chain clients (`getJsonFromCache`, `setJsonInCache`, `getFullBlock`, `getTransaction`): foreign I/O, modelled as given answers. There is no cache store, so nothing is stated about what a later request reads back from the cache.
- Whether a block-scoped answer equals the direct fetch for the same id: this depends on chain data the model does not have.
- The block codec internals (`Block.fromHex`, `getId`, `toHex` in tokenslib): an unseen library, modelled as a partial map. A header-only block, whose `transactions` is undefined, is not modelled. Neither is a `getId` or `toHex` that throws.
- TTL expiry and wall-clock behaviour: only the constant `cacheResultMs` is kept.
- `returnResult` wrapping, beyond taking the `result` value.
- The third element `err` of `[503, 'FailedToDeriveTransactionsFromBlock', err]`: the caught exception is dropped from `Failure`.
- When `toHex()` gives an empty string, the result step throws inside txInBlock's `try`, which calls `cbk` twice. The model reports `Crashed` and does not model the double callback.
- Network names that collide with `Object.prototype` properties (e.g. `toString`), where `lastBlock[network]` would not be a slot object.
- Looked-up values that are truthy but not objects: a value is `undefined` or an object with a possibly missing field.
