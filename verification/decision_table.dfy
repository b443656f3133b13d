/** The resolver's decision table written out flat: for each external call,
    the condition over the request, the memo as it stood before the request,
    and the collaborators' answers under which that call is issued, and the
    order in which issued calls go out. */
module DecisionTable {
  import opened Types
  import opened LastBlock

  /** Both required arguments are present. */
  predicate Valid(req: Request) {
    req.id != "" && req.network != ""
  }

  /** The cached transaction is read: a direct lookup with a cache. */
  predicate ReadsCachedTx(req: Request) {
    Valid(req) && req.block == "" && req.cache != ""
  }

  /** The cached block is read: a block-scoped lookup with a cache whose
      network slot does not already hold the block. */
  predicate ReadsCachedBlock(req: Request, memo: Memo) {
    Valid(req) && req.block != "" && req.cache != "" && !Holds(memo, req.network, req.block)
  }

  /** The block is fetched from the chain: block-scoped, and either there is no
      cache or its read succeeded without producing a block. */
  predicate FetchesBlock(req: Request, memo: Memo, o: Oracle) {
    && Valid(req) && req.block != ""
    && (req.cache == "" || (ReadsCachedBlock(req, memo) && o.cachedBlock.Ok? && !Truthy(o.cachedBlock.value)))
  }

  /** The transaction is fetched from the chain: a direct lookup, and either
      there is no cache or its read succeeded without producing a transaction. */
  predicate FetchesTx(req: Request, o: Oracle) {
    && Valid(req) && req.block == ""
    && (req.cache == "" || (o.cachedTx.Ok? && !Truthy(o.cachedTx.value)))
  }

  /** The fetched block is written back: there is a cache and the fetch
      produced a block. */
  predicate WritesBlock(req: Request, memo: Memo, o: Oracle) {
    FetchesBlock(req, memo, o) && req.cache != "" && o.freshBlock.Ok? && Truthy(o.freshBlock.value)
  }

  /** The fetched transaction is written back: there is a cache and the fetch
      produced a transaction. */
  predicate WritesTx(req: Request, o: Oracle) {
    FetchesTx(req, o) && req.cache != "" && o.freshTx.Ok? && Truthy(o.freshTx.value)
  }

  function When(c: bool, call: Call): seq<Call> {
    if c then [call] else []
  }

  /** The calls a request issues, in order: cache reads, then chain fetches,
      then cache writes. */
  function Calls(req: Request, memo: Memo, o: Oracle): seq<Call> {
    When(ReadsCachedTx(req), CacheGet(req.cache, req.id, TypeTx))
    + When(ReadsCachedBlock(req, memo), CacheGet(req.cache, req.block, TypeBlock))
    + When(FetchesBlock(req, memo, o), FetchBlock(req.network, req.block))
    + When(FetchesTx(req, o), FetchTx(req.id, req.network))
    + When(WritesBlock(req, memo, o),
           CacheSet(req.cache, req.block, CacheResultMs, TypeBlock,
                    if o.freshBlock.Ok? && o.freshBlock.value.Some? then o.freshBlock.value.value else ""))
    + When(WritesTx(req, o),
           CacheSet(req.cache, req.id, CacheResultMs, TypeTx,
                    if o.freshTx.Ok? && o.freshTx.value.Some? then o.freshTx.value.value else ""))
  }
}
