/** The guarded steps of the resolver (get_transaction.js:30-206), one
    function each. A step either does nothing or issues one external call, and
    the guard deciding which is a predicate over the request, the memo and the
    values earlier steps produced. */
module Steps {
  import opened Types
  import opened LastBlock
  import opened BlockSearch

  /** A step that may issue one lookup: the calls it issued and the answer it
      hands on (`Ok(None)`, an undefined result, when it did nothing). */
  datatype Lookup = Lookup(issued: seq<Call>, answer: Answer)

  /** getCachedBlock also updates the memo. */
  datatype BlockLookup = BlockLookup(issued: seq<Call>, answer: Answer, memo: Memo)

  /** A step that may issue one cache write, and the error that write reports. */
  datatype Write = Write(issued: seq<Call>, failure: Option<Failure>)

  /** What txInBlock hands on: nothing (no block to search), a transaction's
      hex, or an error. */
  datatype Search = NoBlock | Found(hex: string) | SearchFailed(failure: Failure)

  datatype InBlock = InBlock(search: Search, memo: Memo)

  const Skipped := Lookup([], Ok(None))
  const Unwritten := Write([], None)

  /** validate (lines 32-42). */
  function Validate(req: Request): Option<Failure> {
    if req.id == "" then Some(MissingId)
    else if req.network == "" then Some(MissingNetwork)
    else None
  }

  /** getCachedTx (lines 45-52). */
  function GetCachedTx(req: Request, o: Oracle): Lookup {
    if req.block != "" || req.cache == "" then Skipped
    else Lookup([CacheGet(req.cache, req.id, TypeTx)], o.cachedTx)
  }

  /** getCachedBlock (lines 55-74): initialise the network's slot, answer from
      it when it holds the block, otherwise wipe it and read the cache. */
  function GetCachedBlock(req: Request, cachedTx: Option<string>, memo: Memo, o: Oracle): BlockLookup {
    if req.block == "" || req.cache == "" then BlockLookup([], Ok(None), memo)
    else if Truthy(cachedTx) then BlockLookup([], Ok(None), memo)
    else
      var touched := Touch(memo, req.network);
      if Holds(touched, req.network, req.block) then
        BlockLookup([], Ok(Some(touched[req.network].block.value)), touched)
      else
        BlockLookup([CacheGet(req.cache, req.block, TypeBlock)], o.cachedBlock, Wipe(touched, req.network))
  }

  /** getFreshBlock (lines 77-83). */
  function GetFreshBlock(req: Request, cachedBlock: Option<string>, o: Oracle): Lookup {
    if req.block == "" || Truthy(cachedBlock) then Skipped
    else Lookup([FetchBlock(req.network, req.block)], o.freshBlock)
  }

  /** getFreshTx (lines 86-92). */
  function GetFreshTx(req: Request, cachedTx: Option<string>, o: Oracle): Lookup {
    if req.block != "" || Truthy(cachedTx) then Skipped
    else Lookup([FetchTx(req.id, req.network)], o.freshTx)
  }

  /** setCachedBlock (lines 95-118). */
  function SetCachedBlock(req: Request, cachedBlock: Option<string>, freshBlock: Option<string>, o: Oracle): Write {
    if Truthy(cachedBlock) then Unwritten
    else if req.cache == "" || !Truthy(freshBlock) then Unwritten
    else Write([CacheSet(req.cache, req.block, CacheResultMs, TypeBlock, freshBlock.value)], o.setBlock)
  }

  /** setCachedTx (lines 121-149). */
  function SetCachedTx(req: Request, cachedTx: Option<string>, freshTx: Option<string>, o: Oracle): Write {
    if req.block != "" || req.cache == "" then Unwritten
    else if Truthy(cachedTx) then Unwritten
    else if !Truthy(freshTx) then Unwritten
    else Write([CacheSet(req.cache, req.id, CacheResultMs, TypeTx, freshTx.value)], o.setTx)
  }

  /** txInBlock (lines 152-188). Reading `.transactions` of a network without a
      slot throws, and so does a block the codec cannot parse; both are caught
      as DeriveFailed before the slot is written. Otherwise the slot records
      the block, and the search runs on the slot's old list when it had one. */
  function TxInBlock(req: Request, cachedBlock: Option<string>, freshBlock: Option<string>,
                     memo: Memo, codec: map<string, seq<Tx>>): InBlock
  {
    var result := if freshBlock.Some? then freshBlock else cachedBlock;
    if req.block == "" || !Truthy(result) then InBlock(NoBlock, memo)
    else if req.network !in memo then InBlock(SearchFailed(DeriveFailed), memo)
    else
      var kept := memo[req.network].transactions;
      if kept.None? && result.value !in codec then InBlock(SearchFailed(DeriveFailed), memo)
      else
        var txs := if kept.Some? then kept.value else codec[result.value];
        var recorded := Record(memo, req.network, req.block, result.value, txs);
        match FirstWithId(txs)
        case None => InBlock(SearchFailed(NotInBlock), recorded)
        case Some(i) => InBlock(Found(txs[i].hex), recorded)
  }

  /** result (lines 191-204): a truthy in-block hex wins; otherwise the
      `transaction` field of `getFreshTx || getCachedTx`, and destructuring
      `undefined` throws. */
  function Compose(cachedTx: Option<string>, freshTx: Option<string>, inBlock: string): Outcome {
    if inBlock != "" then Resolved(inBlock)
    else
      var source := if freshTx.Some? then freshTx else cachedTx;
      if source.None? then Crashed else Resolved(source.value)
  }
}
