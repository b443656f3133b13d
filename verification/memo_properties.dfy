/** How one request moves the `lastBlock` memo. */
module MemoProperties {
  import opened Types
  import opened LastBlock
  import opened BlockSearch
  import opened Steps
  import opened Resolver
  import opened DecisionTable
  import opened Paths
  import CallProperties

  /** What a block-scoped lookup answers once it searches the list `txs`. */
  function SearchOutcome(txs: seq<Tx>): Outcome {
    match FirstWithId(txs)
    case None => Failed(NotInBlock)
    case Some(i) => if txs[i].hex != "" then Resolved(txs[i].hex) else Crashed
  }

  /** What txInBlock hands on after searching the list `txs`. */
  function SearchOf(txs: seq<Tx>): Search {
    match FirstWithId(txs)
    case None => SearchFailed(NotInBlock)
    case Some(i) => Found(txs[i].hex)
  }

  /** txInBlock gets as far as the search: there is a block, its network has
      a slot, and the slot already has a list or the codec parses the block. */
  predicate Searches(req: Request, cachedBlock: Option<string>, freshBlock: Option<string>,
                     memo: Memo, codec: map<string, seq<Tx>>)
  {
    var result := if freshBlock.Some? then freshBlock else cachedBlock;
    && req.block != "" && Truthy(result) && req.network in memo
    && (memo[req.network].transactions.Some? || result.value in codec)
  }

  /** The list such a search runs over: the slot's old one, else the parse. */
  function SearchedList(req: Request, cachedBlock: Option<string>, freshBlock: Option<string>,
                        memo: Memo, codec: map<string, seq<Tx>>): seq<Tx>
    requires Searches(req, cachedBlock, freshBlock, memo, codec)
  {
    var result := if freshBlock.Some? then freshBlock else cachedBlock;
    if memo[req.network].transactions.Some? then memo[req.network].transactions.value else codec[result.value]
  }

  /** txInBlock either searches, and then records the block, or leaves the
      memo alone with no block or DeriveFailed. */
  lemma InBlockSearchCases(req: Request, cachedBlock: Option<string>, freshBlock: Option<string>,
                           memo: Memo, codec: map<string, seq<Tx>>)
    ensures var s := TxInBlock(req, cachedBlock, freshBlock, memo, codec).search;
      s.Found? || s == SearchFailed(NotInBlock) <==> Searches(req, cachedBlock, freshBlock, memo, codec)
    ensures Searches(req, cachedBlock, freshBlock, memo, codec) ==>
      var result := if freshBlock.Some? then freshBlock else cachedBlock;
      var txs := SearchedList(req, cachedBlock, freshBlock, memo, codec);
      TxInBlock(req, cachedBlock, freshBlock, memo, codec) ==
        InBlock(SearchOf(txs), Record(memo, req.network, req.block, result.value, txs))
    ensures !Searches(req, cachedBlock, freshBlock, memo, codec) ==>
      TxInBlock(req, cachedBlock, freshBlock, memo, codec).memo == memo
  {
  }

  /** The reply's outcome once the search ran over `txs`. */
  lemma FinishOutcome(inBlock: InBlock, txs: seq<Tx>, setBlock: Write, calls: seq<Call>)
    ensures inBlock.search == SearchOf(txs) && setBlock.failure.None? ==>
      BlockFinish(inBlock, setBlock, calls).outcome == SearchOutcome(txs)
    ensures var out := BlockFinish(inBlock, setBlock, calls).outcome;
      inBlock.search == SearchOf(txs) && (out.Resolved? || out == Failed(NotInBlock)) ==> out == SearchOutcome(txs)
  {
  }

  /** The memo getCachedBlock leaves for a block-scoped lookup. */
  lemma MidMemoCases(req: Request, memo: Memo, o: Oracle)
    ensures req.block != "" && req.cache == "" ==> MidMemo(req, memo, o) == memo
    ensures req.block != "" && req.cache != "" && Holds(memo, req.network, req.block) ==>
      MidMemo(req, memo, o) == memo
    ensures req.block != "" && req.cache != "" && !Holds(memo, req.network, req.block) ==>
      MidMemo(req, memo, o) == memo[req.network := Blank]
  {
    if req.block != "" && req.cache != "" {
      if Holds(memo, req.network, req.block) {
        assert Touch(memo, req.network) == memo;
      } else {
        assert Wipe(Touch(memo, req.network), req.network) == memo[req.network := Blank];
      }
    }
  }

  /** Only getCachedBlock and txInBlock write the memo: a reply's memo is the
      original, the one getCachedBlock left, or the one txInBlock left after it. */
  lemma MemoSteps(req: Request, memo: Memo, o: Oracle)
    ensures var m := Resolve(req, memo, o).memo;
      || m == memo
      || m == MidMemo(req, memo, o)
      || m == TxInBlock(req, MidCached(req, memo, o), MidFresh(req, memo, o), MidMemo(req, memo, o), o.codec).memo
  {
    CallProperties.Resolves(req, memo, o);
  }

  /** getCachedBlock changes at most its network's slot, only ever to a blank
      one or to itself, so it keeps both memo invariants. */
  lemma CachedBlockKeeps(req: Request, memo: Memo, o: Oracle, codec: map<string, seq<Tx>>)
    ensures AgreeExcept(memo, MidMemo(req, memo, o), req.network)
    ensures WellFormed(memo) ==> WellFormed(MidMemo(req, memo, o))
    ensures Coherent(memo, codec) ==> Coherent(MidMemo(req, memo, o), codec)
  {
  }

  /** txInBlock changes at most its network's slot, never removes it, and
      keeps the memo's shape; it keeps coherence when a list already in the
      slot belongs to the block being searched. */
  lemma InBlockKeeps(req: Request, cachedBlock: Option<string>, freshBlock: Option<string>,
                     memo: Memo, codec: map<string, seq<Tx>>)
    ensures AgreeExcept(memo, TxInBlock(req, cachedBlock, freshBlock, memo, codec).memo, req.network)
    ensures req.network in memo ==> req.network in TxInBlock(req, cachedBlock, freshBlock, memo, codec).memo
    ensures WellFormed(memo) ==> WellFormed(TxInBlock(req, cachedBlock, freshBlock, memo, codec).memo)
    ensures
      && Coherent(memo, codec)
      && (req.network in memo && memo[req.network].transactions.Some? ==>
            (if freshBlock.Some? then freshBlock else cachedBlock) == memo[req.network].block)
      ==> Coherent(TxInBlock(req, cachedBlock, freshBlock, memo, codec).memo, codec)
  {
  }

  /** Only the request's own network slot can change. */
  lemma OtherNetworksUntouched(req: Request, memo: Memo, o: Oracle)
    ensures AgreeExcept(memo, Resolve(req, memo, o).memo, req.network)
  {
    MemoSteps(req, memo, o);
    CachedBlockKeeps(req, memo, o, o.codec);
    InBlockKeeps(req, MidCached(req, memo, o), MidFresh(req, memo, o), MidMemo(req, memo, o), o.codec);
  }

  /** A direct lookup, or one that fails validation, leaves the memo alone. */
  lemma DirectLookupLeavesMemo(req: Request, memo: Memo, o: Oracle)
    requires req.block == "" || !Valid(req)
    ensures Resolve(req, memo, o).memo == memo
  {
    CallProperties.Resolves(req, memo, o);
  }

  /** A block-scoped lookup with a cache always leaves a slot for its network
      behind, even when a later step fails. */
  lemma SlotInitialisedLazily(req: Request, memo: Memo, o: Oracle)
    requires Valid(req) && req.block != "" && req.cache != ""
    ensures req.network in Resolve(req, memo, o).memo
  {
    CallProperties.BlockResolve(req, memo, o);
    MidMemoCases(req, memo, o);
    InBlockKeeps(req, MidCached(req, memo, o), MidFresh(req, memo, o), MidMemo(req, memo, o), o.codec);
  }

  /** A slot that holds the requested block answers it: no cache read, no
      fetch and no cache write. When the slot also holds the parsed list, the
      reply depends on no collaborator at all and the memo is unchanged. */
  lemma MemoHitSkipsBlockIo(req: Request, memo: Memo, o: Oracle, o': Oracle)
    requires Valid(req) && req.block != "" && req.cache != ""
    requires Holds(memo, req.network, req.block)
    ensures Resolve(req, memo, o).calls == []
    ensures memo[req.network].transactions.Some? ==>
      && Resolve(req, memo, o) == Resolve(req, memo, o')
      && Resolve(req, memo, o).memo == memo
      && Resolve(req, memo, o).outcome == SearchOutcome(memo[req.network].transactions.value)
  {
    MemoHitPath(req, memo, o);
    MemoHitPath(req, memo, o');
    var b := memo[req.network].block;
    if memo[req.network].transactions.Some? {
      var txs := memo[req.network].transactions.value;
      InBlockSearchCases(req, b, None, memo, o.codec);
      InBlockSearchCases(req, b, None, memo, o'.codec);
      assert Record(memo, req.network, req.block, b.value, txs) == memo;
      var ib := InBlock(SearchOf(txs), memo);
      assert TxInBlock(req, b, None, memo, o.codec) == ib == TxInBlock(req, b, None, memo, o'.codec);
      FinishOutcome(ib, txs, Unwritten, []);
    }
  }

  /** A memo miss with a cache wipes the slot before the block cache read, so
      the slot ends up either blank or wholly replaced by the new block and its
      parse; it is never merged with what it held before. */
  lemma MemoMismatchWipes(req: Request, memo: Memo, o: Oracle)
    requires Valid(req) && req.block != "" && req.cache != ""
    requires !Holds(memo, req.network, req.block)
    ensures |Resolve(req, memo, o).calls| > 0
    ensures Resolve(req, memo, o).calls[0] == CacheGet(req.cache, req.block, TypeBlock)
    ensures o.cachedBlock.Err? ==> Resolve(req, memo, o).memo == memo[req.network := Blank]
    ensures req.network in Resolve(req, memo, o).memo
    ensures var e := Resolve(req, memo, o).memo[req.network];
      e == Blank ||
      (e.id == Some(req.block) && e.block.Some? && e.block.value in o.codec && e.transactions == Some(o.codec[e.block.value]))
  {
    CallProperties.BlockResolve(req, memo, o);
    MidMemoCases(req, memo, o);
    var mid := memo[req.network := Blank];
    var c := MidCached(req, memo, o);
    var f := MidFresh(req, memo, o);
    InBlockSearchCases(req, c, f, mid, o.codec);
    TableReadsBlockFirst(req, memo, o);
  }

  /** In the table, a read of the block cache is the first call. */
  lemma TableReadsBlockFirst(req: Request, memo: Memo, o: Oracle)
    requires ReadsCachedBlock(req, memo)
    ensures |Calls(req, memo, o)| > 0 && Calls(req, memo, o)[0] == CacheGet(req.cache, req.block, TypeBlock)
  {
    var rest := When(FetchesBlock(req, memo, o), FetchBlock(req.network, req.block))
      + When(FetchesTx(req, o), FetchTx(req.id, req.network))
      + When(WritesBlock(req, memo, o),
             CacheSet(req.cache, req.block, CacheResultMs, TypeBlock,
                      if o.freshBlock.Ok? && o.freshBlock.value.Some? then o.freshBlock.value.value else ""))
      + When(WritesTx(req, o),
             CacheSet(req.cache, req.id, CacheResultMs, TypeTx,
                      if o.freshTx.Ok? && o.freshTx.value.Some? then o.freshTx.value.value else ""));
    assert Calls(req, memo, o) == [] + [CacheGet(req.cache, req.block, TypeBlock)] + rest;
  }

  /** A lookup that reaches the search (found, or not found) has recorded the
      block in its network's slot together with a transaction list, and the
      answer is the search over that list. The list is the slot's old one
      when the slot still had one at that point. */
  lemma SearchRecordsBlock(req: Request, memo: Memo, o: Oracle)
    requires req.block != ""
    requires Resolve(req, memo, o).outcome.Resolved? || Resolve(req, memo, o).outcome == Failed(NotInBlock)
    ensures var m := Resolve(req, memo, o).memo;
      && req.network in m
      && m[req.network].id == Some(req.block)
      && Truthy(m[req.network].block)
      && m[req.network].block == (if MidFresh(req, memo, o).Some? then MidFresh(req, memo, o) else MidCached(req, memo, o))
      && m[req.network].transactions.Some?
    ensures var e := Resolve(req, memo, o).memo[req.network];
      e.transactions.Some? && Resolve(req, memo, o).outcome == SearchOutcome(e.transactions.value)
    ensures (req.cache == "" || Holds(memo, req.network, req.block)) && req.network in memo && memo[req.network].transactions.Some? ==>
      Resolve(req, memo, o).memo[req.network].transactions == memo[req.network].transactions
  {
    assert NotInBlock.tag[0] != MissingId.tag[0] && NotInBlock.tag[0] != MissingNetwork.tag[0];
    CallProperties.Resolves(req, memo, o);
    MidMemoCases(req, memo, o);
    var mid := MidMemo(req, memo, o);
    var c := MidCached(req, memo, o);
    var f := MidFresh(req, memo, o);
    InBlockSearchCases(req, c, f, mid, o.codec);
    if Searches(req, c, f, mid, o.codec) {
      FinishOutcome(TxInBlock(req, c, f, mid, o.codec), SearchedList(req, c, f, mid, o.codec),
                    SetCachedBlock(req, c, f, o), Calls(req, memo, o));
    }
  }

  /** The slot is recorded as soon as the search runs, whatever the block
      write-back answers afterwards: the memo update does not wait for it.
      The answer is the search over the slot's list unless that write failed. */
  lemma SearchAlwaysRecordsBlock(req: Request, memo: Memo, o: Oracle)
    requires Valid(req) && req.block != "" && BlockFailure(req, memo, o).None?
    requires Searches(req, MidCached(req, memo, o), MidFresh(req, memo, o), MidMemo(req, memo, o), o.codec)
    ensures var m := Resolve(req, memo, o).memo;
      && req.network in m
      && m[req.network].id == Some(req.block)
      && m[req.network].block == (if MidFresh(req, memo, o).Some? then MidFresh(req, memo, o) else MidCached(req, memo, o))
      && m[req.network].transactions.Some?
    ensures SetCachedBlock(req, MidCached(req, memo, o), MidFresh(req, memo, o), o).failure.None? ==>
      var e := Resolve(req, memo, o).memo[req.network];
      e.transactions.Some? && Resolve(req, memo, o).outcome == SearchOutcome(e.transactions.value)
  {
    var mid := MidMemo(req, memo, o);
    var c := MidCached(req, memo, o);
    var f := MidFresh(req, memo, o);
    CallProperties.BlockResolve(req, memo, o);
    InBlockSearchCases(req, c, f, mid, o.codec);
    FinishOutcome(TxInBlock(req, c, f, mid, o.codec), SearchedList(req, c, f, mid, o.codec),
                  SetCachedBlock(req, c, f, o), Calls(req, memo, o));
  }

  /** When deriving the transactions throws, the slot gets no id or block:
      the memo is as getCachedBlock left it. */
  lemma DeriveFailureKeepsSlot(req: Request, memo: Memo, o: Oracle)
    requires Resolve(req, memo, o).outcome == Failed(DeriveFailed)
    ensures Valid(req) && req.block != ""
    ensures req.cache == "" ==> Resolve(req, memo, o).memo == memo
    ensures req.cache != "" && Holds(memo, req.network, req.block) ==> Resolve(req, memo, o).memo == memo
    ensures req.cache != "" && !Holds(memo, req.network, req.block) ==> Resolve(req, memo, o).memo == memo[req.network := Blank]
  {
    CallProperties.Resolves(req, memo, o);
    MidMemoCases(req, memo, o);
    InBlockSearchCases(req, MidCached(req, memo, o), MidFresh(req, memo, o), MidMemo(req, memo, o), o.codec);
  }

  /** Deriving the transactions throws: there is a block to search, but its
      network has no slot, or the slot has no list and the codec cannot parse
      the block. */
  predicate DeriveThrows(req: Request, cachedBlock: Option<string>, freshBlock: Option<string>,
                         memo: Memo, codec: map<string, seq<Tx>>)
  {
    var result := if freshBlock.Some? then freshBlock else cachedBlock;
    && req.block != "" && Truthy(result)
    && (req.network !in memo || (memo[req.network].transactions.None? && result.value !in codec))
  }

  /** A block-scoped lookup fails with DeriveFailed exactly when both block
      lookups succeeded and deriving the transactions then throws; the memo
      is then as getCachedBlock left it. */
  lemma DeriveFailedExactly(req: Request, memo: Memo, o: Oracle)
    requires Valid(req) && req.block != ""
    ensures Resolve(req, memo, o).outcome == Failed(DeriveFailed) <==>
      BlockFailure(req, memo, o).None? &&
      DeriveThrows(req, MidCached(req, memo, o), MidFresh(req, memo, o), MidMemo(req, memo, o), o.codec)
    ensures Resolve(req, memo, o).outcome == Failed(DeriveFailed) ==> Resolve(req, memo, o).memo == MidMemo(req, memo, o)
  {
    CallProperties.BlockResolve(req, memo, o);
    InBlockSearchCases(req, MidCached(req, memo, o), MidFresh(req, memo, o), MidMemo(req, memo, o), o.codec);
  }

  /** A memo miss whose cached block the codec cannot parse: the block cache
      is read, nothing is fetched or written, the parse throws, and the slot
      is left `{}`. */
  lemma UnparsableCachedBlockFails(req: Request, memo: Memo, o: Oracle)
    requires Valid(req) && req.block != "" && req.cache != ""
    requires !Holds(memo, req.network, req.block)
    requires o.cachedBlock.Ok? && Truthy(o.cachedBlock.value) && o.cachedBlock.value.value !in o.codec
    ensures Resolve(req, memo, o) ==
      Reply(Failed(DeriveFailed), [CacheGet(req.cache, req.block, TypeBlock)], memo[req.network := Blank])
  {
    CachedBlockHitPath(req, memo, o);
  }

  /** Without a cache nothing creates a slot, so a first block-scoped lookup
      on a network dereferences an undefined slot and fails with DeriveFailed,
      after fetching the block. */
  lemma NoCacheFirstLookupFails(req: Request, memo: Memo, o: Oracle)
    requires Valid(req) && req.block != "" && req.cache == ""
    requires req.network !in memo
    requires o.freshBlock.Ok? && Truthy(o.freshBlock.value)
    ensures Resolve(req, memo, o) == Reply(Failed(DeriveFailed), [FetchBlock(req.network, req.block)], memo)
  {
    UncachedBlockPath(req, memo, o);
    assert TxInBlock(req, None, o.freshBlock.value, memo, o.codec) == InBlock(SearchFailed(DeriveFailed), memo);
  }

  /** Without a cache the slot is never wiped, so a lookup reuses whatever
      list the slot holds, even one parsed from a different block, and stamps
      the slot with the new block's id and hex beside that list. */
  lemma NoCacheReusesList(req: Request, memo: Memo, o: Oracle)
    requires Valid(req) && req.block != "" && req.cache == ""
    requires req.network in memo && memo[req.network].transactions.Some?
    requires o.freshBlock.Ok? && Truthy(o.freshBlock.value)
    ensures Resolve(req, memo, o).calls == [FetchBlock(req.network, req.block)]
    ensures Resolve(req, memo, o).memo ==
      memo[req.network := Entry(Some(req.block), o.freshBlock.value, memo[req.network].transactions)]
    ensures Resolve(req, memo, o).outcome == SearchOutcome(memo[req.network].transactions.value)
  {
    UncachedBlockPath(req, memo, o);
    var f := o.freshBlock.value;
    var txs := memo[req.network].transactions.value;
    InBlockSearchCases(req, None, f, memo, o.codec);
    FinishOutcome(TxInBlock(req, None, f, memo, o.codec), txs, Unwritten, [FetchBlock(req.network, req.block)]);
  }

  /** A block missing from memo and cache is fetched, parsed and written
      back, the slot becomes exactly that block, and the answer is the search
      over its parse; a failed search still leaves the slot filled. */
  lemma FreshBlockScenario(req: Request, memo: Memo, o: Oracle, raw: string)
    requires Valid(req) && req.block != "" && req.cache != ""
    requires !Holds(memo, req.network, req.block)
    requires o.cachedBlock == Ok(None) && o.freshBlock == Ok(Some(raw)) && raw != "" && raw in o.codec
    requires o.setBlock.None?
    ensures Resolve(req, memo, o).calls ==
      [CacheGet(req.cache, req.block, TypeBlock), FetchBlock(req.network, req.block),
       CacheSet(req.cache, req.block, 600000, TypeBlock, raw)]
    ensures Resolve(req, memo, o).memo == memo[req.network := Entry(Some(req.block), Some(raw), Some(o.codec[raw]))]
    ensures Resolve(req, memo, o).outcome == SearchOutcome(o.codec[raw])
  {
    FetchedBlockPath(req, memo, o);
    var wiped := memo[req.network := Blank];
    var write := CacheSet(req.cache, req.block, CacheResultMs, TypeBlock, raw);
    InBlockSearchCases(req, None, Some(raw), wiped, o.codec);
    assert Record(wiped, req.network, req.block, raw, o.codec[raw]) ==
      memo[req.network := Entry(Some(req.block), Some(raw), Some(o.codec[raw]))];
    FinishOutcome(TxInBlock(req, None, Some(raw), wiped, o.codec), o.codec[raw], Write([write], None),
                  [CacheGet(req.cache, req.block, TypeBlock), FetchBlock(req.network, req.block), write]);
  }

  /** In a block-scoped lookup the requested id is only checked for presence:
      any other non-empty id gets the very same reply. */
  lemma InBlockIgnoresRequestedId(req: Request, memo: Memo, o: Oracle, other: string)
    requires req.block != "" && req.id != "" && other != ""
    ensures Resolve(req.(id := other), memo, o) == Resolve(req, memo, o)
  {
    var req' := req.(id := other);
    if !Valid(req) {
      InvalidPath(req, memo, o);
      InvalidPath(req', memo, o);
    } else {
      CallProperties.BlockResolve(req, memo, o);
      CallProperties.BlockResolve(req', memo, o);
      BlockStepsIgnoreId(req, memo, o, other);
      BlockTableIgnoresId(req, memo, o, other);
    }
  }

  /** The block-scoped steps read the id only through the direct steps,
      which a block-scoped lookup skips. */
  lemma BlockStepsIgnoreId(req: Request, memo: Memo, o: Oracle, other: string)
    requires req.block != ""
    ensures var req' := req.(id := other);
      && BlockFailure(req', memo, o) == BlockFailure(req, memo, o)
      && MidMemo(req', memo, o) == MidMemo(req, memo, o)
      && MidCached(req', memo, o) == MidCached(req, memo, o)
      && MidFresh(req', memo, o) == MidFresh(req, memo, o)
      && SetCachedBlock(req', MidCached(req, memo, o), MidFresh(req, memo, o), o)
         == SetCachedBlock(req, MidCached(req, memo, o), MidFresh(req, memo, o), o)
      && TxInBlock(req', MidCached(req, memo, o), MidFresh(req, memo, o), MidMemo(req, memo, o), o.codec)
         == TxInBlock(req, MidCached(req, memo, o), MidFresh(req, memo, o), MidMemo(req, memo, o), o.codec)
  {
    var req' := req.(id := other);
    assert GetCachedBlock(req', None, memo, o) == GetCachedBlock(req, None, memo, o);
  }

  /** Nor does the table of a block-scoped lookup depend on which non-empty id
      it asks for. */
  lemma BlockTableIgnoresId(req: Request, memo: Memo, o: Oracle, other: string)
    requires req.block != "" && req.id != "" && other != ""
    ensures Calls(req.(id := other), memo, o) == Calls(req, memo, o)
  {
    var req' := req.(id := other);
    assert Valid(req') == Valid(req);
    assert ReadsCachedBlock(req', memo) == ReadsCachedBlock(req, memo);
    assert FetchesBlock(req', memo, o) == FetchesBlock(req, memo, o);
    assert WritesBlock(req', memo, o) == WritesBlock(req, memo, o);
    assert !ReadsCachedTx(req') && !ReadsCachedTx(req);
    assert !FetchesTx(req', o) && !FetchesTx(req, o);
    assert !WritesTx(req', o) && !WritesTx(req, o);
  }

  /** Asking block B1 for transaction "abc" answers with the block's first
      transaction, "cb", although "abc" is in the block. */
  lemma RequestedTxNotReturned()
    ensures
      var req := Request("B1", "redis", "abc", "main");
      var unused := Err(Failure(500, "NotAsked"));
      var o := Oracle(unused, Ok(None), Ok(Some("raw1")), unused, None, None,
                      map["raw1" := [Tx("cb", "cbhex"), Tx("abc", "abchex")]]);
      Resolve(req, map[], o).outcome == Resolved("cbhex")
  {
    var req := Request("B1", "redis", "abc", "main");
    var unused := Err(Failure(500, "NotAsked"));
    var txs := [Tx("cb", "cbhex"), Tx("abc", "abchex")];
    var o := Oracle(unused, Ok(None), Ok(Some("raw1")), unused, None, None, map["raw1" := txs]);
    var memo: Memo := map[];
    FreshBlockScenario(req, memo, o, "raw1");
    FirstTransactionWins(txs);
  }

  /** Without a cache the memo can pair block B2's hex with the list parsed
      from block B1, and then answers a lookup in B2 with B1's transaction. */
  lemma StaleListExample()
    ensures
      var codec := map["raw1" := [Tx("t1", "h1")], "raw2" := [Tx("t2", "h2")]];
      var memo := map["main" := Entry(Some("B1"), Some("raw1"), Some([Tx("t1", "h1")]))];
      var unused := Err(Failure(500, "NotAsked"));
      var o := Oracle(unused, unused, Ok(Some("raw2")), unused, None, None, codec);
      var r := Resolve(Request("B2", "", "t2", "main"), memo, o);
      && Coherent(memo, codec)
      && r.outcome == Resolved("h1")
      && r.memo["main"] == Entry(Some("B2"), Some("raw2"), Some([Tx("t1", "h1")]))
      && !Coherent(r.memo, codec)
  {
    var codec := map["raw1" := [Tx("t1", "h1")], "raw2" := [Tx("t2", "h2")]];
    var memo := map["main" := Entry(Some("B1"), Some("raw1"), Some([Tx("t1", "h1")]))];
    var unused := Err(Failure(500, "NotAsked"));
    var o := Oracle(unused, unused, Ok(Some("raw2")), unused, None, None, codec);
    var req := Request("B2", "", "t2", "main");
    NoCacheReusesList(req, memo, o);
    FirstTransactionWins([Tx("t1", "h1")]);
    var m := Resolve(req, memo, o).memo;
    assert m["main"].transactions.value[0] != codec["raw2"][0];
  }

  /** The memo's shape is kept by every request. */
  lemma PreservesWellFormed(req: Request, memo: Memo, o: Oracle)
    requires WellFormed(memo)
    ensures WellFormed(Resolve(req, memo, o).memo)
  {
    MemoSteps(req, memo, o);
    CachedBlockKeeps(req, memo, o, o.codec);
    InBlockKeeps(req, MidCached(req, memo, o), MidFresh(req, memo, o), MidMemo(req, memo, o), o.codec);
  }

  /** With a cache, every stored list stays the parse of the hex beside it. */
  lemma PreservesCoherence(req: Request, memo: Memo, o: Oracle)
    requires req.cache != "" && Coherent(memo, o.codec)
    ensures Coherent(Resolve(req, memo, o).memo, o.codec)
  {
    MemoSteps(req, memo, o);
    CachedBlockKeeps(req, memo, o, o.codec);
    var net := req.network;
    var mid := MidMemo(req, memo, o);
    if Valid(req) && req.block != "" && net in mid && mid[net].transactions.Some? {
      assert Holds(memo, net, req.block);
      assert MidCached(req, memo, o) == mid[net].block;
      assert MidFresh(req, memo, o) == None;
    }
    InBlockKeeps(req, MidCached(req, memo, o), MidFresh(req, memo, o), mid, o.codec);
  }
}
