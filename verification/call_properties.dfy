/** What the resolver asks of its collaborators, and what it answers, for
    each shape of request. */
module CallProperties {
  import opened Types
  import opened LastBlock
  import opened Steps
  import opened Resolver
  import opened DecisionTable
  import opened Paths

  /** The calls issued are exactly those of the decision table, in its order:
      cache reads, then chain fetches, then cache writes. */
  lemma CallsFollowTable(req: Request, memo: Memo, o: Oracle)
    ensures Resolve(req, memo, o).calls == Calls(req, memo, o)
  {
    if !Valid(req) {
    } else if req.block == "" {
      DirectCallsFollowTable(req, memo, o);
    } else if req.cache == "" {
      UncachedBlockCallsFollowTable(req, memo, o);
    } else {
      CachedBlockCallsFollowTable(req, memo, o);
    }
  }

  lemma DirectCallsFollowTable(req: Request, memo: Memo, o: Oracle)
    requires Valid(req) && req.block == ""
    ensures Resolve(req, memo, o).calls == Calls(req, memo, o)
  {
    var read := CacheGet(req.cache, req.id, TypeTx);
    var fetch := FetchTx(req.id, req.network);
    if req.cache == "" {
      UncachedDirectPath(req, memo, o);
      assert Calls(req, memo, o) == [] + [] + [] + [fetch] + [] + [];
    } else if o.cachedTx.Err? {
      CachedTxFailsPath(req, memo, o);
      assert Calls(req, memo, o) == [read] + [] + [] + [] + [] + [];
    } else if Truthy(o.cachedTx.value) {
      CachedTxHitPath(req, memo, o);
      assert Calls(req, memo, o) == [read] + [] + [] + [] + [] + [];
    } else if o.freshTx.Err? {
      FetchTxFailsPath(req, memo, o);
      assert Calls(req, memo, o) == [read] + [] + [] + [fetch] + [] + [];
    } else {
      FetchedTxPath(req, memo, o);
      var setTx := SetCachedTx(req, o.cachedTx.value, o.freshTx.value, o);
      assert Calls(req, memo, o) == [read] + [] + [] + [fetch] + [] + setTx.issued;
    }
  }

  lemma UncachedBlockCallsFollowTable(req: Request, memo: Memo, o: Oracle)
    requires Valid(req) && req.block != "" && req.cache == ""
    ensures Resolve(req, memo, o).calls == Calls(req, memo, o)
  {
    UncachedBlockPath(req, memo, o);
    var fetch := FetchBlock(req.network, req.block);
    assert Calls(req, memo, o) == [] + [] + [fetch] + [] + [] + [];
  }

  lemma CachedBlockCallsFollowTable(req: Request, memo: Memo, o: Oracle)
    requires Valid(req) && req.block != "" && req.cache != ""
    ensures Resolve(req, memo, o).calls == Calls(req, memo, o)
  {
    if Holds(memo, req.network, req.block) {
      MemoHitCallsFollowTable(req, memo, o);
    } else if o.cachedBlock.Err? || Truthy(o.cachedBlock.value) {
      CachedBlockReadCallsFollowTable(req, memo, o);
    } else {
      FetchedBlockCallsFollowTable(req, memo, o);
    }
  }

  lemma MemoHitCallsFollowTable(req: Request, memo: Memo, o: Oracle)
    requires Valid(req) && req.block != "" && req.cache != ""
    requires Holds(memo, req.network, req.block)
    ensures Resolve(req, memo, o).calls == Calls(req, memo, o)
  {
    MemoHitPath(req, memo, o);
    var none: seq<Call> := [];
    assert Calls(req, memo, o) == none + [] + [] + [] + [] + [];
  }

  lemma CachedBlockReadCallsFollowTable(req: Request, memo: Memo, o: Oracle)
    requires Valid(req) && req.block != "" && req.cache != ""
    requires !Holds(memo, req.network, req.block)
    requires o.cachedBlock.Err? || Truthy(o.cachedBlock.value)
    ensures Resolve(req, memo, o).calls == Calls(req, memo, o)
  {
    var read := CacheGet(req.cache, req.block, TypeBlock);
    assert Calls(req, memo, o) == [] + [read] + [] + [] + [] + [];
    if o.cachedBlock.Err? {
      CachedBlockFailsPath(req, memo, o);
    } else {
      CachedBlockHitPath(req, memo, o);
    }
  }

  lemma FetchedBlockCallsFollowTable(req: Request, memo: Memo, o: Oracle)
    requires Valid(req) && req.block != "" && req.cache != ""
    requires !Holds(memo, req.network, req.block)
    requires o.cachedBlock.Ok? && !Truthy(o.cachedBlock.value)
    ensures Resolve(req, memo, o).calls == Calls(req, memo, o)
  {
    var read := CacheGet(req.cache, req.block, TypeBlock);
    var fetch := FetchBlock(req.network, req.block);
    assert [] + [read] == [read];
    assert [read] + [fetch] == [read, fetch];
    assert [read, fetch] + [] == [read, fetch];
    if o.freshBlock.Err? {
      FetchedBlockFailsPath(req, memo, o);
      assert Calls(req, memo, o) == [] + [read] + [fetch] + [] + [] + [];
    } else if !Truthy(o.freshBlock.value) {
      FetchedNoBlockPath(req, memo, o);
      assert Calls(req, memo, o) == [] + [read] + [fetch] + [] + [] + [];
    } else {
      FetchedBlockPath(req, memo, o);
      var write := CacheSet(req.cache, req.block, CacheResultMs, TypeBlock, o.freshBlock.value.value);
      assert [read, fetch] + [write] == [read, fetch, write] + [] == [read, fetch, write];
      assert Calls(req, memo, o) == [] + [read] + [fetch] + [] + [write] + [];
    }
  }

  /** A valid block-scoped request: the calls are the table's, an error of
      getCachedBlock or getFreshBlock ends it with the memo as getCachedBlock
      left it, and otherwise txInBlock runs on the blocks those steps handed on
      and the result step follows. */
  lemma BlockResolve(req: Request, memo: Memo, o: Oracle)
    requires Valid(req) && req.block != ""
    ensures Resolve(req, memo, o) ==
      match BlockFailure(req, memo, o)
      case Some(e) => Reply(Propagated(e), Calls(req, memo, o), MidMemo(req, memo, o))
      case None =>
        BlockFinish(TxInBlock(req, MidCached(req, memo, o), MidFresh(req, memo, o), MidMemo(req, memo, o), o.codec),
                    SetCachedBlock(req, MidCached(req, memo, o), MidFresh(req, memo, o), o),
                    Calls(req, memo, o))
    ensures var ib := TxInBlock(req, MidCached(req, memo, o), MidFresh(req, memo, o), MidMemo(req, memo, o), o.codec);
      var r := Resolve(req, memo, o);
      BlockFailure(req, memo, o).None? ==>
        && r.memo == ib.memo
        && (r.outcome.Failed? <==> ib.search.SearchFailed?)
        && (r.outcome.Failed? ==> r.outcome.failure == ib.search.failure)
        && (ib.search.NoBlock? ==> r.outcome == Crashed)
  {
    BlockFinishFailsOnlyInSearch(TxInBlock(req, MidCached(req, memo, o), MidFresh(req, memo, o), MidMemo(req, memo, o), o.codec),
                                 SetCachedBlock(req, MidCached(req, memo, o), MidFresh(req, memo, o), o),
                                 Calls(req, memo, o));
    CallsFollowTable(req, memo, o);
    BlockFinishParts(TxInBlock(req, MidCached(req, memo, o), MidFresh(req, memo, o), MidMemo(req, memo, o), o.codec),
                     SetCachedBlock(req, MidCached(req, memo, o), MidFresh(req, memo, o), o),
                     Calls(req, memo, o));
    if req.cache == "" {
      UncachedBlockResolve(req, memo, o);
    } else if Holds(memo, req.network, req.block) {
      MemoHitResolve(req, memo, o);
    } else if o.cachedBlock.Err? || Truthy(o.cachedBlock.value) {
      CachedBlockResolve(req, memo, o);
    } else {
      FetchedBlockResolve(req, memo, o);
    }
  }

  lemma UncachedBlockResolve(req: Request, memo: Memo, o: Oracle)
    requires Valid(req) && req.block != "" && req.cache == ""
    ensures Resolve(req, memo, o).outcome ==
      match BlockFailure(req, memo, o)
      case Some(e) => Propagated(e)
      case None =>
        BlockFinish(TxInBlock(req, MidCached(req, memo, o), MidFresh(req, memo, o), MidMemo(req, memo, o), o.codec),
                    SetCachedBlock(req, MidCached(req, memo, o), MidFresh(req, memo, o), o), []).outcome
    ensures Resolve(req, memo, o).memo ==
      match BlockFailure(req, memo, o)
      case Some(e) => MidMemo(req, memo, o)
      case None => TxInBlock(req, MidCached(req, memo, o), MidFresh(req, memo, o), MidMemo(req, memo, o), o.codec).memo
  {
    UncachedBlockPath(req, memo, o);
    assert GetCachedBlock(req, None, memo, o) == BlockLookup([], Ok(None), memo);
    assert MidFresh(req, memo, o) == (if o.freshBlock.Ok? then o.freshBlock.value else None);
  }

  lemma MemoHitResolve(req: Request, memo: Memo, o: Oracle)
    requires Valid(req) && req.block != "" && req.cache != ""
    requires Holds(memo, req.network, req.block)
    ensures BlockFailure(req, memo, o).None?
    ensures Resolve(req, memo, o).outcome ==
      BlockFinish(TxInBlock(req, MidCached(req, memo, o), MidFresh(req, memo, o), MidMemo(req, memo, o), o.codec),
                  SetCachedBlock(req, MidCached(req, memo, o), MidFresh(req, memo, o), o), []).outcome
    ensures Resolve(req, memo, o).memo ==
      TxInBlock(req, MidCached(req, memo, o), MidFresh(req, memo, o), MidMemo(req, memo, o), o.codec).memo
  {
    MemoHitPath(req, memo, o);
    var b := memo[req.network].block;
    assert Touch(memo, req.network) == memo;
    assert GetCachedBlock(req, None, memo, o) == BlockLookup([], Ok(b), memo);
    assert GetFreshBlock(req, b, o) == Skipped;
  }

  lemma CachedBlockResolve(req: Request, memo: Memo, o: Oracle)
    requires Valid(req) && req.block != "" && req.cache != ""
    requires !Holds(memo, req.network, req.block)
    requires o.cachedBlock.Err? || Truthy(o.cachedBlock.value)
    ensures Resolve(req, memo, o).outcome ==
      match BlockFailure(req, memo, o)
      case Some(e) => Propagated(e)
      case None =>
        BlockFinish(TxInBlock(req, MidCached(req, memo, o), MidFresh(req, memo, o), MidMemo(req, memo, o), o.codec),
                    SetCachedBlock(req, MidCached(req, memo, o), MidFresh(req, memo, o), o), []).outcome
    ensures Resolve(req, memo, o).memo ==
      match BlockFailure(req, memo, o)
      case Some(e) => MidMemo(req, memo, o)
      case None => TxInBlock(req, MidCached(req, memo, o), MidFresh(req, memo, o), MidMemo(req, memo, o), o.codec).memo
  {
    var wiped := memo[req.network := Blank];
    var read := CacheGet(req.cache, req.block, TypeBlock);
    assert Wipe(Touch(memo, req.network), req.network) == wiped;
    assert GetCachedBlock(req, None, memo, o) == BlockLookup([read], o.cachedBlock, wiped);
    if o.cachedBlock.Err? {
      CachedBlockFailsPath(req, memo, o);
    } else {
      CachedBlockHitPath(req, memo, o);
      assert GetFreshBlock(req, o.cachedBlock.value, o) == Skipped;
    }
  }

  lemma FetchedBlockResolve(req: Request, memo: Memo, o: Oracle)
    requires Valid(req) && req.block != "" && req.cache != ""
    requires !Holds(memo, req.network, req.block)
    requires o.cachedBlock.Ok? && !Truthy(o.cachedBlock.value)
    ensures Resolve(req, memo, o).outcome ==
      match BlockFailure(req, memo, o)
      case Some(e) => Propagated(e)
      case None =>
        BlockFinish(TxInBlock(req, MidCached(req, memo, o), MidFresh(req, memo, o), MidMemo(req, memo, o), o.codec),
                    SetCachedBlock(req, MidCached(req, memo, o), MidFresh(req, memo, o), o), []).outcome
    ensures Resolve(req, memo, o).memo ==
      match BlockFailure(req, memo, o)
      case Some(e) => MidMemo(req, memo, o)
      case None => TxInBlock(req, MidCached(req, memo, o), MidFresh(req, memo, o), MidMemo(req, memo, o), o.codec).memo
  {
    var c := o.cachedBlock.value;
    var wiped := memo[req.network := Blank];
    var read := CacheGet(req.cache, req.block, TypeBlock);
    var fetch := FetchBlock(req.network, req.block);
    assert Wipe(Touch(memo, req.network), req.network) == wiped;
    assert GetCachedBlock(req, None, memo, o) == BlockLookup([read], o.cachedBlock, wiped);
    assert GetFreshBlock(req, c, o) == Lookup([fetch], o.freshBlock);
    if o.freshBlock.Err? {
      FetchedBlockFailsPath(req, memo, o);
    } else if !Truthy(o.freshBlock.value) {
      FetchedNoBlockPath(req, memo, o);
      assert TxInBlock(req, c, o.freshBlock.value, wiped, o.codec) == InBlock(NoBlock, wiped);
    } else {
      FetchedBlockPath(req, memo, o);
    }
  }

  /** A valid direct request: the calls are the table's, the memo is left
      alone, an error of getCachedTx or getFreshTx ends it, and otherwise the
      result step runs on the transactions those steps handed on. */
  lemma DirectResolve(req: Request, memo: Memo, o: Oracle)
    requires Valid(req) && req.block == ""
    ensures Resolve(req, memo, o) ==
      match DirectFailure(req, o)
      case Some(e) => Reply(Propagated(e), Calls(req, memo, o), memo)
      case None =>
        Finish(Compose(MidTx(req, o), MidFreshTx(req, o), ""), Unwritten,
               SetCachedTx(req, MidTx(req, o), MidFreshTx(req, o), o), Calls(req, memo, o), memo)
  {
    DirectCallsFollowTable(req, memo, o);
    var read := CacheGet(req.cache, req.id, TypeTx);
    var fetch := FetchTx(req.id, req.network);
    if req.cache == "" {
      UncachedDirectPath(req, memo, o);
      assert GetFreshTx(req, None, o) == Lookup([fetch], o.freshTx);
    } else if o.cachedTx.Err? {
      CachedTxFailsPath(req, memo, o);
    } else if Truthy(o.cachedTx.value) {
      CachedTxHitPath(req, memo, o);
      assert GetFreshTx(req, o.cachedTx.value, o) == Skipped;
    } else if o.freshTx.Err? {
      FetchTxFailsPath(req, memo, o);
      assert GetFreshTx(req, o.cachedTx.value, o) == Lookup([fetch], o.freshTx);
    } else {
      FetchedTxPath(req, memo, o);
      assert GetFreshTx(req, o.cachedTx.value, o) == Lookup([fetch], o.freshTx);
    }
  }

  /** The reply of any request, by the three ways through validation. */
  lemma Resolves(req: Request, memo: Memo, o: Oracle)
    ensures !Valid(req) ==> Resolve(req, memo, o) == Reply(Failed(Validate(req).value), [], memo)
    ensures Valid(req) && req.block == "" ==>
      Resolve(req, memo, o) ==
        match DirectFailure(req, o)
        case Some(e) => Reply(Propagated(e), Calls(req, memo, o), memo)
        case None =>
          Finish(Compose(MidTx(req, o), MidFreshTx(req, o), ""), Unwritten,
                 SetCachedTx(req, MidTx(req, o), MidFreshTx(req, o), o), Calls(req, memo, o), memo)
    ensures Valid(req) && req.block != "" ==>
      Resolve(req, memo, o) ==
        match BlockFailure(req, memo, o)
        case Some(e) => Reply(Propagated(e), Calls(req, memo, o), MidMemo(req, memo, o))
        case None =>
          BlockFinish(TxInBlock(req, MidCached(req, memo, o), MidFresh(req, memo, o), MidMemo(req, memo, o), o.codec),
                      SetCachedBlock(req, MidCached(req, memo, o), MidFresh(req, memo, o), o),
                      Calls(req, memo, o))
    ensures var ib := TxInBlock(req, MidCached(req, memo, o), MidFresh(req, memo, o), MidMemo(req, memo, o), o.codec);
      var r := Resolve(req, memo, o);
      Valid(req) && req.block != "" && BlockFailure(req, memo, o).None? ==>
        && r.memo == ib.memo
        && (r.outcome.Failed? <==> ib.search.SearchFailed?)
        && (r.outcome.Failed? ==> r.outcome.failure == ib.search.failure)
        && (ib.search.NoBlock? ==> r.outcome == Crashed)
  {
    if !Valid(req) {
      InvalidPath(req, memo, o);
    } else if req.block == "" {
      DirectResolve(req, memo, o);
    } else {
      BlockResolve(req, memo, o);
    }
  }

  /** A missing id, then a missing network, is rejected before any call and
      without touching the memo; a request with both never gets either error. */
  lemma ValidationComesFirst(req: Request, memo: Memo, o: Oracle)
    ensures req.id == "" ==> Resolve(req, memo, o) == Reply(Failed(MissingId), [], memo)
    ensures req.id != "" && req.network == "" ==>
      Resolve(req, memo, o) == Reply(Failed(MissingNetwork), [], memo)
    ensures Valid(req) ==>
      Resolve(req, memo, o).outcome != Failed(MissingId) && Resolve(req, memo, o).outcome != Failed(MissingNetwork)
  {
    if !Valid(req) {
      InvalidPath(req, memo, o);
    } else {
      OwnErrorsAfterValidation(req, memo, o);
      assert NotInBlock.tag[0] != MissingId.tag[0] && NotInBlock.tag[0] != MissingNetwork.tag[0];
    }
  }

  /** Once the request is valid, the resolver's own errors can only come
      from txInBlock. */
  lemma OwnErrorsAfterValidation(req: Request, memo: Memo, o: Oracle)
    requires Valid(req)
    ensures var r := Resolve(req, memo, o);
      r.outcome.Failed? ==> r.outcome.failure == DeriveFailed || r.outcome.failure == NotInBlock
  {
    if req.block == "" {
      DirectResolve(req, memo, o);
    } else {
      BlockResolve(req, memo, o);
      InBlockFailures(req, MidCached(req, memo, o), MidFresh(req, memo, o), MidMemo(req, memo, o), o.codec);
    }
  }

  /** A direct lookup whose cached transaction is truthy answers with it after
      the one cache read: no chain fetch and no cache write. */
  lemma DirectCacheHit(req: Request, memo: Memo, o: Oracle)
    requires Valid(req) && req.block == "" && req.cache != ""
    requires o.cachedTx.Ok? && Truthy(o.cachedTx.value)
    ensures Resolve(req, memo, o) ==
      Reply(Resolved(o.cachedTx.value.value), [CacheGet(req.cache, req.id, TypeTx)], memo)
  {
    CachedTxHitPath(req, memo, o);
  }

  /** A direct lookup with a cache and nothing cached: read, fetch, write back
      under the id for ten minutes, and answer with the fetched transaction. */
  lemma DirectLookupScenario(req: Request, memo: Memo, o: Oracle, t: string)
    requires Valid(req) && req.block == "" && req.cache != ""
    requires o.cachedTx == Ok(None) && o.freshTx == Ok(Some(t)) && t != "" && o.setTx.None?
    ensures Resolve(req, memo, o) ==
      Reply(Resolved(t),
            [CacheGet(req.cache, req.id, TypeTx), FetchTx(req.id, req.network),
             CacheSet(req.cache, req.id, 600000, TypeTx, t)],
            memo)
  {
    FetchedTxPath(req, memo, o);
    var write := CacheSet(req.cache, req.id, CacheResultMs, TypeTx, t);
    assert SetCachedTx(req, None, Some(t), o) == Write([write], None);
    assert [CacheGet(req.cache, req.id, TypeTx), FetchTx(req.id, req.network)] + [write] ==
      [CacheGet(req.cache, req.id, TypeTx), FetchTx(req.id, req.network), write];
  }

  /** In the table, a transaction-cache write is listed exactly when WritesTx
      holds, and then with the fetched transaction. */
  lemma TableTxWrites(req: Request, memo: Memo, o: Oracle)
    ensures (exists c :: c in Calls(req, memo, o) && c.CacheSet? && c.kind == TypeTx) <==> WritesTx(req, o)
    ensures WritesTx(req, o) ==>
      CacheSet(req.cache, req.id, CacheResultMs, TypeTx, o.freshTx.value.value) in Calls(req, memo, o)
  {
    assert TypeTx != TypeBlock by { assert TypeTx[16] != TypeBlock[16]; }
  }

  /** In the table, a block-cache write is listed exactly when WritesBlock
      holds, and then with the fetched block. */
  lemma TableBlockWrites(req: Request, memo: Memo, o: Oracle)
    ensures (exists c :: c in Calls(req, memo, o) && c.CacheSet? && c.kind == TypeBlock) <==> WritesBlock(req, memo, o)
    ensures WritesBlock(req, memo, o) ==>
      CacheSet(req.cache, req.block, CacheResultMs, TypeBlock, o.freshBlock.value.value) in Calls(req, memo, o)
  {
    assert TypeTx != TypeBlock by { assert TypeTx[16] != TypeBlock[16]; }
  }

  /** The transaction cache is written exactly when a direct lookup with a
      cache found nothing cached and the fetch produced a transaction; the
      write is keyed by the id and lives 600000 ms. */
  lemma TxCacheWriteExactly(req: Request, memo: Memo, o: Oracle)
    ensures (exists c :: c in Resolve(req, memo, o).calls && c.CacheSet? && c.kind == TypeTx) <==>
      (&& Valid(req) && req.block == "" && req.cache != ""
       && o.cachedTx.Ok? && !Truthy(o.cachedTx.value)
       && o.freshTx.Ok? && Truthy(o.freshTx.value))
    ensures WritesTx(req, o) ==>
      CacheSet(req.cache, req.id, 600000, TypeTx, o.freshTx.value.value) in Resolve(req, memo, o).calls
  {
    CallsFollowTable(req, memo, o);
    TableTxWrites(req, memo, o);
  }

  /** The block cache is written exactly when a block-scoped lookup with a
      cache missed the memo, found no block in the cache, and fetched one; the
      write is keyed by the block hash and lives 600000 ms. */
  lemma BlockCacheWriteExactly(req: Request, memo: Memo, o: Oracle)
    ensures (exists c :: c in Resolve(req, memo, o).calls && c.CacheSet? && c.kind == TypeBlock) <==>
      (&& Valid(req) && req.block != "" && req.cache != ""
       && !Holds(memo, req.network, req.block)
       && o.cachedBlock.Ok? && !Truthy(o.cachedBlock.value)
       && o.freshBlock.Ok? && Truthy(o.freshBlock.value))
    ensures WritesBlock(req, memo, o) ==>
      CacheSet(req.cache, req.block, 600000, TypeBlock, o.freshBlock.value.value) in Resolve(req, memo, o).calls
  {
    CallsFollowTable(req, memo, o);
    TableBlockWrites(req, memo, o);
  }

  /** In the table, a block-scoped request lists no transaction-cache call
      and no fetch by id. */
  lemma TableBlockScoped(req: Request, memo: Memo, o: Oracle)
    requires req.block != ""
    ensures forall c :: c in Calls(req, memo, o) ==>
      !c.FetchTx? && !((c.CacheGet? || c.CacheSet?) && c.kind == TypeTx)
  {
    assert TypeTx != TypeBlock by { assert TypeTx[16] != TypeBlock[16]; }
  }

  /** A block-scoped lookup never reads or writes the transaction cache and
      never fetches the transaction by id. */
  lemma BlockScopedSkipsDirectSteps(req: Request, memo: Memo, o: Oracle)
    requires req.block != ""
    ensures forall c :: c in Resolve(req, memo, o).calls ==>
      !c.FetchTx? && !((c.CacheGet? || c.CacheSet?) && c.kind == TypeTx)
  {
    CallsFollowTable(req, memo, o);
    TableBlockScoped(req, memo, o);
  }

  /** Of the direct answers the fetched one wins: a direct lookup that fetched
      an object answers with its `transaction` field, unless the write back
      failed. */
  lemma DirectFetchAnswers(req: Request, memo: Memo, o: Oracle)
    requires FetchesTx(req, o) && o.freshTx.Ok? && o.freshTx.value.Some?
    requires !WritesTx(req, o) || o.setTx.None?
    ensures Resolve(req, memo, o).outcome == Resolved(o.freshTx.value.value)
  {
    DirectResolve(req, memo, o);
    assert GetFreshTx(req, MidTx(req, o), o).answer == o.freshTx;
  }

  /** A direct lookup whose fetch answered `undefined` crashes exactly when no
      cached object stands in for it. */
  lemma DirectLookupWithoutAnswer(req: Request, memo: Memo, o: Oracle)
    requires FetchesTx(req, o) && o.freshTx == Ok(None)
    ensures Resolve(req, memo, o).outcome == Crashed <==> req.cache == "" || o.cachedTx.value.None?
    ensures Resolve(req, memo, o).outcome != Crashed ==> Resolve(req, memo, o).outcome == Resolved(o.cachedTx.value.value)
  {
    DirectResolve(req, memo, o);
    assert GetFreshTx(req, MidTx(req, o), o).answer == o.freshTx;
    assert SetCachedTx(req, MidTx(req, o), None, o) == Unwritten;
  }

  /** A block-scoped lookup that finds no block anywhere leaves txInBlock
      empty, and the result step then crashes. */
  lemma BlockLookupWithoutBlock(req: Request, memo: Memo, o: Oracle)
    requires FetchesBlock(req, memo, o) && o.freshBlock.Ok? && !Truthy(o.freshBlock.value)
    ensures Resolve(req, memo, o).outcome == Crashed
  {
    if req.cache == "" {
      UncachedBlockPath(req, memo, o);
      assert TxInBlock(req, None, o.freshBlock.value, memo, o.codec).search == NoBlock;
    } else {
      FetchedNoBlockPath(req, memo, o);
    }
  }

  /** In a block-scoped lookup the direct steps are skipped, so the answers
      the transaction cache and the fetch by id would give, and the outcome
      of a transaction-cache write, make no difference to the reply. */
  lemma BlockReplyIgnoresDirectAnswers(req: Request, memo: Memo, o: Oracle, o': Oracle)
    requires Valid(req) && req.block != ""
    requires o' == o.(cachedTx := o'.cachedTx, freshTx := o'.freshTx, setTx := o'.setTx)
    ensures Resolve(req, memo, o) == Resolve(req, memo, o')
  {
    BlockResolve(req, memo, o);
    BlockResolve(req, memo, o');
    assert GetCachedBlock(req, None, memo, o') == GetCachedBlock(req, None, memo, o);
    assert MidCached(req, memo, o') == MidCached(req, memo, o);
    var c := MidCached(req, memo, o);
    assert GetFreshBlock(req, c, o') == GetFreshBlock(req, c, o);
    assert MidFresh(req, memo, o') == MidFresh(req, memo, o);
    assert BlockFailure(req, memo, o') == BlockFailure(req, memo, o);
    assert MidMemo(req, memo, o') == MidMemo(req, memo, o);
    var f := MidFresh(req, memo, o);
    assert SetCachedBlock(req, c, f, o') == SetCachedBlock(req, c, f, o);
    assert Calls(req, memo, o') == Calls(req, memo, o);
  }

  /** The result step in a block-scoped lookup: a truthy hex found in the
      block is the answer, unless the block write-back failed. */
  lemma InBlockHexAnswers(req: Request, memo: Memo, o: Oracle)
    requires Valid(req) && req.block != "" && BlockFailure(req, memo, o).None?
    ensures var c := MidCached(req, memo, o);
      var f := MidFresh(req, memo, o);
      var s := TxInBlock(req, c, f, MidMemo(req, memo, o), o.codec).search;
      s.Found? && s.hex != "" && SetCachedBlock(req, c, f, o).failure.None? ==>
        Resolve(req, memo, o).outcome == Resolved(s.hex)
  {
    BlockResolve(req, memo, o);
  }
}
