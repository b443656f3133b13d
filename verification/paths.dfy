/** The resolver's reply along each path a request can take through the
    pipeline, written with the skipped steps already removed. Every property
    of a single request is proved from these. The chains of equalities
    between stages inside the proofs (`AfterCachedTx(...) == AfterCachedBlock(...)`
    and so on) only unfold the pipeline one stage at a time for the solver;
    they state nothing beyond each lemma's ensures. */
module Paths {
  import opened Types
  import opened LastBlock
  import opened Steps
  import opened Resolver
  import opened DecisionTable

  /** The tail of a block-scoped lookup once txInBlock has run: the direct
      steps left nothing behind, so a missing hex makes the result step
      destructure `undefined`. */
  function BlockFinish(inBlock: InBlock, setBlock: Write, calls: seq<Call>): Reply {
    match inBlock.search
    case SearchFailed(e) => Reply(Failed(e), calls, inBlock.memo)
    case NoBlock => Reply(Crashed, calls, inBlock.memo)
    case Found(hex) => Finish(Compose(None, None, hex), setBlock, Unwritten, calls, inBlock.memo)
  }

  lemma BlockFinishConcludes(inBlock: InBlock, setBlock: Write, calls: seq<Call>)
    ensures BlockFinish(inBlock, setBlock, calls) == Conclude(None, None, setBlock, Unwritten, calls, inBlock)
  {
  }

  /** The tail's outcome does not depend on the calls it is handed. */
  lemma BlockFinishParts(inBlock: InBlock, setBlock: Write, calls: seq<Call>)
    ensures BlockFinish(inBlock, setBlock, calls) ==
      Reply(BlockFinish(inBlock, setBlock, []).outcome, calls, inBlock.memo)
  {
  }

  /** The tail keeps the calls and txInBlock's memo, and a failure in it can
      only be txInBlock's own. */
  lemma BlockFinishFailsOnlyInSearch(inBlock: InBlock, setBlock: Write, calls: seq<Call>)
    ensures var r := BlockFinish(inBlock, setBlock, calls);
      && r.calls == calls && r.memo == inBlock.memo
      && (r.outcome.Failed? <==> inBlock.search.SearchFailed?)
      && (r.outcome.Failed? ==> r.outcome.failure == inBlock.search.failure)
      && (inBlock.search.NoBlock? ==> r.outcome == Crashed)
  {
  }

  /** The block answer getCachedBlock hands on (undefined when it failed). */
  function MidCached(req: Request, memo: Memo, o: Oracle): Option<string> {
    var a := GetCachedBlock(req, None, memo, o).answer;
    if a.Ok? then a.value else None
  }

  /** The memo as getCachedBlock leaves it. */
  function MidMemo(req: Request, memo: Memo, o: Oracle): Memo {
    GetCachedBlock(req, None, memo, o).memo
  }

  /** The block answer getFreshBlock hands on (undefined when it failed). */
  function MidFresh(req: Request, memo: Memo, o: Oracle): Option<string> {
    var a := GetFreshBlock(req, MidCached(req, memo, o), o).answer;
    if a.Ok? then a.value else None
  }

  /** The error a block-scoped lookup's getCachedBlock or getFreshBlock reports. */
  function BlockFailure(req: Request, memo: Memo, o: Oracle): Option<Failure> {
    var c := GetCachedBlock(req, None, memo, o).answer;
    if c.Err? then Some(c.error)
    else
      var f := GetFreshBlock(req, c.value, o).answer;
      if f.Err? then Some(f.error) else None
  }

  /** The transaction answer getCachedTx hands on (undefined when it failed). */
  function MidTx(req: Request, o: Oracle): Option<string> {
    var a := GetCachedTx(req, o).answer;
    if a.Ok? then a.value else None
  }

  /** The transaction answer getFreshTx hands on (undefined when it failed). */
  function MidFreshTx(req: Request, o: Oracle): Option<string> {
    var a := GetFreshTx(req, MidTx(req, o), o).answer;
    if a.Ok? then a.value else None
  }

  /** The error a direct lookup's getCachedTx or getFreshTx reports. */
  function DirectFailure(req: Request, o: Oracle): Option<Failure> {
    var c := GetCachedTx(req, o).answer;
    if c.Err? then Some(c.error)
    else
      var f := GetFreshTx(req, c.value, o).answer;
      if f.Err? then Some(f.error) else None
  }

  /** txInBlock fails only with one of its two own errors. */
  lemma InBlockFailures(req: Request, cachedBlock: Option<string>, freshBlock: Option<string>,
                        memo: Memo, codec: map<string, seq<Tx>>)
    ensures var s := TxInBlock(req, cachedBlock, freshBlock, memo, codec).search;
      s.SearchFailed? ==> s.failure == DeriveFailed || s.failure == NotInBlock
  {
  }

  lemma InvalidPath(req: Request, memo: Memo, o: Oracle)
    requires !Valid(req)
    ensures Resolve(req, memo, o) == Reply(Failed(Validate(req).value), [], memo)
  {
  }

  lemma UncachedDirectPath(req: Request, memo: Memo, o: Oracle)
    requires Valid(req) && req.block == "" && req.cache == ""
    ensures var fetch := FetchTx(req.id, req.network);
      Resolve(req, memo, o) ==
      if o.freshTx.Err? then Reply(Propagated(o.freshTx.error), [fetch], memo)
      else Reply(Compose(None, o.freshTx.value, ""), [fetch], memo)
  {
    var fetch := FetchTx(req.id, req.network);
    assert [] + [] + [] + [fetch] == [fetch] + [] + [] == [fetch];
    assert Resolve(req, memo, o) == AfterCachedTx(req, memo, o, Skipped);
    assert AfterCachedTx(req, memo, o, Skipped) ==
      AfterCachedBlock(req, o, None, [], BlockLookup([], Ok(None), memo));
    assert AfterCachedBlock(req, o, None, [], BlockLookup([], Ok(None), memo)) ==
      AfterFreshBlock(req, o, None, None, memo, [], Skipped);
    assert AfterFreshBlock(req, o, None, None, memo, [], Skipped) ==
      AfterFreshTx(req, o, None, None, None, memo, [], Lookup([fetch], o.freshTx));
    if o.freshTx.Ok? {
      assert SetCachedBlock(req, None, None, o) == Unwritten;
      assert SetCachedTx(req, None, o.freshTx.value, o) == Unwritten;
      assert TxInBlock(req, None, None, memo, o.codec) == InBlock(NoBlock, memo);
    }
  }

  lemma CachedTxFailsPath(req: Request, memo: Memo, o: Oracle)
    requires Valid(req) && req.block == "" && req.cache != "" && o.cachedTx.Err?
    ensures Resolve(req, memo, o) ==
      Reply(Propagated(o.cachedTx.error), [CacheGet(req.cache, req.id, TypeTx)], memo)
  {
    var read := CacheGet(req.cache, req.id, TypeTx);
    assert Resolve(req, memo, o) == AfterCachedTx(req, memo, o, Lookup([read], o.cachedTx));
  }

  lemma CachedTxHitPath(req: Request, memo: Memo, o: Oracle)
    requires Valid(req) && req.block == "" && req.cache != ""
    requires o.cachedTx.Ok? && Truthy(o.cachedTx.value)
    ensures Resolve(req, memo, o) ==
      Reply(Resolved(o.cachedTx.value.value), [CacheGet(req.cache, req.id, TypeTx)], memo)
  {
    var c := o.cachedTx.value;
    var read := CacheGet(req.cache, req.id, TypeTx);
    assert [read] + [] + [] + [] + [] + [] == [read];
    assert Resolve(req, memo, o) == AfterCachedTx(req, memo, o, Lookup([read], o.cachedTx));
    assert AfterCachedTx(req, memo, o, Lookup([read], o.cachedTx)) ==
      AfterCachedBlock(req, o, c, [read], BlockLookup([], Ok(None), memo));
    assert AfterCachedBlock(req, o, c, [read], BlockLookup([], Ok(None), memo)) ==
      AfterFreshBlock(req, o, c, None, memo, [read], Skipped);
    assert AfterFreshBlock(req, o, c, None, memo, [read], Skipped) ==
      AfterFreshTx(req, o, c, None, None, memo, [read], Skipped);
    assert SetCachedBlock(req, None, None, o) == Unwritten;
    assert SetCachedTx(req, c, None, o) == Unwritten;
    assert TxInBlock(req, None, None, memo, o.codec) == InBlock(NoBlock, memo);
  }

  lemma FetchTxFailsPath(req: Request, memo: Memo, o: Oracle)
    requires Valid(req) && req.block == "" && req.cache != ""
    requires o.cachedTx.Ok? && !Truthy(o.cachedTx.value) && o.freshTx.Err?
    ensures Resolve(req, memo, o) ==
      Reply(Propagated(o.freshTx.error), [CacheGet(req.cache, req.id, TypeTx), FetchTx(req.id, req.network)], memo)
  {
    var c := o.cachedTx.value;
    var read := CacheGet(req.cache, req.id, TypeTx);
    var fetch := FetchTx(req.id, req.network);
    assert [read] + [] == [read];
    assert [read] + [fetch] == [read, fetch];
    assert Resolve(req, memo, o) == AfterCachedTx(req, memo, o, Lookup([read], o.cachedTx));
    assert AfterCachedTx(req, memo, o, Lookup([read], o.cachedTx)) ==
      AfterCachedBlock(req, o, c, [read], BlockLookup([], Ok(None), memo));
    assert AfterCachedBlock(req, o, c, [read], BlockLookup([], Ok(None), memo)) ==
      AfterFreshBlock(req, o, c, None, memo, [read], Skipped);
    assert AfterFreshBlock(req, o, c, None, memo, [read], Skipped) ==
      AfterFreshTx(req, o, c, None, None, memo, [read], Lookup([fetch], o.freshTx));
  }

  lemma FetchedTxPath(req: Request, memo: Memo, o: Oracle)
    requires Valid(req) && req.block == "" && req.cache != ""
    requires o.cachedTx.Ok? && !Truthy(o.cachedTx.value) && o.freshTx.Ok?
    ensures var setTx := SetCachedTx(req, o.cachedTx.value, o.freshTx.value, o);
      Resolve(req, memo, o) ==
      Finish(Compose(o.cachedTx.value, o.freshTx.value, ""), Unwritten, setTx,
             [CacheGet(req.cache, req.id, TypeTx), FetchTx(req.id, req.network)] + setTx.issued, memo)
  {
    var c := o.cachedTx.value;
    var read := CacheGet(req.cache, req.id, TypeTx);
    var fetch := FetchTx(req.id, req.network);
    var setTx := SetCachedTx(req, c, o.freshTx.value, o);
    assert [read] + [] == [read];
    assert [read] + [fetch] == [read, fetch];
    assert [read, fetch] + [] + setTx.issued == [read, fetch] + setTx.issued;
    assert Resolve(req, memo, o) == AfterCachedTx(req, memo, o, Lookup([read], o.cachedTx));
    assert AfterCachedTx(req, memo, o, Lookup([read], o.cachedTx)) ==
      AfterCachedBlock(req, o, c, [read], BlockLookup([], Ok(None), memo));
    assert AfterCachedBlock(req, o, c, [read], BlockLookup([], Ok(None), memo)) ==
      AfterFreshBlock(req, o, c, None, memo, [read], Skipped);
    assert AfterFreshBlock(req, o, c, None, memo, [read], Skipped) ==
      AfterFreshTx(req, o, c, None, None, memo, [read], Lookup([fetch], o.freshTx));
    assert SetCachedBlock(req, None, None, o) == Unwritten;
    assert TxInBlock(req, None, None, memo, o.codec) == InBlock(NoBlock, memo);
  }

  lemma UncachedBlockPath(req: Request, memo: Memo, o: Oracle)
    requires Valid(req) && req.block != "" && req.cache == ""
    ensures var fetch := FetchBlock(req.network, req.block);
      Resolve(req, memo, o) ==
      if o.freshBlock.Err? then Reply(Propagated(o.freshBlock.error), [fetch], memo)
      else BlockFinish(TxInBlock(req, None, o.freshBlock.value, memo, o.codec), Unwritten, [fetch])
  {
    var fetch := FetchBlock(req.network, req.block);
    assert [] + [] + [fetch] == [fetch] + [] + [] + [] == [fetch];
    assert Resolve(req, memo, o) == AfterCachedTx(req, memo, o, Skipped);
    assert AfterCachedTx(req, memo, o, Skipped) ==
      AfterCachedBlock(req, o, None, [], BlockLookup([], Ok(None), memo));
    assert AfterCachedBlock(req, o, None, [], BlockLookup([], Ok(None), memo)) ==
      AfterFreshBlock(req, o, None, None, memo, [], Lookup([fetch], o.freshBlock));
    if o.freshBlock.Ok? {
      var f := o.freshBlock.value;
      assert AfterFreshBlock(req, o, None, None, memo, [], Lookup([fetch], o.freshBlock)) ==
        AfterFreshTx(req, o, None, None, f, memo, [fetch], Skipped);
      assert SetCachedBlock(req, None, f, o) == Unwritten;
      assert SetCachedTx(req, None, None, o) == Unwritten;
      BlockFinishConcludes(TxInBlock(req, None, f, memo, o.codec), Unwritten, [fetch]);
    }
  }

  lemma MemoHitPath(req: Request, memo: Memo, o: Oracle)
    requires Valid(req) && req.block != "" && req.cache != ""
    requires Holds(memo, req.network, req.block)
    ensures Resolve(req, memo, o) ==
      BlockFinish(TxInBlock(req, memo[req.network].block, None, memo, o.codec), Unwritten, [])
  {
    var b := memo[req.network].block;
    var none: seq<Call> := [];
    assert none + [] + [] + [] + [] + [] == [];
    assert Touch(memo, req.network) == memo;
    assert Resolve(req, memo, o) == AfterCachedTx(req, memo, o, Skipped);
    assert AfterCachedTx(req, memo, o, Skipped) ==
      AfterCachedBlock(req, o, None, [], BlockLookup([], Ok(b), memo));
    assert AfterCachedBlock(req, o, None, [], BlockLookup([], Ok(b), memo)) ==
      AfterFreshBlock(req, o, None, b, memo, [], Skipped);
    assert AfterFreshBlock(req, o, None, b, memo, [], Skipped) ==
      AfterFreshTx(req, o, None, b, None, memo, [], Skipped);
    assert SetCachedBlock(req, b, None, o) == Unwritten;
    assert SetCachedTx(req, None, None, o) == Unwritten;
    BlockFinishConcludes(TxInBlock(req, b, None, memo, o.codec), Unwritten, []);
  }

  lemma CachedBlockFailsPath(req: Request, memo: Memo, o: Oracle)
    requires Valid(req) && req.block != "" && req.cache != ""
    requires !Holds(memo, req.network, req.block) && o.cachedBlock.Err?
    ensures Resolve(req, memo, o) ==
      Reply(Propagated(o.cachedBlock.error), [CacheGet(req.cache, req.block, TypeBlock)], memo[req.network := Blank])
  {
    var wiped := memo[req.network := Blank];
    var read := CacheGet(req.cache, req.block, TypeBlock);
    assert [] + [read] == [read];
    assert Wipe(Touch(memo, req.network), req.network) == wiped;
    assert Resolve(req, memo, o) == AfterCachedTx(req, memo, o, Skipped);
    assert AfterCachedTx(req, memo, o, Skipped) ==
      AfterCachedBlock(req, o, None, [], BlockLookup([read], o.cachedBlock, wiped));
  }

  lemma CachedBlockHitPath(req: Request, memo: Memo, o: Oracle)
    requires Valid(req) && req.block != "" && req.cache != ""
    requires !Holds(memo, req.network, req.block)
    requires o.cachedBlock.Ok? && Truthy(o.cachedBlock.value)
    ensures Resolve(req, memo, o) ==
      BlockFinish(TxInBlock(req, o.cachedBlock.value, None, memo[req.network := Blank], o.codec),
                  Unwritten, [CacheGet(req.cache, req.block, TypeBlock)])
  {
    var c := o.cachedBlock.value;
    var wiped := memo[req.network := Blank];
    var read := CacheGet(req.cache, req.block, TypeBlock);
    assert [] + [read] == [read];
    assert [read] + [] == [read];
    assert [read] + [] + [] == [read];
    assert Wipe(Touch(memo, req.network), req.network) == wiped;
    assert Resolve(req, memo, o) == AfterCachedTx(req, memo, o, Skipped);
    assert AfterCachedTx(req, memo, o, Skipped) ==
      AfterCachedBlock(req, o, None, [], BlockLookup([read], o.cachedBlock, wiped));
    assert AfterCachedBlock(req, o, None, [], BlockLookup([read], o.cachedBlock, wiped)) ==
      AfterFreshBlock(req, o, None, c, wiped, [read], Skipped);
    assert AfterFreshBlock(req, o, None, c, wiped, [read], Skipped) ==
      AfterFreshTx(req, o, None, c, None, wiped, [read], Skipped);
    assert SetCachedBlock(req, c, None, o) == Unwritten;
    assert SetCachedTx(req, None, None, o) == Unwritten;
    BlockFinishConcludes(TxInBlock(req, c, None, wiped, o.codec), Unwritten, [read]);
  }

  lemma FetchedBlockFailsPath(req: Request, memo: Memo, o: Oracle)
    requires Valid(req) && req.block != "" && req.cache != ""
    requires !Holds(memo, req.network, req.block)
    requires o.cachedBlock.Ok? && !Truthy(o.cachedBlock.value) && o.freshBlock.Err?
    ensures Resolve(req, memo, o) ==
      Reply(Propagated(o.freshBlock.error),
            [CacheGet(req.cache, req.block, TypeBlock), FetchBlock(req.network, req.block)],
            memo[req.network := Blank])
  {
    var c := o.cachedBlock.value;
    var wiped := memo[req.network := Blank];
    var read := CacheGet(req.cache, req.block, TypeBlock);
    var fetch := FetchBlock(req.network, req.block);
    assert [] + [read] == [read];
    assert [read] + [fetch] == [read, fetch];
    assert Wipe(Touch(memo, req.network), req.network) == wiped;
    assert Resolve(req, memo, o) == AfterCachedTx(req, memo, o, Skipped);
    assert AfterCachedTx(req, memo, o, Skipped) ==
      AfterCachedBlock(req, o, None, [], BlockLookup([read], o.cachedBlock, wiped));
    assert AfterCachedBlock(req, o, None, [], BlockLookup([read], o.cachedBlock, wiped)) ==
      AfterFreshBlock(req, o, None, c, wiped, [read], Lookup([fetch], o.freshBlock));
  }

  lemma FetchedNoBlockPath(req: Request, memo: Memo, o: Oracle)
    requires Valid(req) && req.block != "" && req.cache != ""
    requires !Holds(memo, req.network, req.block)
    requires o.cachedBlock.Ok? && !Truthy(o.cachedBlock.value)
    requires o.freshBlock.Ok? && !Truthy(o.freshBlock.value)
    ensures Resolve(req, memo, o) ==
      Reply(Crashed, [CacheGet(req.cache, req.block, TypeBlock), FetchBlock(req.network, req.block)],
            memo[req.network := Blank])
  {
    var c := o.cachedBlock.value;
    var f := o.freshBlock.value;
    var wiped := memo[req.network := Blank];
    var read := CacheGet(req.cache, req.block, TypeBlock);
    var fetch := FetchBlock(req.network, req.block);
    assert [] + [read] == [read];
    assert [read] + [fetch] == [read, fetch] + [] == [read, fetch] + [] + [] == [read, fetch];
    assert Wipe(Touch(memo, req.network), req.network) == wiped;
    assert Resolve(req, memo, o) == AfterCachedTx(req, memo, o, Skipped);
    assert AfterCachedTx(req, memo, o, Skipped) ==
      AfterCachedBlock(req, o, None, [], BlockLookup([read], o.cachedBlock, wiped));
    assert AfterCachedBlock(req, o, None, [], BlockLookup([read], o.cachedBlock, wiped)) ==
      AfterFreshBlock(req, o, None, c, wiped, [read], Lookup([fetch], o.freshBlock));
    assert AfterFreshBlock(req, o, None, c, wiped, [read], Lookup([fetch], o.freshBlock)) ==
      AfterFreshTx(req, o, None, c, f, wiped, [read, fetch], Skipped);
    assert SetCachedBlock(req, c, f, o) == Unwritten;
    assert SetCachedTx(req, None, None, o) == Unwritten;
    assert TxInBlock(req, c, f, wiped, o.codec) == InBlock(NoBlock, wiped);
  }

  lemma FetchedBlockPath(req: Request, memo: Memo, o: Oracle)
    requires Valid(req) && req.block != "" && req.cache != ""
    requires !Holds(memo, req.network, req.block)
    requires o.cachedBlock.Ok? && !Truthy(o.cachedBlock.value)
    requires o.freshBlock.Ok? && Truthy(o.freshBlock.value)
    ensures var write := CacheSet(req.cache, req.block, CacheResultMs, TypeBlock, o.freshBlock.value.value);
      Resolve(req, memo, o) ==
      BlockFinish(TxInBlock(req, o.cachedBlock.value, o.freshBlock.value, memo[req.network := Blank], o.codec),
                  Write([write], o.setBlock),
                  [CacheGet(req.cache, req.block, TypeBlock), FetchBlock(req.network, req.block), write])
  {
    var c := o.cachedBlock.value;
    var f := o.freshBlock.value;
    var wiped := memo[req.network := Blank];
    var write := CacheSet(req.cache, req.block, CacheResultMs, TypeBlock, f.value);
    var read := CacheGet(req.cache, req.block, TypeBlock);
    var fetch := FetchBlock(req.network, req.block);
    assert Wipe(Touch(memo, req.network), req.network) == wiped;
    assert [] + [read] == [read];
    assert [read] + [fetch] == [read, fetch];
    assert [read, fetch] + [] == [read, fetch];
    assert [read, fetch] + [write] + [] == [read, fetch, write];
    assert Resolve(req, memo, o) == AfterCachedTx(req, memo, o, Skipped);
    assert AfterCachedTx(req, memo, o, Skipped) ==
      AfterCachedBlock(req, o, None, [], BlockLookup([read], o.cachedBlock, wiped));
    assert AfterCachedBlock(req, o, None, [], BlockLookup([read], o.cachedBlock, wiped)) ==
      AfterFreshBlock(req, o, None, c, wiped, [read], Lookup([fetch], o.freshBlock));
    assert AfterFreshBlock(req, o, None, c, wiped, [read], Lookup([fetch], o.freshBlock)) ==
      AfterFreshTx(req, o, None, c, f, wiped, [read, fetch], Skipped);
    assert SetCachedBlock(req, c, f, o) == Write([write], o.setBlock);
    assert SetCachedTx(req, None, None, o) == Unwritten;
    BlockFinishConcludes(TxInBlock(req, c, f, wiped, o.codec), Write([write], o.setBlock), [read, fetch, write]);
  }
}
