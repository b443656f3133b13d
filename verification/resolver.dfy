/** The exported resolver (get_transaction.js:29-207) as a sequential
    pipeline: the steps run in the order the dependency graph declares them,
    the first error ends the request, and the reply records the outcome, the
    external calls issued and the memo as the request leaves it. */
module Resolver {
  import opened Types
  import opened LastBlock
  import opened Steps

  datatype Reply = Reply(outcome: Outcome, calls: seq<Call>, memo: Memo)

  /** Collaborators call back asynchronously, so setCachedBlock's write is
      already issued when txInBlock runs, an error of txInBlock is reported
      before the write's, and the memo update does not wait for the write.
      Each `After` function below continues the pipeline once one step has
      answered, with the values and calls gathered so far. */
  function Resolve(req: Request, memo: Memo, o: Oracle): (r: Reply)
  {
    match Validate(req)
    case Some(e) => Reply(Failed(e), [], memo)
    case None => AfterCachedTx(req, memo, o, GetCachedTx(req, o))
  }

  function AfterCachedTx(req: Request, memo: Memo, o: Oracle, cachedTx: Lookup): Reply {
    if cachedTx.answer.Err? then Reply(Propagated(cachedTx.answer.error), cachedTx.issued, memo)
    else
      AfterCachedBlock(req, o, cachedTx.answer.value, cachedTx.issued,
                       GetCachedBlock(req, cachedTx.answer.value, memo, o))
  }

  function AfterCachedBlock(req: Request, o: Oracle, cachedTx: Option<string>, calls: seq<Call>,
                            cachedBlock: BlockLookup): Reply
  {
    var calls' := calls + cachedBlock.issued;
    if cachedBlock.answer.Err? then Reply(Propagated(cachedBlock.answer.error), calls', cachedBlock.memo)
    else
      AfterFreshBlock(req, o, cachedTx, cachedBlock.answer.value, cachedBlock.memo, calls',
                      GetFreshBlock(req, cachedBlock.answer.value, o))
  }

  function AfterFreshBlock(req: Request, o: Oracle, cachedTx: Option<string>, cachedBlock: Option<string>,
                           memo: Memo, calls: seq<Call>, freshBlock: Lookup): Reply
  {
    var calls' := calls + freshBlock.issued;
    if freshBlock.answer.Err? then Reply(Propagated(freshBlock.answer.error), calls', memo)
    else
      AfterFreshTx(req, o, cachedTx, cachedBlock, freshBlock.answer.value, memo, calls',
                   GetFreshTx(req, cachedTx, o))
  }

  /** After both fetches: the two cache writes go out, then txInBlock runs. */
  function AfterFreshTx(req: Request, o: Oracle, cachedTx: Option<string>, cachedBlock: Option<string>,
                        freshBlock: Option<string>, memo: Memo, calls: seq<Call>, freshTx: Lookup): Reply
  {
    var calls' := calls + freshTx.issued;
    if freshTx.answer.Err? then Reply(Propagated(freshTx.answer.error), calls', memo)
    else
      var setBlock := SetCachedBlock(req, cachedBlock, freshBlock, o);
      var setTx := SetCachedTx(req, cachedTx, freshTx.answer.value, o);
      var inBlock := TxInBlock(req, cachedBlock, freshBlock, memo, o.codec);
      Conclude(cachedTx, freshTx.answer.value, setBlock, setTx, calls' + setBlock.issued + setTx.issued, inBlock)
  }

  /** The steps after txInBlock: its error ends the request, otherwise the
      result step runs on the hex it handed on ("" for none). */
  function Conclude(cachedTx: Option<string>, freshTx: Option<string>, setBlock: Write, setTx: Write,
                    calls: seq<Call>, inBlock: InBlock): Reply
  {
    match inBlock.search
    case SearchFailed(e) => Reply(Failed(e), calls, inBlock.memo)
    case NoBlock => Finish(Compose(cachedTx, freshTx, ""), setBlock, setTx, calls, inBlock.memo)
    case Found(hex) => Finish(Compose(cachedTx, freshTx, hex), setBlock, setTx, calls, inBlock.memo)
  }

  /** The final callback once every step has run: a crash of the result step
      escapes at once, otherwise a failed cache write is reported, otherwise
      the result. */
  function Finish(outcome: Outcome, setBlock: Write, setTx: Write, calls: seq<Call>, memo: Memo): Reply {
    if outcome.Crashed? then Reply(Crashed, calls, memo)
    else if setBlock.failure.Some? then Reply(Propagated(setBlock.failure.value), calls, memo)
    else if setTx.failure.Some? then Reply(Propagated(setTx.failure.value), calls, memo)
    else Reply(outcome, calls, memo)
  }

  /** The memo after a run of requests, and each request's reply. */
  datatype Trace = Trace(memo: Memo, replies: seq<Reply>)

  /** Requests resolved one after another, sharing the memo; `os[k]` answers
      the calls of `reqs[k]`. */
  function Run(memo: Memo, reqs: seq<Request>, os: seq<Oracle>): (r: Trace)
    requires |reqs| == |os|
    ensures |r.replies| == |reqs|
    decreases |reqs|
  {
    if |reqs| == 0 then Trace(memo, [])
    else
      var first := Resolve(reqs[0], memo, os[0]);
      var rest := Run(first.memo, reqs[1..], os[1..]);
      Trace(rest.memo, [first] + rest.replies)
  }
}
