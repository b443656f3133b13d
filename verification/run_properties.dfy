/** Properties of several requests resolved one after another against the
    shared memo. */
module RunProperties {
  import opened Types
  import opened LastBlock
  import opened Resolver
  import opened DecisionTable
  import opened MemoProperties

  /** Every request of a run keeps the memo's shape. */
  lemma {:induction false} RunKeepsWellFormed(memo: Memo, reqs: seq<Request>, os: seq<Oracle>)
    requires |reqs| == |os|
    requires WellFormed(memo)
    ensures WellFormed(Run(memo, reqs, os).memo)
    decreases |reqs|
  {
    if |reqs| > 0 {
      PreservesWellFormed(reqs[0], memo, os[0]);
      RunKeepsWellFormed(Resolve(reqs[0], memo, os[0]).memo, reqs[1..], os[1..]);
    }
  }

  /** As long as every request uses a cache and the codec is the same
      function throughout, the memo's lists stay the parses of its blocks. */
  lemma {:induction false} RunKeepsCoherence(memo: Memo, reqs: seq<Request>, os: seq<Oracle>,
                                             codec: map<string, seq<Tx>>)
    requires |reqs| == |os|
    requires forall k :: 0 <= k < |reqs| ==> reqs[k].cache != "" && os[k].codec == codec
    requires Coherent(memo, codec)
    ensures Coherent(Run(memo, reqs, os).memo, codec)
    decreases |reqs|
  {
    if |reqs| > 0 {
      PreservesCoherence(reqs[0], memo, os[0]);
      RunKeepsCoherence(Resolve(reqs[0], memo, os[0]).memo, reqs[1..], os[1..], codec);
    }
  }

  /** Once a network's slot holds block `b` with its list, any number of
      lookups in `b` on that network with a cache issue no call at all, leave
      the memo as it is, and all answer the same search over the slot's list,
      whatever ids they ask for. */
  lemma {:induction false} MemoHitPersists(memo: Memo, reqs: seq<Request>, os: seq<Oracle>,
                                           network: string, b: string)
    requires |reqs| == |os|
    requires b != "" && Holds(memo, network, b) && memo[network].transactions.Some?
    requires forall k :: 0 <= k < |reqs| ==>
      Valid(reqs[k]) && reqs[k].block == b && reqs[k].network == network && reqs[k].cache != ""
    ensures Run(memo, reqs, os).memo == memo
    ensures forall k :: 0 <= k < |reqs| ==>
      Run(memo, reqs, os).replies[k].calls == [] &&
      Run(memo, reqs, os).replies[k].outcome == SearchOutcome(memo[network].transactions.value)
    decreases |reqs|
  {
    if |reqs| > 0 {
      MemoHitSkipsBlockIo(reqs[0], memo, os[0], os[0]);
      MemoHitPersists(memo, reqs[1..], os[1..], network, b);
      var first := Resolve(reqs[0], memo, os[0]);
      var rest := Run(memo, reqs[1..], os[1..]);
      assert Run(memo, reqs, os) == Trace(rest.memo, [first] + rest.replies);
      forall k | 0 <= k < |reqs|
        ensures Run(memo, reqs, os).replies[k].calls == []
        ensures Run(memo, reqs, os).replies[k].outcome == SearchOutcome(memo[network].transactions.value)
      {
        if k > 0 {
          assert Run(memo, reqs, os).replies[k] == rest.replies[k - 1];
        }
      }
    }
  }

  /** After a block-scoped lookup with a cache resolves, the next lookup in
      the same block on the same network with a cache issues no call and
      returns the same transaction, whichever id it asks for. */
  lemma SecondLookupInSameBlock(req1: Request, req2: Request, memo: Memo, o1: Oracle, o2: Oracle)
    requires Valid(req1) && Valid(req2)
    requires req1.block != "" && req2.block == req1.block && req2.network == req1.network
    requires req1.cache != "" && req2.cache != ""
    requires Resolve(req1, memo, o1).outcome.Resolved?
    ensures Resolve(req2, Resolve(req1, memo, o1).memo, o2).calls == []
    ensures Resolve(req2, Resolve(req1, memo, o1).memo, o2).outcome == Resolve(req1, memo, o1).outcome
  {
    var m := Resolve(req1, memo, o1).memo;
    SearchRecordsBlock(req1, memo, o1);
    MemoHitSkipsBlockIo(req2, m, o2, o2);
  }
}
