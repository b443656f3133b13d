/** The in-block search `transactions.find(t => t.getId())`
    (get_transaction.js:178). Its predicate asks only whether a transaction's
    id is truthy; it never compares the id with the one requested. */
module BlockSearch {
  import opened Types

  /** Index of the first transaction whose id is non-empty, if there is one. */
  function FirstWithId(txs: seq<Tx>): (r: Option<nat>)
    ensures r.Some? ==> r.value < |txs| && txs[r.value].id != ""
    ensures r.Some? ==> forall j :: 0 <= j < r.value ==> txs[j].id == ""
    ensures r.None? ==> forall j :: 0 <= j < |txs| ==> txs[j].id == ""
  {
    if |txs| == 0 then None
    else if txs[0].id != "" then Some(0)
    else
      match FirstWithId(txs[1..])
      case None => None
      case Some(i) => Some(i + 1)
  }

  /** Whenever the codec gives the first transaction a non-empty id (a block's
      first transaction is its coinbase, and real ids are hashes), the search
      picks that first transaction, whatever id was asked for. */
  lemma FirstTransactionWins(txs: seq<Tx>)
    requires |txs| > 0 && txs[0].id != ""
    ensures FirstWithId(txs) == Some(0)
  {
  }
}
