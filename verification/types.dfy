/** Values exchanged between the transaction resolver and its collaborators:
    the cache client, the chain client and the block codec.

    The resolver's guards only ever ask whether a value is truthy, so a request
    argument that is absent (`undefined`) and one that is the empty string
    behave alike; both are written "" here. */
module Types {

  datatype Option<T> = None | Some(value: T)

  /** A `[code, tag]` error pair as handed to a callback. */
  datatype Failure = Failure(code: int, tag: string)

  /** What a cache read or a chain fetch hands to its callback: an error, or a
      value. `Ok(None)` is an `undefined` value; `Ok(Some(s))` is an object whose
      field of interest (`transaction` or `block`) is `s`, "" when that field is
      missing. */
  datatype Answer = Err(error: Failure) | Ok(value: Option<string>)

  /** `!!x && !!x.field` for a looked-up value `x`. */
  predicate Truthy(v: Option<string>) {
    v.Some? && v.value != ""
  }

  /** The resolver's argument `{block, cache, id, network}`. */
  datatype Request = Request(block: string, cache: string, id: string, network: string)

  /** A parsed transaction as the codec exposes it: `getId()` and `toHex()`. */
  datatype Tx = Tx(id: string, hex: string)

  /** Cache entry types and time to live (get_transaction.js:10-13). */
  const TypeBlock: string := "get_transaction_block"
  const TypeTx: string := "get_transaction_tx"
  const CacheResultMs: int := 1000 * 60 * 10

  /** One external call, with the arguments it is issued with. */
  datatype Call =
    | CacheGet(cache: string, key: string, kind: string)
    | FetchBlock(network: string, id: string)
    | FetchTx(id: string, network: string)
    | CacheSet(cache: string, key: string, ms: int, kind: string, value: string)

  /** The answers the collaborators would give to each call a request can
      issue, and the block codec: `Block.fromHex(hex).transactions` is
      `codec[hex]` when `hex in codec` and throws otherwise. */
  datatype Oracle = Oracle(
    cachedTx: Answer,
    cachedBlock: Answer,
    freshBlock: Answer,
    freshTx: Answer,
    setBlock: Option<Failure>,
    setTx: Option<Failure>,
    codec: map<string, seq<Tx>>)

  /** The resolver's own errors. */
  const MissingId := Failure(400, "ExpectedIdForTransaction")
  const MissingNetwork := Failure(400, "ExpectedNetworkToLookForTransaction")
  const NotInBlock := Failure(400, "TransactionNotFoundInBlock")
  const DeriveFailed := Failure(503, "FailedToDeriveTransactionsFromBlock")

  /** How a request ends. `Failed` carries one of the resolver's own errors,
      `Propagated` a collaborator's error passed through unchanged (the caller
      receives both the same way). `Resolved(t)` is the result
      `{transaction: t}`, with "" for an undefined transaction. `Crashed` is the
      TypeError thrown when the result step destructures `undefined`; it escapes
      the callback chain instead of reaching the caller's callback. */
  datatype Outcome =
    | Failed(failure: Failure)
    | Propagated(failure: Failure)
    | Resolved(transaction: string)
    | Crashed
}
