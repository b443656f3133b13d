/** The module-level memo `lastBlock` (get_transaction.js:11): for each
    network, the last block resolved against it. */
module LastBlock {
  import opened Types

  /** One network's slot; each field stays `undefined` (None) until written. */
  datatype Entry = Entry(id: Option<string>, block: Option<string>, transactions: Option<seq<Tx>>)

  /** The empty object `{}`. */
  const Blank := Entry(None, None, None)

  type Memo = map<string, Entry>

  /** `lastBlock[network] = lastBlock[network] || {}` (line 64). */
  function Touch(m: Memo, network: string): Memo {
    if network in m then m else m[network := Blank]
  }

  /** `lastBlock[network] = {}` (line 71). */
  function Wipe(m: Memo, network: string): Memo {
    m[network := Blank]
  }

  /** `lastBlock[network].id === block && !!lastBlock[network].block` (line 66). */
  predicate Holds(m: Memo, network: string, block: string) {
    network in m && m[network].id == Some(block) && Truthy(m[network].block)
  }

  /** Lines 171-176: the slot takes the block's id and raw hex, and keeps its
      transaction list when it already had one. */
  function Record(m: Memo, network: string, block: string, raw: string, txs: seq<Tx>): (r: Memo)
    requires network in m
    ensures network in r && r[network].id == Some(block) && r[network].block == Some(raw)
    ensures m[network].transactions.Some? ==> r[network].transactions == m[network].transactions
    ensures m[network].transactions.None? ==> r[network].transactions == Some(txs)
    ensures AgreeExcept(m, r, network)
  {
    var kept := m[network].transactions;
    m[network := Entry(Some(block), Some(raw), if kept.Some? then kept else Some(txs))]
  }

  /** Every network other than `network` has the same slot, or none, in both memos. */
  ghost predicate AgreeExcept(m: Memo, m': Memo, network: string) {
    forall n :: n != network ==> (n in m <==> n in m') && (n in m ==> m[n] == m'[n])
  }

  /** A slot's id and raw block are written together and are never empty, and
      a transaction list is only ever stored together with them. */
  predicate EntryWellFormed(e: Entry) {
    && (e.id.Some? <==> e.block.Some?)
    && (e.transactions.Some? ==> e.id.Some?)
    && (e.id.Some? ==> e.id.value != "")
    && (e.block.Some? ==> e.block.value != "")
  }

  ghost predicate WellFormed(m: Memo) {
    forall n :: n in m ==> EntryWellFormed(m[n])
  }

  /** Every stored transaction list is what the codec parses out of the raw
      block stored beside it. */
  ghost predicate Coherent(m: Memo, codec: map<string, seq<Tx>>) {
    forall n :: n in m && m[n].transactions.Some? ==>
      m[n].block.Some? && m[n].block.value in codec && codec[m[n].block.value] == m[n].transactions.value
  }
}
