/**
 * The abstract transactional node: an outbound transaction stream (`on_new_tx`)
 * and the broadcast step that follows the application of an inbound transaction.
 *
 * The model has no inheritance, so the part every node shares is the class
 * `Bindable`, and each concrete node holds one as its `base`.
 */
module Bindables {
  import opened Outcomes

  /** An opaque handle naming one listener connection of an event. */
  type ConnectionId = nat

  /** The listener connections a single firing must skip; passed through unchanged. */
  type Block = seq<ConnectionId>

  /** One firing of `on_new_tx`: the transaction and the block it was fired with. */
  datatype Fired<Tx> = Fired(tx: Tx, block: Block)

  /**
   * What `_apply_tx` broadcasts once the raw application returned `raw`:
   * `None` means "broadcast the inbound transaction itself", `Some(txs)` means
   * "broadcast exactly these".
   */
  function Rebroadcast<Tx>(tx: Tx, raw: Option<seq<Tx>>): (r: seq<Tx>)
    ensures raw.None? ==> r == [tx]
    ensures raw.Some? ==> r == raw.value
  {
    match raw
    case None => [tx]
    case Some(txs) => txs
  }

  class Bindable<Tx> {
    /** Every firing of `on_new_tx`, oldest first. */
    ghost var newTxs: seq<Fired<Tx>>

    constructor ()
      ensures newTxs == []
    {
      newTxs := [];
    }

    /** `_bcast_tx`: fire `on_new_tx` once with `tx`, skipping the connections in `block`. */
    method BcastTx(tx: Tx, block: Block := [])
      modifies this
      ensures newTxs == old(newTxs) + [Fired(tx, block)]
    {
      newTxs := newTxs + [Fired(tx, block)];
    }

    /**
     * The broadcast half of `_apply_tx`, run after `_raw_apply_tx(tx)` returned
     * `raw`: the inbound transaction once if `raw` is `None`, otherwise every
     * returned transaction in order, each with the caller's `block`.
     */
    method BroadcastApplied(tx: Tx, raw: Option<seq<Tx>>, block: Block := [])
      modifies this
      ensures raw.None? ==> newTxs == old(newTxs) + [Fired(tx, block)]
      ensures raw.Some? ==>
        |newTxs| == |old(newTxs)| + |raw.value| &&
        newTxs[..|old(newTxs)|] == old(newTxs) &&
        forall k :: 0 <= k < |raw.value| ==> newTxs[|old(newTxs)| + k] == Fired(raw.value[k], block)
      ensures raw == Some([]) ==> newTxs == old(newTxs)
    {
      var txs := Rebroadcast(tx, raw);
      ghost var before := newTxs;
      for k := 0 to |txs|
        invariant |newTxs| == |before| + k
        invariant newTxs[..|before|] == before
        invariant forall j :: 0 <= j < k ==> newTxs[|before| + j] == Fired(txs[j], block)
      {
        BcastTx(txs[k], block);
      }
      assert newTxs == newTxs[..|before|] + newTxs[|before|..];
      if raw.None? {
        assert newTxs[|before| + 0] == Fired(txs[0], block);
        assert newTxs[|before|..] == [Fired(tx, block)];
      }
    }
  }
}
