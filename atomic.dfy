/**
 * Scalar nodes: `BaseAtomicBindable` and its two backings, `AtomicBindableVar`
 * (a value slot of its own) and `AtomicBindableAdapter` (an optional getter and
 * an optional setter over state the node does not own).
 */
module AtomicBindables {
  import opened Outcomes
  import opened Bindables

  /** A scalar transaction: it carries exactly the new value. */
  datatype AtomicTx<V> = AtomicTx(value: V)

  /** `AtomicBindableTx.__eq__`: value equality, which is exactly equality of transactions. */
  function SameTx<V(==)>(a: AtomicTx<V>, b: AtomicTx<V>): (r: bool)
    ensures r <==> a == b
  {
    a.value == b.value
  }

  /**
   * Where a scalar node keeps its value. `Slot` is `AtomicBindableVar._value`;
   * `External` is `AtomicBindableAdapter`: the getter reads and the setter
   * rewrites the external state `ext`, and either may be missing.
   */
  datatype Backing<!E, !V> =
    | Slot(value: V)
    | External(ext: E, getter: Option<E -> V>, setter: Option<(E, V) -> E>)

  /** `_raw_get`: an adapter without a getter is unreadable; every other backing yields its value. */
  function RawGet<E, V>(b: Backing<E, V>): (r: Result<V>)
    ensures r.Err? <==> b.External? && b.getter.None?
    ensures r.Err? ==> r.error == Unreadable
    ensures b.Slot? ==> r == Ok(b.value)
  {
    match b
    case Slot(v) => Ok(v)
    case External(e, getter, _) =>
      if getter.None? then Err(Unreadable) else Ok(getter.value(e))
  }

  /**
   * `_raw_set`: an adapter without a setter is unwritable; otherwise the new
   * backing is of the same kind and keeps the adapter's getter and setter.
   */
  function RawSet<E, V>(b: Backing<E, V>, v: V): (r: Result<Backing<E, V>>)
    ensures r.Err? <==> b.External? && b.setter.None?
    ensures r.Err? ==> r.error == Unwritable
    ensures r.Ok? ==> (r.value.Slot? <==> b.Slot?)
    ensures r.Ok? && b.External? ==> r.value.getter == b.getter && r.value.setter == b.setter
    ensures b.Slot? ==> r == Ok(Slot(v))
  {
    match b
    case Slot(_) => Ok(Slot(v))
    case External(e, getter, setter) =>
      if setter.None? then Err(Unwritable) else Ok(External(setter.value(e, v), getter, setter))
  }

  /**
   * The law every backing must keep: whatever is written is read back. A slot
   * keeps it by construction; an adapter keeps it when its external functions do.
   */
  ghost predicate WriteReadLaw<E(!new), V(!new)>(b: Backing<E, V>)
  {
    b.External? && b.getter.Some? && b.setter.Some? ==>
      forall e, v :: b.getter.value(b.setter.value(e, v)) == v
  }

  /** A readable backing that keeps the law reads back what a successful raw write stored. */
  lemma WriteThenRead<E(!new), V(!new)>(b: Backing<E, V>, v: V)
    requires WriteReadLaw(b) && RawGet(b).Ok? && RawSet(b, v).Ok?
    ensures WriteReadLaw(RawSet(b, v).value)
    ensures RawGet(RawSet(b, v).value) == Ok(v)
  {
  }

  class BaseAtomicBindable<E(!new), V(!new)> {
    var backing: Backing<E, V>
    /** How many times `on_changed` has fired (it fires with no arguments). */
    ghost var changedFires: nat
    /** The `Bindable` part: the `on_new_tx` stream. */
    const base: Bindable<AtomicTx<V>>

    /** `AtomicBindableVar(initial)`. */
    constructor Var(initial: V)
      ensures backing == Slot(initial) && changedFires == 0
      ensures fresh(base) && base.newTxs == []
    {
      backing := Slot(initial);
      changedFires := 0;
      base := new Bindable();
    }

    /** `AtomicBindableAdapter(getter, setter)` over the external state `ext`. */
    constructor Adapter(ext: E, getter: Option<E -> V>, setter: Option<(E, V) -> E>)
      ensures backing == External(ext, getter, setter) && changedFires == 0
      ensures fresh(base) && base.newTxs == []
    {
      backing := External(ext, getter, setter);
      changedFires := 0;
      base := new Bindable();
    }

    /** `get`: the backing's value, or `Unreadable` for an adapter without a getter. */
    method Get() returns (r: Result<V>)
      ensures r == RawGet(backing)
      ensures r.Err? <==> backing.External? && backing.getter.None?
    {
      r := RawGet(backing);
    }

    /** `_value_changed`: fire `on_changed`, then broadcast `newValue` if `bcastTx`. */
    method ValueChanged(newValue: V, bcastTx: bool)
      modifies this, base
      ensures backing == old(backing)
      ensures changedFires == old(changedFires) + 1
      ensures base.newTxs == old(base.newTxs) + if bcastTx then [Fired(AtomicTx(newValue), [])] else []
    {
      changedFires := changedFires + 1;
      if bcastTx {
        base.BcastTx(AtomicTx(newValue));
      }
    }

    /**
     * `_set`: write `value` through the backing, then announce it. A write the
     * backing refuses fails before anything fires.
     */
    method SetValue(value: V, bcastTx: bool) returns (r: Outcome)
      modifies this, base
      ensures r == if RawSet(old(backing), value).Ok? then Done else Failed(Unwritable)
      ensures r.Done? ==>
        backing == RawSet(old(backing), value).value &&
        changedFires == old(changedFires) + 1 &&
        base.newTxs == old(base.newTxs) + if bcastTx then [Fired(AtomicTx(value), [])] else []
      ensures r.Failed? ==>
        backing == old(backing) && changedFires == old(changedFires) && base.newTxs == old(base.newTxs)
    {
      var written := RawSet(backing, value);
      if written.Err? {
        return Failed(written.error);
      }
      backing := written.value;
      ValueChanged(value, bcastTx);
      r := Done;
    }

    /**
     * `set`: after a successful write a lawful, readable backing reads back
     * `value`; `on_changed` fires once and exactly one transaction carrying
     * `value` is broadcast. A refused write changes nothing and fires nothing.
     */
    method Set(value: V) returns (r: Outcome)
      modifies this, base
      ensures r == if RawSet(old(backing), value).Ok? then Done else Failed(Unwritable)
      ensures r.Done? ==>
        backing == RawSet(old(backing), value).value &&
        changedFires == old(changedFires) + 1 &&
        base.newTxs == old(base.newTxs) + [Fired(AtomicTx(value), [])]
      ensures r.Done? && WriteReadLaw(old(backing)) && RawGet(old(backing)).Ok? ==> RawGet(backing) == Ok(value)
      ensures r.Failed? ==>
        backing == old(backing) && changedFires == old(changedFires) && base.newTxs == old(base.newTxs)
    {
      r := SetValue(value, true);
      if r.Done? && WriteReadLaw(old(backing)) && RawGet(old(backing)).Ok? {
        WriteThenRead(old(backing), value);
      }
    }

    /**
     * `poke`: re-announce the value the backing holds now, without writing it:
     * `on_changed` fires once and one transaction carrying that value is
     * broadcast. An unreadable adapter fails before anything fires.
     */
    method Poke() returns (r: Outcome)
      modifies this, base
      ensures backing == old(backing)
      ensures r == if RawGet(backing).Ok? then Done else Failed(Unreadable)
      ensures r.Done? ==>
        changedFires == old(changedFires) + 1 &&
        base.newTxs == old(base.newTxs) + [Fired(AtomicTx(RawGet(backing).value), [])]
      ensures r.Failed? ==> changedFires == old(changedFires) && base.newTxs == old(base.newTxs)
    {
      var current := RawGet(backing);
      if current.Err? {
        return Failed(current.error);
      }
      ValueChanged(current.value, true);
      r := Done;
    }

    /** `_export`: a transaction carrying the current value; unreadable adapters cannot export. */
    function Export(): (r: Result<AtomicTx<V>>)
      reads this
      ensures r.Err? <==> backing.External? && backing.getter.None?
      ensures backing.Slot? ==> r == Ok(AtomicTx(backing.value))
    {
      match RawGet(backing)
      case Ok(v) => Ok(AtomicTx(v))
      case Err(e) => Err(e)
    }

    /**
     * `_raw_apply_tx`: store the transaction's value and fire `on_changed`,
     * without broadcasting; the result `None` asks `_apply_tx` to re-broadcast
     * the same transaction.
     */
    method RawApplyTx(tx: AtomicTx<V>) returns (r: Result<Option<seq<AtomicTx<V>>>>)
      modifies this, base
      ensures r.Ok? <==> RawSet(old(backing), tx.value).Ok?
      ensures r.Ok? ==>
        r.value == None &&
        backing == RawSet(old(backing), tx.value).value &&
        changedFires == old(changedFires) + 1
      ensures r.Err? ==> r.error == Unwritable && backing == old(backing) && changedFires == old(changedFires)
      ensures base.newTxs == old(base.newTxs)
    {
      var o := SetValue(tx.value, false);
      if o.Failed? {
        return Err(o.error);
      }
      r := Ok(None);
    }

    /**
     * `_apply_tx` on a scalar node: the value is stored, `on_changed` fires
     * once and the same transaction is re-broadcast once with `block`.
     */
    method ApplyTx(tx: AtomicTx<V>, block: Block := []) returns (r: Outcome)
      modifies this, base
      ensures r.Done? <==> RawSet(old(backing), tx.value).Ok?
      ensures r.Done? ==>
        backing == RawSet(old(backing), tx.value).value &&
        changedFires == old(changedFires) + 1 &&
        base.newTxs == old(base.newTxs) + [Fired(tx, block)]
      ensures r.Failed? ==>
        backing == old(backing) && changedFires == old(changedFires) && base.newTxs == old(base.newTxs)
    {
      var raw := RawApplyTx(tx);
      if raw.Err? {
        return Failed(raw.error);
      }
      base.BroadcastApplied(tx, raw.value, block);
      r := Done;
    }
  }

  /**
   * Export round trip: once `b` stores the value exported by `a`, `b` reads
   * back what `a` reads, for every lawful readable backing `b` that accepts
   * the write (in particular every `AtomicBindableVar`).
   */
  lemma ExportRoundTrip<E(!new), V(!new)>(a: BaseAtomicBindable<E, V>, b: BaseAtomicBindable<E, V>)
    requires a.Export().Ok?
    requires WriteReadLaw(b.backing) && RawGet(b.backing).Ok?
    requires RawSet(b.backing, a.Export().value.value).Ok?
    ensures RawGet(RawSet(b.backing, a.Export().value.value).value) == RawGet(a.backing)
  {
    WriteThenRead(b.backing, a.Export().value.value);
  }
}
