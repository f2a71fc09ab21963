/**
 * Sequence nodes: `MutableSequenceBindable` over its only backing, `ListBindable`,
 * and the four kinds of sequence transaction.
 *
 * Indices are the plain 0-based positions of the list: a set or a delete needs
 * `0 <= i < |list|`, an insert `0 <= i <= |list|`.
 */
module SequenceBindables {
  import opened Outcomes
  import opened Bindables

  /** The four sequence transactions; a group is applied member by member, in order. */
  datatype SeqTx<V> =
    | SetItemTx(i: int, v: V)
    | DelItemTx(i: int)
    | InsertTx(i: int, v: V)
    | GroupedTx(txs: seq<SeqTx<V>>)

  /** Net change in length that applying `tx` makes: one per insert, minus one per delete. */
  function Growth<V>(tx: SeqTx<V>): int
    decreases tx
  {
    match tx
    case SetItemTx(_, _) => 0
    case DelItemTx(_) => -1
    case InsertTx(_, _) => 1
    case GroupedTx(txs) => GrowthEach(txs)
  }

  function GrowthEach<V>(txs: seq<SeqTx<V>>): int
    decreases txs
  {
    if txs == [] then 0 else Growth(txs[0]) + GrowthEach(txs[1..])
  }

  /**
   * `silent_apply` on a list: the list that applying `tx` to `s` leaves, or
   * `None` when some member's index is outside the range given above. The
   * length changes by exactly `Growth(tx)`.
   */
  function Apply<V>(tx: SeqTx<V>, s: seq<V>): (r: Option<seq<V>>)
    ensures r.Some? ==> |r.value| == |s| + Growth(tx)
    decreases tx
  {
    match tx
    case SetItemTx(i, v) => if 0 <= i < |s| then Some(s[i := v]) else None
    case DelItemTx(i) => if 0 <= i < |s| then Some(s[..i] + s[i + 1..]) else None
    case InsertTx(i, v) => if 0 <= i <= |s| then Some(s[..i] + [v] + s[i..]) else None
    case GroupedTx(txs) => ApplyEach(txs, s)
  }

  /** `GroupedTx.silent_apply`: each member applied to what the previous one left, first to last. */
  function ApplyEach<V>(txs: seq<SeqTx<V>>, s: seq<V>): (r: Option<seq<V>>)
    ensures r.Some? ==> |r.value| == |s| + GrowthEach(txs)
    decreases txs
  {
    if txs == [] then Some(s)
    else
      match Apply(txs[0], s)
      case None => None
      case Some(s') => ApplyEach(txs[1..], s')
  }

  /** The members of `tx` that are not groups, nested groups opened in place, in order. */
  function Primitives<V>(tx: SeqTx<V>): (r: seq<SeqTx<V>>)
    ensures forall k :: 0 <= k < |r| ==> !r[k].GroupedTx?
    decreases tx
  {
    match tx
    case GroupedTx(txs) => PrimitivesEach(txs)
    case _ => [tx]
  }

  function PrimitivesEach<V>(txs: seq<SeqTx<V>>): (r: seq<SeqTx<V>>)
    ensures forall k :: 0 <= k < |r| ==> !r[k].GroupedTx?
    decreases txs
  {
    if txs == [] then [] else Primitives(txs[0]) + PrimitivesEach(txs[1..])
  }

  /** Applying a concatenation applies the first part, then the second to its result. */
  lemma {:induction false} ApplyEachAppend<V>(a: seq<SeqTx<V>>, b: seq<SeqTx<V>>, s: seq<V>)
    ensures ApplyEach(a + b, s) ==
      match ApplyEach(a, s)
      case None => None
      case Some(s') => ApplyEach(b, s')
    decreases a
  {
    if a == [] {
      assert a + b == b;
    } else {
      assert (a + b)[0] == a[0];
      assert (a + b)[1..] == a[1..] + b;
      match Apply(a[0], s)
      case None =>
      case Some(s') => ApplyEachAppend(a[1..], b, s');
    }
  }

  /**
   * A group is applied strictly in recorded order: applying any transaction
   * is the same as applying, one after another, its primitive members.
   */
  lemma {:induction false} ApplyInOrder<V>(tx: SeqTx<V>, s: seq<V>)
    ensures Apply(tx, s) == ApplyEach(Primitives(tx), s)
    decreases tx
  {
    match tx
    case GroupedTx(txs) => ApplyEachInOrder(txs, s);
    case _ =>
  }

  lemma {:induction false} ApplyEachInOrder<V>(txs: seq<SeqTx<V>>, s: seq<V>)
    ensures ApplyEach(txs, s) == ApplyEach(PrimitivesEach(txs), s)
    decreases txs
  {
    if txs != [] {
      ApplyInOrder(txs[0], s);
      ApplyEachAppend(Primitives(txs[0]), PrimitivesEach(txs[1..]), s);
      match Apply(txs[0], s)
      case None =>
      case Some(s') => ApplyEachInOrder(txs[1..], s');
    }
  }

  /** Inserting an item and deleting it again at the same index restores the list. */
  lemma InsertThenDelete<V>(s: seq<V>, i: int, v: V)
    requires 0 <= i <= |s|
    ensures Apply(GroupedTx([InsertTx(i, v), DelItemTx(i)]), s) == Some(s)
  {
    var txs, t := [InsertTx(i, v), DelItemTx(i)], s[..i] + [v] + s[i..];
    assert t[..i] + t[i + 1..] == s;
    assert Apply(txs[0], s) == Some(t) && txs[1..] == [DelItemTx(i)];
    assert ApplyEach(txs[1..], t) == ApplyEach([], s);
  }

  /** Deleting an item and inserting it back at the same index restores the list. */
  lemma DeleteThenReinsert<V>(s: seq<V>, i: int)
    requires 0 <= i < |s|
    ensures Apply(GroupedTx([DelItemTx(i), InsertTx(i, s[i])]), s) == Some(s)
  {
    var txs, t := [DelItemTx(i), InsertTx(i, s[i])], s[..i] + s[i + 1..];
    assert t[..i] + [s[i]] + t[i..] == s;
    assert Apply(txs[0], s) == Some(t) && txs[1..] == [InsertTx(i, s[i])];
    assert ApplyEach(txs[1..], t) == ApplyEach([], s);
  }

  /** Overwriting an item and writing the old item back restores the list. */
  lemma SetThenRestore<V>(s: seq<V>, i: int, v: V)
    requires 0 <= i < |s|
    ensures Apply(GroupedTx([SetItemTx(i, v), SetItemTx(i, s[i])]), s) == Some(s)
  {
    var txs, t := [SetItemTx(i, v), SetItemTx(i, s[i])], s[i := v];
    assert t[i := s[i]] == s;
    assert Apply(txs[0], s) == Some(t) && txs[1..] == [SetItemTx(i, s[i])];
    assert ApplyEach(txs[1..], t) == ApplyEach([], s);
  }

  /**
   * One firing of a structural event: `on_setitem(i, v)`, `on_delitem(i)` or
   * `on_insert(i, v)`. A node keeps one log of these, so the order of the
   * firings across the three events is recorded along with each event's own.
   */
  datatype StructuralFiring<V> =
    | SetItemFired(i: int, v: V)
    | DelItemFired(i: int)
    | InsertFired(i: int, v: V)

  /** The event a primitive transaction fires when it is applied. */
  function FiringOf<V>(p: SeqTx<V>): StructuralFiring<V>
    requires !p.GroupedTx?
  {
    match p
    case SetItemTx(i, v) => SetItemFired(i, v)
    case DelItemTx(i) => DelItemFired(i)
    case InsertTx(i, v) => InsertFired(i, v)
  }

  /** The structural firings that applying `tx` silently produces, in the order they happen. */
  function FiringsOf<V>(tx: SeqTx<V>): seq<StructuralFiring<V>>
    decreases tx
  {
    match tx
    case GroupedTx(txs) => FiringsEach(txs)
    case _ => [FiringOf(tx)]
  }

  function FiringsEach<V>(txs: seq<SeqTx<V>>): seq<StructuralFiring<V>>
    decreases txs
  {
    if txs == [] then [] else FiringsOf(txs[0]) + FiringsEach(txs[1..])
  }

  /**
   * Applying a transaction fires exactly one structural event per primitive
   * member, in recorded order: the `k`-th firing is that of the `k`-th member.
   */
  lemma {:induction false} FiringsFollowPrimitives<V>(tx: SeqTx<V>)
    ensures |FiringsOf(tx)| == |Primitives(tx)|
    ensures forall k :: 0 <= k < |Primitives(tx)| ==> FiringsOf(tx)[k] == FiringOf(Primitives(tx)[k])
    decreases tx
  {
    match tx
    case GroupedTx(txs) => FiringsEachFollowPrimitives(txs);
    case _ =>
  }

  lemma {:induction false} FiringsEachFollowPrimitives<V>(txs: seq<SeqTx<V>>)
    ensures |FiringsEach(txs)| == |PrimitivesEach(txs)|
    ensures forall k :: 0 <= k < |PrimitivesEach(txs)| ==> FiringsEach(txs)[k] == FiringOf(PrimitivesEach(txs)[k])
    decreases txs
  {
    if txs != [] {
      FiringsFollowPrimitives(txs[0]);
      FiringsEachFollowPrimitives(txs[1..]);
      var ps, qs := Primitives(txs[0]), PrimitivesEach(txs[1..]);
      var fs, gs := FiringsOf(txs[0]), FiringsEach(txs[1..]);
      forall k | 0 <= k < |ps + qs|
        ensures (fs + gs)[k] == FiringOf((ps + qs)[k])
      {
        if k >= |ps| {
          assert (ps + qs)[k] == qs[k - |ps|];
        }
      }
    }
  }

  /** Applying the members of a group from position `k` on: member `k` first, then the rest. */
  lemma GroupStep<V>(txs: seq<SeqTx<V>>, k: nat, s: seq<V>)
    requires k < |txs|
    ensures ApplyEach(txs[k..], s) ==
      match Apply(txs[k], s)
      case None => None
      case Some(s') => ApplyEach(txs[k + 1..], s')
    ensures FiringsEach(txs[k..]) == FiringsOf(txs[k]) + FiringsEach(txs[k + 1..])
  {
    assert txs[k..][0] == txs[k] && txs[k..][1..] == txs[k + 1..];
  }

  /** `Insert(offset, t[0]), Insert(offset + 1, t[1]), …`: the members of an export. */
  function InsertsFrom<V>(offset: nat, t: seq<V>): (r: seq<SeqTx<V>>)
    ensures |r| == |t|
    ensures forall j :: 0 <= j < |r| ==> r[j].InsertTx? && r[j].i == offset + j && r[j].v == t[j]
  {
    seq(|t|, j requires 0 <= j < |t| => InsertTx(offset + j, t[j]))
  }

  /** Replaying the inserts of `t`, numbered from the end of `p`, appends `t` to `p`. */
  lemma {:induction false} ReplayInserts<V>(p: seq<V>, t: seq<V>)
    ensures ApplyEach(InsertsFrom(|p|, t), p) == Some(p + t)
    decreases |t|
  {
    var xs := InsertsFrom(|p|, t);
    if t == [] {
      assert xs == [];
      assert p + t == p;
    } else {
      var p' := p + [t[0]];
      assert xs[0] == InsertTx(|p|, t[0]);
      assert p[..|p|] + [t[0]] + p[|p|..] == p';
      assert xs[1..] == InsertsFrom(|p'|, t[1..]);
      ReplayInserts(p', t[1..]);
      assert p' + t[1..] == p + t;
    }
  }

  class ListBindable<V> {
    /** The backing list (`ListBindable._list`). */
    var list: seq<V>
    /**
     * Every firing of `on_setitem`, `on_delitem` and `on_insert`, oldest first;
     * each event's own log is the entries tagged with it.
     */
    ghost var structural: seq<StructuralFiring<V>>
    /** The `Bindable` part: the `on_new_tx` stream. */
    const base: Bindable<SeqTx<V>>

    /** `ListBindable(initial)`; without `initial` the list starts empty. */
    constructor (initial: seq<V> := [])
      ensures list == initial
      ensures structural == []
      ensures fresh(base) && base.newTxs == []
    {
      list := initial;
      structural := [];
      base := new Bindable();
    }

    /** `__len__`. */
    function Len(): (n: nat)
      reads this
      ensures n == |list|
    {
      |list|
    }

    /** `__getitem__`: the item at `i`; nothing changes. */
    method GetItem(i: int) returns (v: V)
      requires 0 <= i < |list|
      ensures v == list[i]
    {
      v := list[i];
    }

    /**
     * `__setitem__`: the item at `i` becomes `v`; `on_setitem` fires with
     * `(i, v)`; one `SetItemTx(i, v)` is broadcast exactly when `bcastTx`.
     */
    method SetItem(i: int, v: V, bcastTx: bool := true)
      requires 0 <= i < |list|
      modifies this, base
      ensures list == old(list)[i := v]
      ensures structural == old(structural) + [SetItemFired(i, v)]
      ensures base.newTxs == old(base.newTxs) + if bcastTx then [Fired(SetItemTx(i, v), [])] else []
    {
      list := list[i := v];
      structural := structural + [SetItemFired(i, v)];
      if bcastTx {
        base.BcastTx(SetItemTx(i, v));
      }
    }

    /**
     * `__delitem__`: the item at `i` is removed and the later ones shift down;
     * `on_delitem` fires with `i`; one `DelItemTx(i)` is broadcast exactly
     * when `bcastTx`.
     */
    method DelItem(i: int, bcastTx: bool := true)
      requires 0 <= i < |list|
      modifies this, base
      ensures list == old(list)[..i] + old(list)[i + 1..]
      ensures structural == old(structural) + [DelItemFired(i)]
      ensures base.newTxs == old(base.newTxs) + if bcastTx then [Fired(DelItemTx(i), [])] else []
    {
      list := list[..i] + list[i + 1..];
      structural := structural + [DelItemFired(i)];
      if bcastTx {
        base.BcastTx(DelItemTx(i));
      }
    }

    /**
     * `insert`: `v` is placed at `i` and the items from `i` on shift up;
     * `on_insert` fires with `(i, v)`; one `InsertTx(i, v)` is broadcast
     * exactly when `bcastTx`.
     */
    method Insert(i: int, v: V, bcastTx: bool := true)
      requires 0 <= i <= |list|
      modifies this, base
      ensures list == old(list)[..i] + [v] + old(list)[i..]
      ensures structural == old(structural) + [InsertFired(i, v)]
      ensures base.newTxs == old(base.newTxs) + if bcastTx then [Fired(InsertTx(i, v), [])] else []
    {
      list := list[..i] + [v] + list[i..];
      structural := structural + [InsertFired(i, v)];
      if bcastTx {
        base.BcastTx(InsertTx(i, v));
      }
    }

    /** `_export`: a group of one insert per item, at its own index, in list order. */
    function Export(): (r: SeqTx<V>)
      reads this
      ensures r.GroupedTx? && |r.txs| == |list|
      ensures forall j :: 0 <= j < |list| ==> r.txs[j] == InsertTx(j, list[j])
    {
      GroupedTx(InsertsFrom(0, list))
    }

    /**
     * `silent_apply` of each transaction kind onto this list: the list becomes
     * what `Apply` says, the structural events fire once per primitive member,
     * in recorded order, and nothing is broadcast.
     */
    method SilentApply(tx: SeqTx<V>)
      requires Apply(tx, list).Some?
      modifies this, base
      ensures Some(list) == Apply(tx, old(list))
      ensures structural == old(structural) + FiringsOf(tx)
      ensures base.newTxs == old(base.newTxs)
      decreases tx
    {
      match tx
      case SetItemTx(i, v) => SetItem(i, v, false);
      case DelItemTx(i) => DelItem(i, false);
      case InsertTx(i, v) => Insert(i, v, false);
      case GroupedTx(txs) => SilentApplyGroup(txs);
    }

    /** `GroupedTx.silent_apply`: apply the members silently, strictly in recorded order. */
    method SilentApplyGroup(txs: seq<SeqTx<V>>)
      requires ApplyEach(txs, list).Some?
      modifies this, base
      ensures Some(list) == ApplyEach(txs, old(list))
      ensures structural == old(structural) + FiringsEach(txs)
      ensures base.newTxs == old(base.newTxs)
      decreases txs
    {
      for k := 0 to |txs|
        invariant ApplyEach(txs[k..], list) == ApplyEach(txs, old(list))
        invariant structural + FiringsEach(txs[k..]) == old(structural) + FiringsEach(txs)
        invariant base.newTxs == old(base.newTxs)
      {
        GroupStep(txs, k, list);
        SilentApply(txs[k]);
      }
      assert txs[|txs|..] == [];
    }

    /**
     * `_raw_apply_tx`: apply `tx` silently. The result is `None`, so
     * `_apply_tx` re-broadcasts `tx` itself.
     */
    method RawApplyTx(tx: SeqTx<V>) returns (r: Option<seq<SeqTx<V>>>)
      requires Apply(tx, list).Some?
      modifies this, base
      ensures r == None
      ensures Some(list) == Apply(tx, old(list))
      ensures structural == old(structural) + FiringsOf(tx)
      ensures base.newTxs == old(base.newTxs)
    {
      SilentApply(tx);
      r := None;
    }

    /** `_apply_tx` on a sequence node: apply `tx`, then re-broadcast it once with `block`. */
    method ApplyTx(tx: SeqTx<V>, block: Block := [])
      requires Apply(tx, list).Some?
      modifies this, base
      ensures Some(list) == Apply(tx, old(list))
      ensures structural == old(structural) + FiringsOf(tx)
      ensures base.newTxs == old(base.newTxs) + [Fired(tx, block)]
    {
      var raw := RawApplyTx(tx);
      base.BroadcastApplied(tx, raw, block);
    }
  }

  /**
   * Export round trip: applying a node's export to an empty list reproduces
   * that node's list exactly, in the same order.
   */
  lemma ExportRoundTrip<V>(a: ListBindable<V>)
    ensures Apply(a.Export(), []) == Some(a.list)
  {
    ReplayInserts([], a.list);
    assert [] + a.list == a.list;
  }
}
