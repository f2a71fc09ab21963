# opendrop bindables in Dafny

A model of the transactional data-binding engine of opendrop
(`opendrop/utility/bindable/bindable.py`). A *bindable* is a node that applies
inbound transactions and publishes outbound ones on its `on_new_tx` event. The
model has three parts:

- **The broadcast step of `Bindable._apply_tx`** (`bindable.dfy`, module
  `Bindables`). The class `Bindable<Tx>` holds the `on_new_tx` event as a ghost
  log of `(transaction, block)` firings. `BcastTx` is `_bcast_tx`.
  `BroadcastApplied` is the loop that follows `_raw_apply_tx`: if the raw
  application returned `None`, the inbound transaction is broadcast once;
  otherwise each returned transaction is broadcast in order with the caller's
  block. The model has no inheritance, so each concrete node holds a
  `Bindable` as its `base`.
- **Scalar nodes** (`atomic.dfy`, module `AtomicBindables`).
  `BaseAtomicBindable` is a class over a `Backing`. A `Slot` backing is
  `AtomicBindableVar`'s own `_value`. An `External` backing is
  `AtomicBindableAdapter`: an optional getter and an optional setter over
  external state. The two constructors `Var` and `Adapter` stand for the two
  subclasses. `on_changed` fires without arguments, so it is a ghost fire
  counter. The log for `on_new_tx` is the base's log. A missing getter makes
  reads fail with `Unreadable` and a missing setter makes writes fail with
  `Unwritable`. In the source both are an `AttributeError`. A failed operation
  fires nothing.
- **Sequence nodes** (`sequence.dfy`, module `SequenceBindables`). The four
  transaction kinds form the datatype `SeqTx`. `Apply` and `ApplyEach` state
  what `silent_apply` does to a list. `ListBindable` is a class over a `seq`
  and merges `MutableSequenceBindable` with its only backing. It keeps one
  ghost log of the firings of `on_setitem`, `on_delitem` and `on_insert`, in
  the order they happen, and its base holds `on_new_tx`. `Export` is `_export`: a group with one insert per item, in
  list order.

`outcomes.dfy` holds the `Option`, `Result` and `Outcome` types and the two
error conditions.

The docstring of `Bindable._raw_apply_tx` (bindable.py:44-48) allows a node to
return an empty sequence to mean "broadcast nothing"; `BroadcastApplied`
covers that case, but no node here returns one. `BaseAtomicBindable._raw_apply_tx`
(bindable.py:138-139) and `MutableSequenceBindable._raw_apply_tx`
(bindable.py:266-267) both return `None`, so every applied transaction is
re-broadcast once, with the caller's block.

## Model

| member | source | states |
|---|---|---|
| `Bindables.Bindable.BcastTx` | opendrop/utility/bindable/bindable.py:27-28 | one firing of `on_new_tx` with exactly the given transaction and block is appended to the log |
| `Bindables.Bindable.BroadcastApplied` | opendrop/utility/bindable/bindable.py:20-25 | a `None` raw result broadcasts exactly `[tx]`; a returned list is broadcast exactly, in order, each with the caller's block; an empty list broadcasts nothing |
| `Bindables.Rebroadcast` | opendrop/utility/bindable/bindable.py:22 | a `None` raw result means broadcasting exactly the inbound transaction; a returned sequence is broadcast exactly as returned |
| `AtomicBindables.SameTx` | opendrop/utility/bindable/bindable.py:54-61 | two scalar transactions compare equal exactly when their values are equal, i.e. exactly when they are the same transaction |
| `AtomicBindables.RawGet` | opendrop/utility/bindable/bindable.py:177-181 | reading fails, with `Unreadable`, exactly for an adapter without a getter; a slot reads its own value |
| `AtomicBindables.RawSet` | opendrop/utility/bindable/bindable.py:183-187 | writing fails, with `Unwritable`, exactly for an adapter without a setter; a successful write keeps the kind of backing and the adapter's functions; a slot stores the new value |
| `AtomicBindables.WriteThenRead` | opendrop/utility/bindable/bindable.py:143 | for a backing that keeps the write/read law and can be read, a successful raw write is read back unchanged, and the law still holds afterwards |
| `AtomicBindables.BaseAtomicBindable.Var` | opendrop/utility/bindable/bindable.py:155-158 | a new `AtomicBindableVar` holds `initial` in its slot, and nothing has fired yet |
| `AtomicBindables.BaseAtomicBindable.Adapter` | opendrop/utility/bindable/bindable.py:169-175 | a new `AtomicBindableAdapter` holds the given getter, setter and external state, and nothing has fired yet |
| `AtomicBindables.BaseAtomicBindable.Get` | opendrop/utility/bindable/bindable.py:127-128 | returns the backing's value; fails exactly when the node is an adapter without a getter; changes nothing |
| `AtomicBindables.BaseAtomicBindable.ValueChanged` | opendrop/utility/bindable/bindable.py:113-116 | `on_changed` fires once; one transaction carrying the new value is broadcast iff `bcastTx`; the backing is untouched |
| `AtomicBindables.BaseAtomicBindable.SetValue` | opendrop/utility/bindable/bindable.py:109-111 | a successful write stores the value, fires `on_changed` once and broadcasts it iff `bcastTx`; a refused write fails with `Unwritable` and fires nothing |
| `AtomicBindables.BaseAtomicBindable.Set` | opendrop/utility/bindable/bindable.py:130-131 | after a successful `set(v)` a lawful readable node reads back `v`; `on_changed` fires once and exactly one transaction with value `v` is broadcast; a refused `set` changes and fires nothing |
| `AtomicBindables.BaseAtomicBindable.Poke` | opendrop/utility/bindable/bindable.py:102-107 | the stored value is unchanged; `on_changed` fires once and one transaction carrying the current raw value is broadcast; without a getter it fails with `Unreadable` and fires nothing |
| `AtomicBindables.BaseAtomicBindable.Export` | opendrop/utility/bindable/bindable.py:135-136 | export fails exactly for an adapter without a getter; a slot exports a transaction carrying its value |
| `AtomicBindables.BaseAtomicBindable.RawApplyTx` | opendrop/utility/bindable/bindable.py:138-139 | stores the transaction's value and fires `on_changed` once, broadcasts nothing and returns `None`; without a setter it fails and fires nothing |
| `AtomicBindables.BaseAtomicBindable.ApplyTx` | opendrop/utility/bindable/bindable.py:20-25 | on a scalar node the value is stored, `on_changed` fires once and the same transaction is re-broadcast exactly once with the given block; a refused write broadcasts nothing |
| `AtomicBindables.ExportRoundTrip` | opendrop/utility/bindable/bindable.py:135-139 | once node `b` stores what node `a` exported, `b` reads back what `a` reads (for every lawful readable `b` that accepts the write, in particular every `AtomicBindableVar`) |
| `SequenceBindables.Apply` | opendrop/utility/bindable/bindable.py:197-229 | silently applying any transaction that succeeds changes the list's length by exactly the number of inserts minus the number of deletes it contains |
| `SequenceBindables.ApplyEach` | opendrop/utility/bindable/bindable.py:223-229 | the members of a group are applied one after another to what the previous left; the length changes by the group's inserts minus its deletes |
| `SequenceBindables.Primitives` | opendrop/utility/bindable/bindable.py:223-229 | opening nested groups in place leaves only set, delete and insert transactions |
| `SequenceBindables.ApplyEachAppend` | opendrop/utility/bindable/bindable.py:227-229 | applying two runs of transactions back to back is applying the first run, then the second to its result |
| `SequenceBindables.ApplyInOrder` | opendrop/utility/bindable/bindable.py:227-229 | every transaction, however deeply grouped, has the same effect as applying its primitive members strictly in recorded order |
| `SequenceBindables.InsertThenDelete` | opendrop/utility/bindable/bindable.py:310-314 | inserting an item and then deleting at the same index gives back the original list |
| `SequenceBindables.DeleteThenReinsert` | opendrop/utility/bindable/bindable.py:310-314 | deleting an item and then inserting it back at the same index gives back the original list |
| `SequenceBindables.SetThenRestore` | opendrop/utility/bindable/bindable.py:306-307 | overwriting an item and then writing the old item back gives back the original list |
| `SequenceBindables.FiringsFollowPrimitives` | opendrop/utility/bindable/bindable.py:197-229 | silently applying a transaction fires exactly one structural event per primitive member, and the `k`-th firing is the one of the `k`-th member (set, delete or insert with its own arguments) |
| `SequenceBindables.InsertsFrom` | opendrop/utility/bindable/bindable.py:262-264 | one `InsertTx(offset + j, t[j])` per item of `t`, in order |
| `SequenceBindables.ReplayInserts` | opendrop/utility/bindable/bindable.py:261-264 | inserting the items of `t` one by one at consecutive indices starting at the end of `p` yields `p + t` |
| `SequenceBindables.ExportRoundTrip` | opendrop/utility/bindable/bindable.py:261-267 | applying a node's export to an empty list reproduces that node's list exactly, items and order |
| `SequenceBindables.ListBindable.constructor` | opendrop/utility/bindable/bindable.py:298-301 | a new node holds `initial` (the empty list when none is given), and nothing has fired yet |
| `SequenceBindables.ListBindable.Len` | opendrop/utility/bindable/bindable.py:316-317 | the length is the backing list's length |
| `SequenceBindables.ListBindable.Export` | opendrop/utility/bindable/bindable.py:261-264 | a group holding one `InsertTx(j, list[j])` per item, in list order; see `ExportRoundTrip` |
| `SequenceBindables.ListBindable.GetItem` | opendrop/utility/bindable/bindable.py:240-241 | returns the item at index `i` of the backing list and changes nothing |
| `SequenceBindables.ListBindable.SetItem` | opendrop/utility/bindable/bindable.py:243-247 | the list becomes `old[i := v]`; `on_setitem` fires once with `(i, v)` and no other structural event fires; exactly one `SetItemTx(i, v)` is broadcast iff `bcastTx` (default true) |
| `SequenceBindables.ListBindable.DelItem` | opendrop/utility/bindable/bindable.py:249-253 | the list becomes `old[..i] + old[i+1..]`; `on_delitem` fires once with `i` and no other structural event fires; exactly one `DelItemTx(i)` is broadcast iff `bcastTx` (default true) |
| `SequenceBindables.ListBindable.Insert` | opendrop/utility/bindable/bindable.py:255-259 | the list becomes `old[..i] + [v] + old[i..]`; `on_insert` fires once with `(i, v)` and no other structural event fires; exactly one `InsertTx(i, v)` is broadcast iff `bcastTx` (default true) |
| `SequenceBindables.ListBindable.SilentApply` | opendrop/utility/bindable/bindable.py:197-220 | applying any transaction silently leaves the list `Apply` gives, appends exactly `FiringsOf(tx)` to the structural log (one event per primitive member, interleaved across the three events in recorded order; see `FiringsFollowPrimitives`), and broadcasts nothing |
| `SequenceBindables.ListBindable.SilentApplyGroup` | opendrop/utility/bindable/bindable.py:223-229 | a group is applied member by member in recorded order: the list becomes what `ApplyEach` gives, the structural log grows by each member's firings in that order, and nothing is broadcast |
| `SequenceBindables.ListBindable.RawApplyTx` | opendrop/utility/bindable/bindable.py:266-267 | applies the transaction silently, with the same list and structural-log effect as `SilentApply`, and returns `None` |
| `SequenceBindables.ListBindable.ApplyTx` | opendrop/utility/bindable/bindable.py:20-25 | on a sequence node the transaction is applied, its structural events fire in order, and it is then re-broadcast exactly once with the given block (default empty) |

## Left out

- `bind_from` and `bind_to` (bindable.py:30-34) only construct a `Binding`. `Binding`, `Source` and `Sink` are not part of this model, so relay, echo suppression and the initial sync on bind are not modelled.
- `Event` and `EventConnection` are not part of this model. Each event is an append-only ghost log of its firings. A block is an opaque list of connection ids that is passed through; listener filtering and listener re-entrancy are not modelled.
- The `_AtomicBindablePropertyAdapter` descriptor (bindable.py:65-78) is attribute-access sugar over `get` and `set`.
- A group whose inserts run in reversed index order, such as `[InsertTx(1, b), InsertTx(0, a)]` applied to `[]`, succeeds in Python only because `list.insert` clamps an index past the end; in the model `Apply` gives `None` for it.
- Python index behaviour: negative indices, the `IndexError` of an out-of-range set or delete, and `list.insert` clamping an index past the end. Set and delete require `0 <= i < |list|` and insert requires `0 <= i <= |list|`. For a whole transaction the requirement is that `Apply` succeeds.
- SequenceBindables.ListBindable.SilentApply: a group that fails part-way in Python leaves its earlier members applied; the model requires the whole group to be applicable, so partial application is not captured.
- The adapter's getter and setter are pure functions of an external state value carried in the backing. Their own side effects and any change to the external state made outside `set` are not modelled; only `poke` re-reading that state is.
- AtomicBindables.BaseAtomicBindable.Set: reading back the written value is promised only for backings that keep the write/read law. The source states that law as a requirement on every backing, but cannot enforce it for an adapter's external functions.
- Applying a transaction of the wrong kind is ruled out by the types.
- `MutableSequence` mixin methods that Python derives from the five primitives (`append`, `extend`, `pop`, iteration) are not modelled.
- `__str__` and `__repr__` are not modelled.
