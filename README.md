# Sync table with key leases

A Dafny model of `sync_socket`, the replicated key-value table that py2p
layers on its mesh network. Each node keeps two dictionaries: `data` maps
keys to values, and `metadata` maps keys to a `metatuple`, which records the
owner and timestamp of the last write. A write may proceed only when the
lease rule permits it. A non-empty value overwrites the key in both
dictionaries. An empty value (`''` or `b''`) deletes the key from both.
Incoming `store` messages and local writes (`__setitem__`, `set`,
`update`) go through the same store step.

Files:

- `byte_order.dfy` (module `ByteOrder`): byte strings, and the `<` order
  that Python gives `bytes`. The lease rule uses this order to break
  timestamp ties between owners. Proved: the order is irreflexive,
  asymmetric, total and transitive.
- `sync_table.dfy` (module `SyncTable`): the pure specification, written as
  functions on a snapshot `Table(data, metadata)`. It holds the permission
  test `MayWrite`, plus `Store`, `HandleStore`, `SetItem` and `Update`. The
  lemmas state what the source promises about each of them.
- `sync_socket.dfy` (module `Sync`): class `SyncSocket`. Its two map fields
  are updated in place by `Store`, `HandleStore`, `SetItem`, `Set` and
  `Update`. Each method is proved to leave the fields exactly as the matching
  function says, and to keep the invariant `Valid()`. `Get`, `GetItem` and
  `Len` only read.

Abstractions:

- The wall clock (`getUTC()`) becomes parameters. An incoming message is
  handled against one reading `now`. A local write (`__setitem__`) reads the
  clock twice: once for the timestamp it stores (py_src/sync.py:97) and once
  inside `__store` for the lease-expiry test (py_src/sync.py:54). The model
  passes both as a `Clock(stamp, now)`, and the two readings may differ.
  `update` takes one `Clock` per pair.
- The broadcast of a local write (`self.send(key, data, type=flags.store)`)
  is recorded in a ghost `outbox` of `(key, value)` pairs.
- `from_base_58` (in `base.py`) becomes a function parameter `fromBase58`.
  `base.py` is not part of this model.
- `flags.store` is the single byte `0x0B` from the wire protocol's flag
  table.
- Keys, values and owner ids are byte strings. `sanitize_packet` (in
  `utils.py`) is taken as the identity on byte strings. `utils.py` is not
  part of this model.

Where the docstring and the code disagree, the model follows the code. The
docstring of `__store` (py_src/sync.py:36-41) lists four grounds for
permission. The test at py_src/sync.py:53-55 has two more: the stored write
is newer than the incoming one, or the timestamps tie and the stored owner
sorts after the incoming one. Under those two extra grounds, writes by
different owners commute while their leases are live
(`ConcurrentWritesCommute`). The key ends holding the write that is first
in (timestamp, owner) order, unless the stored write precedes it; then the
table is left unchanged. That lemma needs all of its premises: leasing
on, both values non-empty, different owners, both leases live, a
well-formed table, and any stored write held by a third owner whose lease
is live. A write by the stored owner always passes, so without the last
premise the delivery order can matter.

## Model

| member | source | states |
|---|---|---|
| `ByteOrder.Less` | py_src/sync.py:55 | Python's `<` on bytes; a proper prefix sorts before the longer string |
| `ByteOrder.LessIrreflexive` | py_src/sync.py:55 | no owner sorts before itself under the bytes order used by the tie-break |
| `ByteOrder.LessAsymmetric` | py_src/sync.py:55 | if `a < b` on bytes then not `b < a` |
| `ByteOrder.LessTotal` | py_src/sync.py:55 | two different owners are always ordered one way or the other, so a timestamp tie between different owners is always broken |
| `ByteOrder.LessTransitive` | py_src/sync.py:55 | the bytes order used by the tie-break is transitive |
| `SyncTable.MayWrite` | py_src/sync.py:52-55 | a write is permitted iff no other owner holds a live lease (not older than `now - 3600`) that the write does not precede in (timestamp, owner) order; both directions |
| `SyncTable.LeaseLastsAnHour` | py_src/sync.py:52-55 | a later write by another owner is refused while `now <= taken + 3600` and permitted once `now > taken + 3600` |
| `SyncTable.PrecedesTotal` | py_src/sync.py:54-55 | between writes of two different owners, exactly one precedes the other |
| `SyncTable.PrecedesTransitive` | py_src/sync.py:54-55 | precedence between writes is transitive |
| `SyncTable.Store` | py_src/sync.py:35-63 | every other key keeps its value and metadata; the only exception is `KeyError` |
| `SyncTable.StoreWritesWhenPermitted` | py_src/sync.py:56-58 | a permitted non-empty write leaves the value at `data[key]` and the new metadata at `metadata[key]`, with no exception |
| `SyncTable.StoreDeletesWhenPermitted` | py_src/sync.py:59-61 | a permitted empty write of a present key removes it from both dictionaries, with no exception |
| `SyncTable.StoreDeleteMissingRaises` | py_src/sync.py:59-61 | an empty write of a missing key raises `KeyError` and changes nothing, even with `error=False` |
| `SyncTable.StoreDeniedChangesNothing` | py_src/sync.py:53-63 | a refused write changes neither dictionary; it raises `KeyError` iff `error` is set, and is otherwise a silent no-op |
| `SyncTable.StoreRaisesExactly` | py_src/sync.py:35-63 | `__store` raises only `KeyError`, exactly when a refused write has `error` set or an empty write targets a missing key |
| `SyncTable.StoreKeepsWellFormed` | py_src/sync.py:56-61 | every outcome keeps `data` and `metadata` on the same key set, with no empty stored value |
| `SyncTable.StoreSize` | py_src/sync.py:56-61 | the number of keys grows by one for a permitted write of a new key, shrinks by one for a permitted delete, and is otherwise unchanged |
| `SyncTable.StoreRedeliveryIdempotent` | py_src/sync.py:53-61 | delivering the same write twice, value or delete, leaves the table of one delivery; when the first delivery deleted the key, the second raises `KeyError` from the missing `data` entry although errors are off |
| `SyncTable.TwoDeliveries` | py_src/sync.py:52-58 | under the premises of `ConcurrentWritesCommute`, delivering one write and then the other leaves the table unchanged if the stored write precedes the earlier of the two in (timestamp, owner) order, and otherwise stores the earlier write's value and metadata at the key |
| `SyncTable.ConcurrentWritesCommute` | py_src/sync.py:52-58 | with leasing on, two non-empty writes by different owners, both leases live at `now`, and any stored write held by a third owner with a live lease, a well-formed table ends the same in either delivery order; that table holds the write first in (timestamp, owner) order, or is unchanged when the stored write precedes it |
| `SyncTable.ReadAfterStore` | py_src/sync.py:56-61 | after a permitted write, a read of the key gives the new value, or nothing after a delete; reads of other keys are unchanged |
| `SyncTable.SizesAgree` | py_src/sync.py:153-154 | in a well-formed table, `len(data)` equals the number of metadata entries |
| `SyncTable.HoldsValue` | py_src/sync.py:90 | in a well-formed table, the truthiness of `data.get(key)` is the presence of the key |
| `SyncTable.HandleStore` | py_src/sync.py:73-94 | an unhandled message or an `IndexError` changes nothing; any change is to the key in packet 1 only, and needs at least three packets |
| `SyncTable.HandleStoreIgnoresOtherFlags` | py_src/sync.py:86-87 | a message whose first packet is not the `store` flag is not handled and changes nothing |
| `SyncTable.HandleStoreSkipsKnownReplay` | py_src/sync.py:89-91 | a five-packet replay for a key that already holds a value is not handled and changes nothing, whatever lease it carries |
| `SyncTable.HandleStoreStoresQuietly` | py_src/sync.py:88-94 | any other `store` message is stored with `error=False`, under packet 1 as key and packet 2 as value; the owner and timestamp come from packets 3 and 4 in the five-packet form, from sender and send time otherwise; it is handled unless deleting a missing key raises `KeyError` |
| `SyncTable.HandleStoreRecordsMessageMeta` | py_src/sync.py:88-93 | a permitted `store` message with a non-empty value, not a skipped replay, is handled; the key in packet 1 then reads packet 2, with metadata from packets 3 and 4 in the five-packet form and from the sender and send time otherwise |
| `SyncTable.HandleStoreShortMessage` | py_src/sync.py:86-93 | an empty message, or a `store` message with fewer than three packets, raises `IndexError` and changes nothing |
| `SyncTable.HandleStoreKeepsWellFormed` | py_src/sync.py:86-94 | receiving a message keeps both dictionaries on the same keys |
| `SyncTable.SetItem` | py_src/sync.py:96-100 | a local write that raises leaves a well-formed table unchanged |
| `SyncTable.SetItemOwnKey` | py_src/sync.py:96-100 | a node can always write a non-empty value to a key it owns or nobody holds; the owner is the node's id and the timestamp is the first clock reading |
| `SyncTable.SetItemConflictRaises` | py_src/sync.py:96-100 | a local write whose stamp falls into another owner's lease, live at the second clock reading, raises `KeyError` and changes nothing |
| `SyncTable.UpdateSendsAppliedPrefix` | py_src/sync.py:132-134 | `update` broadcasts exactly the pairs it applied, as a prefix of the input in order; it succeeds iff it applied all of them; the only exception is `KeyError` |
| `SyncTable.UpdateStopsAtConflict` | py_src/sync.py:132-134 | after the first conflict no further pair is applied: the result equals that of the batch cut just after the failing pair |
| `SyncTable.Update` | py_src/sync.py:121-134 | `update` ends either with `Ok` or with `KeyError`; its further promises are the lemmas `UpdateSendsAppliedPrefix`, `UpdateStopsAtConflict`, `UpdateSplits` and `UpdateKeepsWellFormed` |
| `SyncTable.UpdateSplits` | py_src/sync.py:132-134 | pairs are applied one at a time: a split batch runs as its first half and then, only if that succeeded, its second half |
| `SyncTable.UpdateFailedPrefix` | py_src/sync.py:132-134 | once the first part of a batch raises, the pairs after it change nothing and are not sent |
| `SyncTable.UpdateAppliedPrefix` | py_src/sync.py:132-134 | when the first part of a batch succeeds, the rest runs from the table it left, and the sent pairs are the two parts' sends in order |
| `SyncTable.UpdateStep` | py_src/sync.py:132-134 | one iteration of the loop: the batch from position `i` begins with the write of pair `i`, and continues past it only when that write did not raise |
| `SyncTable.UpdateKeepsWellFormed` | py_src/sync.py:132-134 | a batch of local writes keeps both dictionaries on the same keys |
| `Sync.SyncSocket.constructor` | py_src/sync.py:27-33 | a new node has empty `data` and `metadata`, the given id and leasing flag, and nothing sent |
| `Sync.SyncSocket.Store` | py_src/sync.py:35-63 | the in-place store leaves the dictionaries and the status exactly as `SyncTable.Store` does, and keeps `Valid()` |
| `Sync.SyncSocket.HandleStore` | py_src/sync.py:73-94 | the in-place handler matches `SyncTable.HandleStore` and keeps `Valid()` |
| `Sync.SyncSocket.SetItem` | py_src/sync.py:96-104 | stores under the node's id, stamped with the first clock reading and lease-tested at the second, with errors on; it appends `(key, value)` to the outbox only when the store did not raise |
| `Sync.SyncSocket.Set` | py_src/sync.py:106-119 | same effect as `SetItem` |
| `Sync.SyncSocket.Update` | py_src/sync.py:121-134 | the loop leaves the dictionaries, the outbox and the status as `SyncTable.Update` does |
| `Sync.SyncSocket.GetItem` | py_src/sync.py:136-138 | returns the value at a present key, and `KeyError` iff the key is absent |
| `Sync.SyncSocket.Get` | py_src/sync.py:140-151 | returns the value at a present key, and `ret` otherwise |
| `Sync.SyncSocket.Len` | py_src/sync.py:153-154 | returns the number of keys in `data`, which equals the number of metadata entries when `Valid()` |

## Left out

- The mesh superclass, `register_handler`, the handler argument of `__handle_store`, and the leasing suffix added to the protocol name (py_src/sync.py:12, 27-30, 33). These are network setup and dispatch plumbing in files that are not part of this model.
- `_send_handshake_response` and `__iter__` (py_src/sync.py:65-71, 159-160). The key iteration only feeds the handshake replay, which is network output.
- `__delitem__` (py_src/sync.py:156-157). It stores `sanitize_packet(None)`, and what that returns is defined in `utils.py`, which is not part of this model. The `data is None` branch of `__setitem__` (py_src/sync.py:101-102) cannot occur here, because values are byte strings.
- `sanitize_packet` conversions between `str` and `bytes`. Python's `TypeError` when a `str` owner is compared with a `bytes` owner is not modelled either.
- `from_base_58` is a total parameter. Its failure on a malformed timestamp packet is not modelled.
- Network sends are recorded in a ghost outbox and are never performed. Send failures are not modelled.
- Sync.SyncSocket.Update: takes the two clock readings of each pair as an input list of `Clock` values (`|clock| == |pairs|`). It does not model the clock as a running source, so nothing says the readings increase.
