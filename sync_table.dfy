/** The replicated key-value table of the sync layer, as values.

    A sync node keeps two dictionaries: `data` (key to value) and `metadata`
    (key to the owner and timestamp of the write that put the value there).
    This module states, as functions on a snapshot of both dictionaries, what
    storing a write, receiving a `store` message, writing locally and reading
    do, and proves what the lease rule promises. Module Sync runs the same
    steps in place on a node object and is proved against these functions. */
module SyncTable {
  import opened ByteOrder

  /** How long a write holds its lease on a key, in seconds. */
  const LeaseSeconds: int := 3600

  /** The `store` flag of the wire protocol's flag table (a single byte). */
  const StoreFlag: Bytes := [0x0B]

  datatype Option<T> = None | Some(value: T)

  /** `metatuple`: who wrote a key last, and when (seconds since the epoch). */
  datatype Meta = Meta(owner: Bytes, timestamp: int)

  /** A snapshot of a node's two dictionaries. */
  datatype Table = Table(data: map<Bytes, Bytes>, metadata: map<Bytes, Meta>)

  /** The Python exceptions that escape the table's operations. */
  datatype Fault = KeyError | IndexError

  datatype Status = Ok | Raised(fault: Fault)

  /** What the `store` handler reports to the dispatch chain: `None`, `True`,
      or an exception that escapes it. */
  datatype Handling = NotHandled | Handled | Failed(fault: Fault)

  /** The two clock readings of one local write: `stamp`, read first, is the
      write's timestamp; `now`, read inside the store step, is the time the
      lease-expiry test compares against. */
  datatype Clock = Clock(stamp: int, now: int)

  /** A received message: its packets, its sender and its send time. */
  datatype Message = Message(packets: seq<Bytes>, sender: Bytes, time: int)

  /** The result of a batch of local writes: the final table, the `(key,
      value)` pairs broadcast in order, and whether an exception escaped. */
  datatype Writes = Writes(table: Table, sent: seq<(Bytes, Bytes)>, status: Status)

  /** The invariant every operation keeps: both dictionaries have the same
      keys, and no stored value is empty (an empty value means "delete"). */
  predicate WellFormed(t: Table)
  {
    && t.data.Keys == t.metadata.Keys
    && forall k :: k in t.data ==> t.data[k] != []
  }

  /** `self.metadata.get(key, None)` */
  function MetaAt(t: Table, key: Bytes): Option<Meta>
  {
    if key in t.metadata then Some(t.metadata[key]) else None
  }

  /** `self.data.get(key, None)` */
  function Lookup(t: Table, key: Bytes): Option<Bytes>
  {
    if key in t.data then Some(t.data[key]) else None
  }

  /** The permission test of `__store`: a write may proceed when there is no
      entry, leasing is off, the writer already owns the key, the stored write
      is newer, the stored lease has lapsed, or the timestamps tie and the
      stored owner sorts after the writer. */
  predicate MayWrite(stored: Option<Meta>, incoming: Meta, leasing: bool, now: int)
    ensures MayWrite(stored, incoming, leasing, now) <==> !LeaseHeld(stored, incoming, leasing, now)
  {
    || stored.None?
    || !leasing
    || stored.value.owner == incoming.owner
    || stored.value.timestamp > incoming.timestamp
    || stored.value.timestamp < now - LeaseSeconds
    || (stored.value.timestamp == incoming.timestamp && Less(incoming.owner, stored.value.owner))
  }

  /** Between writes of two different owners, the one that comes first in
      (timestamp, owner) order wins. */
  predicate Precedes(a: Meta, b: Meta)
  {
    a.timestamp < b.timestamp || (a.timestamp == b.timestamp && Less(a.owner, b.owner))
  }

  /** A lease blocks a write: leasing is on and another owner holds the key
      under a lease that has not lapsed and that the write does not precede. */
  predicate LeaseHeld(stored: Option<Meta>, incoming: Meta, leasing: bool, now: int)
  {
    && leasing
    && stored.Some?
    && stored.value.owner != incoming.owner
    && stored.value.timestamp >= now - LeaseSeconds
    && !Precedes(incoming, stored.value)
  }

  /** `__store(key, value, meta, error)`, with the clock read as `now`. */
  function Store(t: Table, key: Bytes, value: Bytes, meta: Meta, error: bool, leasing: bool, now: int): (r: (Table, Status))
    ensures r.0.data - {key} == t.data - {key} && r.0.metadata - {key} == t.metadata - {key}
    ensures r.1 == Ok || r.1 == Raised(KeyError)
  {
    if MayWrite(MetaAt(t, key), meta, leasing, now) then
      if value != [] then
        (Table(t.data[key := value], t.metadata[key := meta]), Ok)
      else if key !in t.data then
        (t, Raised(KeyError))
      else if key !in t.metadata then
        (Table(t.data - {key}, t.metadata), Raised(KeyError))
      else
        (Table(t.data - {key}, t.metadata - {key}), Ok)
    else if error then
      (t, Raised(KeyError))
    else
      (t, Ok)
  }

  /** The metadata a `store` message is stored under: owner and timestamp
      carried in packets 3 and 4 of the five-packet handshake replay, the
      message's sender and send time otherwise. */
  function StoreMeta(msg: Message, fromBase58: Bytes -> int): Meta
  {
    if |msg.packets| == 5 then Meta(msg.packets[3], fromBase58(msg.packets[4]))
    else Meta(msg.sender, msg.time)
  }

  /** Python truthiness of `self.data.get(key)`. */
  predicate HoldsValue(t: Table, key: Bytes)
    ensures WellFormed(t) ==> (HoldsValue(t, key) <==> key in t.data)
  {
    key in t.data && t.data[key] != []
  }

  /** `__handle_store(msg, handler)` */
  function HandleStore(t: Table, msg: Message, fromBase58: Bytes -> int, leasing: bool, now: int): (r: (Table, Handling))
    ensures (r.1 == NotHandled || r.1 == Failed(IndexError)) ==> r.0 == t
    ensures r.0 != t ==>
      && |msg.packets| >= 3
      && r.0.data - {msg.packets[1]} == t.data - {msg.packets[1]}
      && r.0.metadata - {msg.packets[1]} == t.metadata - {msg.packets[1]}
  {
    var p := msg.packets;
    if |p| == 0 then (t, Failed(IndexError))
    else if p[0] != StoreFlag then (t, NotHandled)
    else if |p| == 5 && HoldsValue(t, p[1]) then (t, NotHandled)
    else if |p| < 3 then (t, Failed(IndexError))
    else
      var r := Store(t, p[1], p[2], StoreMeta(msg, fromBase58), false, leasing, now);
      (r.0, if r.1.Ok? then Handled else Failed(r.1.fault))
  }

  /** The store step of `__setitem__`: the node's own id as owner, the first
      clock reading as timestamp, the second as the time of the lease test,
      and a lease conflict raises. */
  function SetItem(t: Table, id: Bytes, key: Bytes, value: Bytes, leasing: bool, clock: Clock): (r: (Table, Status))
    ensures WellFormed(t) && r.1.Raised? ==> r.0 == t
  {
    Store(t, key, value, Meta(id, clock.stamp), true, leasing, clock.now)
  }

  /** `update(pairs)`: `__setitem__` on each pair in order, `clock[i]` being
      the readings the i-th call takes; the first exception ends the batch. */
  function Update(t: Table, id: Bytes, pairs: seq<(Bytes, Bytes)>, clock: seq<Clock>, leasing: bool): (w: Writes)
    requires |clock| == |pairs|
    ensures w.status == Ok || w.status == Raised(KeyError)
    decreases |pairs|
  {
    if pairs == [] then Writes(t, [], Ok)
    else
      var r := SetItem(t, id, pairs[0].0, pairs[0].1, leasing, clock[0]);
      if r.1.Raised? then Writes(r.0, [], r.1)
      else
        var w := Update(r.0, id, pairs[1..], clock[1..], leasing);
        Writes(w.table, [pairs[0]] + w.sent, w.status)
  }

  // ---------------------------------------------------------------------
  // The permission rule

  /** A lease taken at `taken` keeps out every later write by another owner
      up to `taken + LeaseSeconds`, and no longer. */
  lemma LeaseLastsAnHour(holder: Meta, incoming: Meta, now: int)
    requires holder.owner != incoming.owner && holder.timestamp < incoming.timestamp
    ensures MayWrite(Some(holder), incoming, true, now) <==> now > holder.timestamp + LeaseSeconds
  {
  }

  /** Precedence is a strict total order on writes of different owners. */
  lemma PrecedesTotal(a: Meta, b: Meta)
    requires a.owner != b.owner
    ensures Precedes(a, b) != Precedes(b, a)
  {
    if a.timestamp == b.timestamp {
      LessTotal(a.owner, b.owner);
      if Less(a.owner, b.owner) {
        LessAsymmetric(a.owner, b.owner);
      }
    }
  }

  lemma PrecedesTransitive(a: Meta, b: Meta, c: Meta)
    requires Precedes(a, b) && Precedes(b, c)
    ensures Precedes(a, c)
  {
    if a.timestamp == b.timestamp == c.timestamp {
      LessTransitive(a.owner, b.owner, c.owner);
    }
  }

  // ---------------------------------------------------------------------
  // Storing

  /** A permitted write of a non-empty value puts the value and its metadata
      at the key and succeeds. */
  lemma StoreWritesWhenPermitted(t: Table, key: Bytes, value: Bytes, meta: Meta, error: bool, leasing: bool, now: int)
    requires MayWrite(MetaAt(t, key), meta, leasing, now) && value != []
    ensures var r := Store(t, key, value, meta, error, leasing, now);
      && Lookup(r.0, key) == Some(value) && MetaAt(r.0, key) == Some(meta) && r.1 == Ok
  {
  }

  /** A permitted write of the empty value removes the key from both
      dictionaries. */
  lemma StoreDeletesWhenPermitted(t: Table, key: Bytes, meta: Meta, error: bool, leasing: bool, now: int)
    requires WellFormed(t) && key in t.data
    requires MayWrite(MetaAt(t, key), meta, leasing, now)
    ensures var r := Store(t, key, [], meta, error, leasing, now);
      && Lookup(r.0, key) == None && MetaAt(r.0, key) == None && r.1 == Ok
  {
  }

  /** Deleting a key that is not there raises `KeyError` and changes nothing,
      whether or not the caller asked for lease errors. */
  lemma StoreDeleteMissingRaises(t: Table, key: Bytes, meta: Meta, error: bool, leasing: bool, now: int)
    requires WellFormed(t) && key !in t.data
    ensures Store(t, key, [], meta, error, leasing, now) == (t, Raised(KeyError))
  {
  }

  /** A refused write changes neither dictionary; it raises `KeyError` only
      when the caller asked for errors. */
  lemma StoreDeniedChangesNothing(t: Table, key: Bytes, value: Bytes, meta: Meta, error: bool, leasing: bool, now: int)
    requires !MayWrite(MetaAt(t, key), meta, leasing, now)
    ensures var r := Store(t, key, value, meta, error, leasing, now);
      r.0 == t && (r.1 == Raised(KeyError) <==> error) && (r.1 == Ok <==> !error)
  {
  }

  /** `__store` raises only `KeyError`, and exactly for a refused write with
      `error` set or for deleting a missing key. */
  lemma StoreRaisesExactly(t: Table, key: Bytes, value: Bytes, meta: Meta, error: bool, leasing: bool, now: int)
    requires WellFormed(t)
    ensures var r := Store(t, key, value, meta, error, leasing, now);
      && r.1 != Raised(IndexError)
      && (r.1 == Raised(KeyError) <==>
            (!MayWrite(MetaAt(t, key), meta, leasing, now) && error) || (value == [] && key !in t.data))
  {
  }

  /** Every outcome of `__store` keeps both dictionaries on the same keys. */
  lemma StoreKeepsWellFormed(t: Table, key: Bytes, value: Bytes, meta: Meta, error: bool, leasing: bool, now: int)
    requires WellFormed(t)
    ensures WellFormed(Store(t, key, value, meta, error, leasing, now).0)
  {
  }

  /** The number of keys grows by one when a new key is written, shrinks by
      one when a key is deleted, and stays the same otherwise. */
  lemma StoreSize(t: Table, key: Bytes, value: Bytes, meta: Meta, error: bool, leasing: bool, now: int)
    requires WellFormed(t)
    ensures var r := Store(t, key, value, meta, error, leasing, now);
      var allowed := MayWrite(MetaAt(t, key), meta, leasing, now);
      |r.0.data| == |t.data| + (if allowed && value != [] && key !in t.data then 1
                                else if allowed && value == [] && key in t.data then -1
                                else 0)
  {
  }

  /** A write delivered twice leaves the table of one delivery. A delete is
      the exception for the status: once the first delivery has removed the
      key, the second finds nothing to delete and raises `KeyError`, although
      errors are off. */
  lemma StoreRedeliveryIdempotent(t: Table, key: Bytes, value: Bytes, meta: Meta, leasing: bool, now: int)
    ensures var once := Store(t, key, value, meta, false, leasing, now).0;
      Store(once, key, value, meta, false, leasing, now).0 == once
    ensures var once := Store(t, key, value, meta, false, leasing, now).0;
      value == [] && key in t.data && key !in once.data ==>
        Store(once, key, value, meta, false, leasing, now).1 == Raised(KeyError)
  {
  }

  /** Two deliveries in a row, with leasing on, of non-empty writes by
      different owners whose leases are live at `now`, to a key that is free
      or held under a live lease by a third owner: the key ends holding the
      write that comes first in (timestamp, owner) order, unless the stored
      write precedes it, in which case the table is unchanged. */
  lemma TwoDeliveries(t: Table, key: Bytes, va: Bytes, ma: Meta, vb: Bytes, mb: Meta, now: int)
    requires WellFormed(t)
    requires va != [] && vb != []
    requires ma.owner != mb.owner
    requires ma.timestamp >= now - LeaseSeconds && mb.timestamp >= now - LeaseSeconds
    requires key in t.metadata ==>
      && t.metadata[key].owner != ma.owner && t.metadata[key].owner != mb.owner
      && t.metadata[key].timestamp >= now - LeaseSeconds
    ensures var lo := if Precedes(ma, mb) then ma else mb;
      var vlo := if Precedes(ma, mb) then va else vb;
      Store(Store(t, key, va, ma, false, true, now).0, key, vb, mb, false, true, now).0
        == if key in t.metadata && !Precedes(lo, t.metadata[key]) then t
           else Table(t.data[key := vlo], t.metadata[key := lo])
  {
    PrecedesTotal(ma, mb);
    if key in t.metadata {
      var m0 := t.metadata[key];
      PrecedesTotal(ma, m0);
      PrecedesTotal(mb, m0);
      if Precedes(ma, mb) && !Precedes(ma, m0) && Precedes(mb, m0) {
        PrecedesTransitive(ma, mb, m0);
      }
      if Precedes(mb, ma) && !Precedes(mb, m0) && Precedes(ma, m0) {
        PrecedesTransitive(mb, ma, m0);
      }
    }
  }

  /** With leasing on, two non-empty writes of different owners converge:
      delivering them to a well-formed node in either order leaves the same
      table. The key ends holding the write that comes first in (timestamp,
      owner) order, unless the stored write precedes it, in which case the
      table is unchanged. Both leases must be live at `now`, and a key
      already stored must belong to a third owner whose lease is live too: a
      write by the stored owner always passes, so without that premise the
      order can matter. */
  lemma ConcurrentWritesCommute(t: Table, key: Bytes, va: Bytes, ma: Meta, vb: Bytes, mb: Meta, now: int)
    requires WellFormed(t)
    requires va != [] && vb != []
    requires ma.owner != mb.owner
    requires ma.timestamp >= now - LeaseSeconds && mb.timestamp >= now - LeaseSeconds
    requires key in t.metadata ==>
      && t.metadata[key].owner != ma.owner && t.metadata[key].owner != mb.owner
      && t.metadata[key].timestamp >= now - LeaseSeconds
    ensures Store(Store(t, key, va, ma, false, true, now).0, key, vb, mb, false, true, now).0
         == Store(Store(t, key, vb, mb, false, true, now).0, key, va, ma, false, true, now).0
    ensures var lo := if Precedes(ma, mb) then ma else mb;
      var vlo := if Precedes(ma, mb) then va else vb;
      Store(Store(t, key, va, ma, false, true, now).0, key, vb, mb, false, true, now).0
        == if key in t.metadata && !Precedes(lo, t.metadata[key]) then t
           else Table(t.data[key := vlo], t.metadata[key := lo])
  {
    PrecedesTotal(ma, mb);
    TwoDeliveries(t, key, va, ma, vb, mb, now);
    TwoDeliveries(t, key, vb, mb, va, ma, now);
  }

  /** A value written with permission is what a read returns afterwards, and
      reads of other keys are unaffected. */
  lemma ReadAfterStore(t: Table, key: Bytes, value: Bytes, meta: Meta, error: bool, leasing: bool, now: int, other: Bytes)
    requires WellFormed(t)
    requires MayWrite(MetaAt(t, key), meta, leasing, now)
    requires other != key
    ensures var r := Store(t, key, value, meta, error, leasing, now);
      && Lookup(r.0, key) == (if value != [] then Some(value) else None)
      && Lookup(r.0, other) == Lookup(t, other)
  {
  }

  /** Both dictionaries have as many entries as there are keys. */
  lemma SizesAgree(t: Table)
    requires WellFormed(t)
    ensures |t.data| == |t.metadata|
  {
  }

  // ---------------------------------------------------------------------
  // Receiving `store` messages

  /** A message whose first packet is not the `store` flag is left to the
      next handler, and changes nothing. */
  lemma HandleStoreIgnoresOtherFlags(t: Table, msg: Message, fromBase58: Bytes -> int, leasing: bool, now: int)
    requires |msg.packets| > 0 && msg.packets[0] != StoreFlag
    ensures HandleStore(t, msg, fromBase58, leasing, now) == (t, NotHandled)
  {
  }

  /** The five-packet handshake replay of a key this node already holds is
      ignored, whatever lease it carries. */
  lemma HandleStoreSkipsKnownReplay(t: Table, msg: Message, fromBase58: Bytes -> int, leasing: bool, now: int)
    requires WellFormed(t)
    requires |msg.packets| == 5 && msg.packets[0] == StoreFlag && msg.packets[1] in t.data
    ensures HandleStore(t, msg, fromBase58, leasing, now) == (t, NotHandled)
  {
  }

  /** Every other `store` message is stored quietly under the key in packet 1
      with the value in packet 2: a refused write is dropped without an error,
      and the only exception that escapes is `KeyError` from deleting a key
      that is not there. */
  lemma HandleStoreStoresQuietly(t: Table, msg: Message, fromBase58: Bytes -> int, leasing: bool, now: int)
    requires WellFormed(t)
    requires |msg.packets| >= 3 && msg.packets[0] == StoreFlag
    requires !(|msg.packets| == 5 && msg.packets[1] in t.data)
    ensures var p := msg.packets;
      var r := HandleStore(t, msg, fromBase58, leasing, now);
      && r.0 == Store(t, p[1], p[2], StoreMeta(msg, fromBase58), false, leasing, now).0
      && (r.1 == Handled || r.1 == Failed(KeyError))
      && (r.1 == Failed(KeyError) <==> p[2] == [] && p[1] !in t.data)
  {
  }

  /** A permitted `store` message with a non-empty value is handled and
      leaves its value at the key in packet 1, recorded under the owner and
      timestamp of packets 3 and 4 in the five-packet form, and under the
      message's sender and send time otherwise. */
  lemma HandleStoreRecordsMessageMeta(t: Table, msg: Message, fromBase58: Bytes -> int, leasing: bool, now: int)
    requires WellFormed(t)
    requires |msg.packets| >= 3 && msg.packets[0] == StoreFlag && msg.packets[2] != []
    requires !(|msg.packets| == 5 && msg.packets[1] in t.data)
    requires var p := msg.packets;
      var m := if |p| == 5 then Meta(p[3], fromBase58(p[4])) else Meta(msg.sender, msg.time);
      MayWrite(MetaAt(t, p[1]), m, leasing, now)
    ensures var p := msg.packets;
      var r := HandleStore(t, msg, fromBase58, leasing, now);
      && r.1 == Handled
      && Lookup(r.0, p[1]) == Some(p[2])
      && MetaAt(r.0, p[1])
         == if |p| == 5 then Some(Meta(p[3], fromBase58(p[4]))) else Some(Meta(msg.sender, msg.time))
  {
  }

  /** A `store` message too short to carry a key and a value raises
      `IndexError` and changes nothing. */
  lemma HandleStoreShortMessage(t: Table, msg: Message, fromBase58: Bytes -> int, leasing: bool, now: int)
    requires |msg.packets| < 3
    requires |msg.packets| == 0 || msg.packets[0] == StoreFlag
    ensures HandleStore(t, msg, fromBase58, leasing, now) == (t, Failed(IndexError))
  {
  }

  /** Receiving any message keeps both dictionaries on the same keys. */
  lemma HandleStoreKeepsWellFormed(t: Table, msg: Message, fromBase58: Bytes -> int, leasing: bool, now: int)
    requires WellFormed(t)
    ensures WellFormed(HandleStore(t, msg, fromBase58, leasing, now).0)
  {
    var p := msg.packets;
    if |p| >= 3 {
      StoreKeepsWellFormed(t, p[1], p[2], StoreMeta(msg, fromBase58), false, leasing, now);
    }
  }

  // ---------------------------------------------------------------------
  // Local writes

  /** A node can always write a key it owns or a key nobody holds. */
  lemma SetItemOwnKey(t: Table, id: Bytes, key: Bytes, value: Bytes, leasing: bool, clock: Clock)
    requires value != []
    requires key in t.metadata ==> t.metadata[key].owner == id
    ensures SetItem(t, id, key, value, leasing, clock)
         == (Table(t.data[key := value], t.metadata[key := Meta(id, clock.stamp)]), Ok)
  {
  }

  /** A local write into someone else's live lease raises `KeyError` and
      changes nothing. */
  lemma SetItemConflictRaises(t: Table, id: Bytes, key: Bytes, value: Bytes, leasing: bool, clock: Clock)
    requires LeaseHeld(MetaAt(t, key), Meta(id, clock.stamp), leasing, clock.now)
    ensures SetItem(t, id, key, value, leasing, clock) == (t, Raised(KeyError))
  {
  }

  /** `update` broadcasts the pairs it applied, in order, and nothing else; it
      succeeds exactly when it applied them all, and the only exception that
      ends it early is `KeyError`. */
  lemma {:induction false} UpdateSendsAppliedPrefix(t: Table, id: Bytes, pairs: seq<(Bytes, Bytes)>, clock: seq<Clock>, leasing: bool)
    requires |clock| == |pairs|
    ensures var w := Update(t, id, pairs, clock, leasing);
      && |w.sent| <= |pairs| && w.sent == pairs[..|w.sent|]
      && (w.status == Ok <==> |w.sent| == |pairs|)
      && (w.status == Ok || w.status == Raised(KeyError))
    decreases |pairs|
  {
    if pairs != [] {
      var r := SetItem(t, id, pairs[0].0, pairs[0].1, leasing, clock[0]);
      if r.1.Ok? {
        UpdateSendsAppliedPrefix(r.0, id, pairs[1..], clock[1..], leasing);
        var w := Update(r.0, id, pairs[1..], clock[1..], leasing);
        assert pairs[..1 + |w.sent|] == [pairs[0]] + pairs[1..][..|w.sent|];
      }
    }
  }

  /** Pairs after the first conflict are not applied: a batch that fails
      ends where the same batch cut just after the failing pair ends. */
  lemma {:induction false} UpdateStopsAtConflict(t: Table, id: Bytes, pairs: seq<(Bytes, Bytes)>, clock: seq<Clock>, leasing: bool)
    requires |clock| == |pairs|
    ensures var w := Update(t, id, pairs, clock, leasing);
      var n := |w.sent| + 1;
      w.status.Raised? ==>
        n <= |pairs| && w == Update(t, id, pairs[..n], clock[..n], leasing)
    decreases |pairs|
  {
    var w := Update(t, id, pairs, clock, leasing);
    if pairs != [] && w.status.Raised? {
      var n := |w.sent| + 1;
      UpdateSendsAppliedPrefix(t, id, pairs, clock, leasing);
      assert pairs[..n][0] == pairs[0] && clock[..n][0] == clock[0];
      var r := SetItem(t, id, pairs[0].0, pairs[0].1, leasing, clock[0]);
      if r.1.Ok? {
        var w' := Update(r.0, id, pairs[1..], clock[1..], leasing);
        assert w == Writes(w'.table, [pairs[0]] + w'.sent, w'.status);
        UpdateStopsAtConflict(r.0, id, pairs[1..], clock[1..], leasing);
        assert 2 <= n <= |clock| == |pairs|;
        assert pairs[..n][1..] == pairs[1..][..n - 1];
        assert clock[..n][1..] == clock[1..][..n - 1];
      }
    }
  }

  /** `update` applies its pairs one at a time: a batch split in two gives
      the same table, broadcasts and status as running the halves in turn,
      the second only when the first succeeded. */
  lemma {:induction false} UpdateSplits(t: Table, id: Bytes, p1: seq<(Bytes, Bytes)>, c1: seq<Clock>, p2: seq<(Bytes, Bytes)>, c2: seq<Clock>, leasing: bool)
    requires |c1| == |p1| && |c2| == |p2|
    ensures var w1 := Update(t, id, p1, c1, leasing);
      var w := Update(t, id, p1 + p2, c1 + c2, leasing);
      if w1.status.Raised? then w == w1
      else
        var w2 := Update(w1.table, id, p2, c2, leasing);
        w == Writes(w2.table, w1.sent + w2.sent, w2.status)
  {
    if Update(t, id, p1, c1, leasing).status.Raised? {
      UpdateFailedPrefix(t, id, p1, c1, p2, c2, leasing);
    } else {
      UpdateAppliedPrefix(t, id, p1, c1, p2, c2, leasing);
    }
  }

  /** A batch whose first part fails ends where that part ends. */
  lemma {:induction false} UpdateFailedPrefix(t: Table, id: Bytes, p1: seq<(Bytes, Bytes)>, c1: seq<Clock>, p2: seq<(Bytes, Bytes)>, c2: seq<Clock>, leasing: bool)
    requires |c1| == |p1| && |c2| == |p2|
    requires Update(t, id, p1, c1, leasing).status.Raised?
    ensures Update(t, id, p1 + p2, c1 + c2, leasing) == Update(t, id, p1, c1, leasing)
    decreases |p1|
  {
    assert (p1 + p2)[0] == p1[0] && (c1 + c2)[0] == c1[0];
    assert (p1 + p2)[1..] == p1[1..] + p2 && (c1 + c2)[1..] == c1[1..] + c2;
    var r := SetItem(t, id, p1[0].0, p1[0].1, leasing, c1[0]);
    if r.1.Ok? {
      UpdateFailedPrefix(r.0, id, p1[1..], c1[1..], p2, c2, leasing);
    }
  }

  /** A batch whose first part succeeds continues with its second part from
      the table the first part left. */
  lemma {:induction false} UpdateAppliedPrefix(t: Table, id: Bytes, p1: seq<(Bytes, Bytes)>, c1: seq<Clock>, p2: seq<(Bytes, Bytes)>, c2: seq<Clock>, leasing: bool)
    requires |c1| == |p1| && |c2| == |p2|
    requires Update(t, id, p1, c1, leasing).status.Ok?
    ensures var w1 := Update(t, id, p1, c1, leasing);
      var w2 := Update(w1.table, id, p2, c2, leasing);
      Update(t, id, p1 + p2, c1 + c2, leasing) == Writes(w2.table, w1.sent + w2.sent, w2.status)
    decreases |p1|
  {
    if p1 == [] {
      assert p1 + p2 == p2 && c1 + c2 == c2;
    } else {
      assert (p1 + p2)[0] == p1[0] && (c1 + c2)[0] == c1[0];
      assert (p1 + p2)[1..] == p1[1..] + p2 && (c1 + c2)[1..] == c1[1..] + c2;
      var r := SetItem(t, id, p1[0].0, p1[0].1, leasing, c1[0]);
      var w1 := Update(r.0, id, p1[1..], c1[1..], leasing);
      UpdateAppliedPrefix(r.0, id, p1[1..], c1[1..], p2, c2, leasing);
      var w2 := Update(w1.table, id, p2, c2, leasing);
      assert [p1[0]] + (w1.sent + w2.sent) == ([p1[0]] + w1.sent) + w2.sent;
    }
  }

  /** One step of the `update` loop: if the whole batch from `start` ends as
      the pairs before `i` (sent as `done`) followed by the batch from `i` on
      table `t`, then it ends as the first write of that rest, followed, when
      it succeeds, by the batch from `i + 1`. */
  lemma UpdateStep(start: Table, t: Table, id: Bytes, pairs: seq<(Bytes, Bytes)>, clock: seq<Clock>, leasing: bool, i: nat, done: seq<(Bytes, Bytes)>)
    requires |clock| == |pairs| && i < |pairs|
    requires var rest := Update(t, id, pairs[i..], clock[i..], leasing);
      Update(start, id, pairs, clock, leasing) == Writes(rest.table, done + rest.sent, rest.status)
    ensures var r := SetItem(t, id, pairs[i].0, pairs[i].1, leasing, clock[i]);
      if r.1.Raised? then Update(start, id, pairs, clock, leasing) == Writes(r.0, done, r.1)
      else
        var rest := Update(r.0, id, pairs[i + 1..], clock[i + 1..], leasing);
        Update(start, id, pairs, clock, leasing) == Writes(rest.table, (done + [pairs[i]]) + rest.sent, rest.status)
  {
    assert pairs[i..][0] == pairs[i] && clock[i..][0] == clock[i];
    assert pairs[i..][1..] == pairs[i + 1..] && clock[i..][1..] == clock[i + 1..];
    var r := SetItem(t, id, pairs[i].0, pairs[i].1, leasing, clock[i]);
    if r.1.Ok? {
      var rest := Update(r.0, id, pairs[i + 1..], clock[i + 1..], leasing);
      assert done + ([pairs[i]] + rest.sent) == (done + [pairs[i]]) + rest.sent;
    }
  }


  /** Every local write and every batch keeps both dictionaries on the same
      keys. */
  lemma {:induction false} UpdateKeepsWellFormed(t: Table, id: Bytes, pairs: seq<(Bytes, Bytes)>, clock: seq<Clock>, leasing: bool)
    requires WellFormed(t) && |clock| == |pairs|
    ensures WellFormed(Update(t, id, pairs, clock, leasing).table)
    decreases |pairs|
  {
    if pairs != [] {
      var r := SetItem(t, id, pairs[0].0, pairs[0].1, leasing, clock[0]);
      StoreKeepsWellFormed(t, pairs[0].0, pairs[0].1, Meta(id, clock[0].stamp), true, leasing, clock[0].now);
      if r.1.Ok? {
        UpdateKeepsWellFormed(r.0, id, pairs[1..], clock[1..], leasing);
      }
    }
  }
}
