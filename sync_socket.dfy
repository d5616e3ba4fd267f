/** The sync node itself: an object whose two dictionaries are updated in
    place by storing, by received `store` messages and by local writes.

    Each mutating method is proved to leave the dictionaries exactly as the
    matching function of module SyncTable says, so every lemma proved there
    about a snapshot holds of the object. The network send of a local write is
    recorded in a ghost outbox instead of being performed. */
module Sync {
  import opened ByteOrder
  import opened SyncTable

  datatype Result<T> = Success(value: T) | Failure(fault: Fault)

  class SyncSocket {
    /** This node's id, the owner of every local write. */
    const id: Bytes
    /** Whether the network enforces leases. */
    const leasing: bool

    var data: map<Bytes, Bytes>
    var metadata: map<Bytes, Meta>

    /** The `(key, value)` pairs broadcast with the `store` flag, in order. */
    ghost var outbox: seq<(Bytes, Bytes)>

    function State(): Table
      reads this
    {
      Table(data, metadata)
    }

    ghost predicate Valid()
      reads this
    {
      WellFormed(State())
    }

    constructor (id: Bytes, leasing: bool)
      ensures this.id == id && this.leasing == leasing
      ensures data == map[] && metadata == map[] && outbox == []
      ensures Valid()
    {
      this.id := id;
      this.leasing := leasing;
      data := map[];
      metadata := map[];
      outbox := [];
    }

    /** `__store`: write or delete one key if the lease rule permits. */
    method Store(key: Bytes, newData: Bytes, newMeta: Meta, error: bool, now: int) returns (status: Status)
      modifies this`data, this`metadata
      ensures (State(), status) == SyncTable.Store(old(State()), key, newData, newMeta, error, leasing, now)
      ensures old(Valid()) ==> Valid()
    {
      if Valid() {
        StoreKeepsWellFormed(State(), key, newData, newMeta, error, leasing, now);
      }
      if MayWrite(MetaAt(State(), key), newMeta, leasing, now) {
        if newData != [] {
          metadata := metadata[key := newMeta];
          data := data[key := newData];
          status := Ok;
        } else {
          if key !in data {
            return Raised(KeyError);
          }
          data := data - {key};
          if key !in metadata {
            return Raised(KeyError);
          }
          metadata := metadata - {key};
          status := Ok;
        }
      } else if error {
        status := Raised(KeyError);
      } else {
        status := Ok;
      }
    }

    /** `__handle_store`: the dispatch-chain handler for `store` messages. */
    method HandleStore(msg: Message, fromBase58: Bytes -> int, now: int) returns (handling: Handling)
      modifies this`data, this`metadata
      ensures (State(), handling) == SyncTable.HandleStore(old(State()), msg, fromBase58, leasing, now)
      ensures old(Valid()) ==> Valid()
    {
      if Valid() {
        HandleStoreKeepsWellFormed(State(), msg, fromBase58, leasing, now);
      }
      var packets := msg.packets;
      if |packets| == 0 {
        return Failed(IndexError);
      }
      if packets[0] != StoreFlag {
        return NotHandled;
      }
      var meta := Meta(msg.sender, msg.time);
      if |packets| == 5 {
        if HoldsValue(State(), packets[1]) {
          return NotHandled;
        }
        meta := Meta(packets[3], fromBase58(packets[4]));
      }
      if |packets| < 3 {
        return Failed(IndexError);
      }
      var status := Store(packets[1], packets[2], meta, false, now);
      handling := if status.Ok? then Handled else Failed(status.fault);
    }

    /** `__setitem__`: store under this node's id, stamped with the first clock
        reading and lease-tested against the second, then broadcast the write;
        a lease conflict raises before anything is sent. */
    method SetItem(key: Bytes, value: Bytes, clock: Clock) returns (status: Status)
      modifies this`data, this`metadata, this`outbox
      ensures (State(), status) == SyncTable.SetItem(old(State()), id, key, value, leasing, clock)
      ensures outbox == if status.Ok? then old(outbox) + [(key, value)] else old(outbox)
      ensures old(Valid()) ==> Valid()
    {
      status := Store(key, value, Meta(id, clock.stamp), true, clock.now);
      if status.Ok? {
        outbox := outbox + [(key, value)];
      }
    }

    /** `set`: the named form of `__setitem__`. */
    method Set(key: Bytes, value: Bytes, clock: Clock) returns (status: Status)
      modifies this`data, this`metadata, this`outbox
      ensures (State(), status) == SyncTable.SetItem(old(State()), id, key, value, leasing, clock)
      ensures outbox == if status.Ok? then old(outbox) + [(key, value)] else old(outbox)
      ensures old(Valid()) ==> Valid()
    {
      status := SetItem(key, value, clock);
    }

    /** `update`: `__setitem__` on each pair in order, `clock[i]` being the
        two readings the i-th write takes; the first exception ends the loop. */
    method Update(pairs: seq<(Bytes, Bytes)>, clock: seq<Clock>) returns (status: Status)
      requires |clock| == |pairs|
      modifies this`data, this`metadata, this`outbox
      ensures var w := SyncTable.Update(old(State()), id, pairs, clock, leasing);
        State() == w.table && outbox == old(outbox) + w.sent && status == w.status
      ensures old(Valid()) ==> Valid()
    {
      ghost var start := State();
      ghost var done: seq<(Bytes, Bytes)> := [];
      if Valid() {
        UpdateKeepsWellFormed(start, id, pairs, clock, leasing);
      }
      status := Ok;
      var i := 0;
      while i < |pairs|
        invariant 0 <= i <= |pairs|
        invariant status == Ok
        invariant outbox == old(outbox) + done
        invariant var rest := SyncTable.Update(State(), id, pairs[i..], clock[i..], leasing);
          SyncTable.Update(start, id, pairs, clock, leasing) == Writes(rest.table, done + rest.sent, rest.status)
      {
        UpdateStep(start, State(), id, pairs, clock, leasing, i, done);
        status := SetItem(pairs[i].0, pairs[i].1, clock[i]);
        if status.Raised? {
          assert outbox == old(outbox) + done;
          return;
        }
        assert outbox == old(outbox) + (done + [pairs[i]]);
        done := done + [pairs[i]];
        i := i + 1;
      }
      assert pairs[i..] == [] && clock[i..] == [];
    }

    /** `__getitem__`: the value at the key, or `KeyError`. */
    method GetItem(key: Bytes) returns (r: Result<Bytes>)
      ensures r.Success? <==> key in data
      ensures r.Success? ==> r.value == data[key]
      ensures r.Failure? ==> r.fault == KeyError
    {
      match Lookup(State(), key)
      case Some(v) => r := Success(v);
      case None => r := Failure(KeyError);
    }

    /** `get(key, ret)`: the value at the key, or `ret` when there is none. */
    method Get(key: Bytes, ret: Option<Bytes>) returns (r: Option<Bytes>)
      ensures r == if Lookup(State(), key).Some? then Lookup(State(), key) else ret
    {
      r := Lookup(State(), key);
      if r.None? {
        r := ret;
      }
    }

    /** `__len__`: the number of keys. */
    method Len() returns (n: nat)
      ensures n == |data|
      ensures Valid() ==> n == |metadata|
    {
      n := |data|;
      if WellFormed(State()) {
        SizesAgree(State());
      }
    }
  }
}
