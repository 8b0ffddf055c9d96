/** How the typed board is laid out in the flat key space. */
module CallStore {
  import opened Wrappers
  import opened Redis
  import opened CallBoard

  function CallKey(prefix: string, id: CallId): string { prefix + "id:" + id }

  function BusyKey(prefix: string, user: UserId): string { prefix + "busy:" + user }

  function RingKey(prefix: string): string { prefix + "ringing" }

  /** Keys of different kinds never collide, nor do keys of one kind for different ids. */
  lemma KeysNeverCollide(prefix: string, a: string, b: string)
    ensures CallKey(prefix, a) == CallKey(prefix, b) ==> a == b
    ensures BusyKey(prefix, a) == BusyKey(prefix, b) ==> a == b
    ensures CallKey(prefix, a) != BusyKey(prefix, b)
    ensures CallKey(prefix, a) != RingKey(prefix)
    ensures BusyKey(prefix, a) != RingKey(prefix)
  {
    var n := |prefix|;
    assert CallKey(prefix, a)[n + 3..] == a && CallKey(prefix, b)[n + 3..] == b;
    assert BusyKey(prefix, a)[n + 5..] == a && BusyKey(prefix, b)[n + 5..] == b;
    assert CallKey(prefix, a)[n] == 'i' && BusyKey(prefix, b)[n] == 'b' && BusyKey(prefix, a)[n] == 'b';
    assert RingKey(prefix)[n] == 'r';
  }

  function PhaseText(p: Phase): string {
    if p == Ringing then "ringing" else "accepted"
  }

  function CallFields(c: Call): map<string, string> {
    map["caller" := c.caller, "callee" := c.callee, "media" := c.media, "state" := PhaseText(c.phase)]
  }

  ghost predicate Same(items: Store, key: string, want: Option<Item>) {
    if want.Some? then key in items && items[key] == want.value else key !in items
  }

  ghost predicate LockStored(prefix: string, items: Store, b: Board, u: UserId) {
    Same(items, BusyKey(prefix, u),
         if u in b.busy then Some(Item(Text(b.busy[u].call), Some(b.busy[u].deadline))) else None)
  }

  ghost predicate CallStored(prefix: string, items: Store, b: Board, id: CallId) {
    Same(items, CallKey(prefix, id),
         if id in b.calls then Some(Item(Hash(CallFields(b.calls[id])), Some(b.calls[id].deadline))) else None)
  }

  ghost predicate IndexStored(prefix: string, items: Store, b: Board) {
    Same(items, RingKey(prefix), if b.ringing != map[] then Some(Item(ZSet(b.ringing), None)) else None)
  }

  /** The flat store holds exactly the locks, records and index of the typed board. */
  ghost predicate Represents(prefix: string, items: Store, b: Board) {
    && (forall u {:trigger LockStored(prefix, items, b, u)} :: LockStored(prefix, items, b, u))
    && (forall id {:trigger CallStored(prefix, items, b, id)} :: CallStored(prefix, items, b, id))
    && IndexStored(prefix, items, b)
  }

  /** A store is the image of at most one board at a given time. */
  lemma RepresentsOne(prefix: string, items: Store, a: Board, b: Board)
    requires Represents(prefix, items, a) && Represents(prefix, items, b) && a.now == b.now
    ensures a == b
  {
    forall u ensures u in a.busy <==> u in b.busy
      ensures u in a.busy ==> a.busy[u] == b.busy[u]
    {
      assert LockStored(prefix, items, a, u) && LockStored(prefix, items, b, u);
    }
    assert a.busy == b.busy;
    forall id ensures id in a.calls <==> id in b.calls
      ensures id in a.calls ==> a.calls[id] == b.calls[id]
    {
      assert CallStored(prefix, items, a, id) && CallStored(prefix, items, b, id);
      if id in a.calls {
        SameFields(a.calls[id], b.calls[id]);
      }
    }
    assert a.calls == b.calls;
  }

  lemma SameFields(c: Call, d: Call)
    requires CallFields(c) == CallFields(d)
    ensures c.(deadline := d.deadline) == d
  {
    assert CallFields(c)["caller"] == CallFields(d)["caller"];
    assert CallFields(c)["callee"] == CallFields(d)["callee"];
    assert CallFields(c)["media"] == CallFields(d)["media"];
    assert CallFields(c)["state"] == CallFields(d)["state"];
    assert PhaseText(Ringing)[0] != PhaseText(Accepted)[0];
  }

  /** Writing or deleting one busy key sets or frees that lock and nothing else. */
  lemma LockWritten(prefix: string, items: Store, b: Board, u: UserId, lock: Option<Lock>)
    requires Represents(prefix, items, b)
    ensures
      if lock.Some?
      then Represents(prefix, items[BusyKey(prefix, u) := Item(Text(lock.value.call), Some(lock.value.deadline))],
                      b.(busy := b.busy[u := lock.value]))
      else Represents(prefix, items - {BusyKey(prefix, u)}, b.(busy := b.busy - {u}))
  {
    var key := BusyKey(prefix, u);
    var after := if lock.Some? then items[key := Item(Text(lock.value.call), Some(lock.value.deadline))]
                 else items - {key};
    var r := b.(busy := if lock.Some? then b.busy[u := lock.value] else b.busy - {u});
    forall x ensures LockStored(prefix, after, r, x) {
      KeysNeverCollide(prefix, x, u);
      assert LockStored(prefix, items, b, x);
    }
    forall id ensures CallStored(prefix, after, r, id) {
      KeysNeverCollide(prefix, id, u);
      assert CallStored(prefix, items, b, id);
    }
    KeysNeverCollide(prefix, u, u);
  }

  /** Writing or deleting one record key sets or removes that record and nothing else. */
  lemma CallWritten(prefix: string, items: Store, b: Board, id: CallId, call: Option<Call>)
    requires Represents(prefix, items, b)
    ensures
      if call.Some?
      then Represents(prefix,
                      items[CallKey(prefix, id) := Item(Hash(CallFields(call.value)), Some(call.value.deadline))],
                      b.(calls := b.calls[id := call.value]))
      else Represents(prefix, items - {CallKey(prefix, id)}, b.(calls := b.calls - {id}))
  {
    var key := CallKey(prefix, id);
    var after := if call.Some? then items[key := Item(Hash(CallFields(call.value)), Some(call.value.deadline))]
                 else items - {key};
    var r := b.(calls := if call.Some? then b.calls[id := call.value] else b.calls - {id});
    forall x ensures LockStored(prefix, after, r, x) {
      KeysNeverCollide(prefix, id, x);
      assert LockStored(prefix, items, b, x);
    }
    forall c ensures CallStored(prefix, after, r, c) {
      KeysNeverCollide(prefix, c, id);
      assert CallStored(prefix, items, b, c);
    }
    KeysNeverCollide(prefix, id, id);
  }

  /** Writing the index changes no lock and no record. */
  lemma IndexWritten(prefix: string, items: Store, b: Board, z: map<CallId, int>)
    requires Represents(prefix, items, b)
    ensures Represents(prefix, WithScores(items, RingKey(prefix), z), b.(ringing := z))
  {
    var after := WithScores(items, RingKey(prefix), z);
    forall x ensures LockStored(prefix, after, b.(ringing := z), x) {
      KeysNeverCollide(prefix, x, x);
      assert LockStored(prefix, items, b, x);
    }
    forall c ensures CallStored(prefix, after, b.(ringing := z), c) {
      KeysNeverCollide(prefix, c, c);
      assert CallStored(prefix, items, b, c);
    }
  }

  /** Expiry of keys one by one is the typed clock step. */
  lemma ExpiryIsTick(prefix: string, before: Store, b: Board, now: nat)
    requires Represents(prefix, before, b)
    ensures Represents(prefix, map k | k in before && before[k].LiveAt(now) :: before[k], Tick(b, now))
  {
    var after := map k | k in before && before[k].LiveAt(now) :: before[k];
    forall u ensures LockStored(prefix, after, Tick(b, now), u) {
      assert LockStored(prefix, before, b, u);
    }
    forall id ensures CallStored(prefix, after, Tick(b, now), id) {
      assert CallStored(prefix, before, b, id);
    }
  }
}
