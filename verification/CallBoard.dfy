/** The call board as a typed state: per-user busy locks and per-call records, both
    with deadlines, and a ringing index with scores and no deadline. Each signalling
    script is one atomic step. Times are milliseconds of one clock. */
module CallBoard {

  type UserId = string
  type CallId = string

  const RING_TTL: nat := 70
  const ACCEPTED_TTL: nat := 1800
  const RING_WAIT: nat := 45

  datatype Phase = Ringing | Accepted

  datatype Call = Call(caller: UserId, callee: UserId, media: string, phase: Phase, deadline: nat) {
    predicate Has(u: UserId) {
      u == caller || u == callee
    }
  }

  datatype Lock = Lock(call: CallId, deadline: nat)

  datatype Board = Board(
    now: nat,
    busy: map<UserId, Lock>,
    calls: map<CallId, Call>,
    ringing: map<CallId, int>)

  datatype Reply =
    | Done(caller: UserId, callee: UserId, media: string, reason: string)
    | SelfBusy
    | PeerBusy
    | Missing
    | Forbidden
    | WrongState

  const EMPTY := Board(0, map[], map[], map[])

  /** The deadline of a key whose time to live is set to this many seconds now. */
  function After(b: Board, seconds: nat): nat {
    b.now + seconds * 1000
  }

  /** Time passes: every lock and record whose deadline is reached is gone. */
  function Tick(b: Board, now: nat): Board {
    Board(
      now,
      map u | u in b.busy && now < b.busy[u].deadline :: b.busy[u],
      map c | c in b.calls && now < b.calls[c].deadline :: b.calls[c],
      b.ringing)
  }

  function Invite(b: Board, caller: UserId, callee: UserId, id: CallId, media: string, score: int): (Board, Reply) {
    if caller in b.busy then (b, SelfBusy)
    else if callee in b.busy then (b, PeerBusy)
    else
      var deadline := After(b, RING_TTL);
      var lock := Lock(id, deadline);
      (b.(busy := b.busy[caller := lock][callee := lock],
          calls := b.calls[id := Call(caller, callee, media, Ringing, deadline)],
          ringing := b.ringing[id := score]),
       Done(caller, callee, media, "invite"))
  }

  /** The unconditional release: the record and both users' locks, whoever holds them. */
  function Release(b: Board, id: CallId): Board
    requires id in b.calls
  {
    b.(busy := b.busy - {b.calls[id].caller, b.calls[id].callee}, calls := b.calls - {id})
  }

  function Unindex(b: Board, id: CallId): Board {
    b.(ringing := b.ringing - {id})
  }

  function Cancel(b: Board, user: UserId, id: CallId): (Board, Reply) {
    if id !in b.calls then (Unindex(b, id), Missing)
    else
      var c := b.calls[id];
      if user != c.caller then (b, Forbidden)
      else if c.phase != Ringing then (b, WrongState)
      else (Unindex(Release(b, id), id), Done(c.caller, c.callee, c.media, "cancel"))
  }

  function Reject(b: Board, user: UserId, id: CallId): (Board, Reply) {
    if id !in b.calls then (Unindex(b, id), Missing)
    else
      var c := b.calls[id];
      if user != c.callee then (b, Forbidden)
      else if c.phase != Ringing then (b, WrongState)
      else (Unindex(Release(b, id), id), Done(c.caller, c.callee, c.media, "reject"))
  }

  /** Gives the lock of u, if there is one, a new deadline: EXPIRE on a missing key does nothing. */
  function Renew(busy: map<UserId, Lock>, u: UserId, deadline: nat): map<UserId, Lock> {
    if u in busy then busy[u := busy[u].(deadline := deadline)] else busy
  }

  function Accept(b: Board, user: UserId, id: CallId): (Board, Reply) {
    if id !in b.calls then (Unindex(b, id), Missing)
    else
      var c := b.calls[id];
      if user != c.callee then (b, Forbidden)
      else if c.phase != Ringing then (b, WrongState)
      else
        var deadline := After(b, ACCEPTED_TTL);
        (Unindex(b.(busy := Renew(Renew(b.busy, c.caller, deadline), c.callee, deadline),
                    calls := b.calls[id := c.(phase := Accepted, deadline := deadline)]), id),
         Done(c.caller, c.callee, c.media, ""))
  }

  /** Hanging up a missing call leaves the index alone. */
  function Hangup(b: Board, user: UserId, id: CallId): (Board, Reply) {
    if id !in b.calls then (b, Missing)
    else
      var c := b.calls[id];
      if !c.Has(user) then (b, Forbidden)
      else if c.phase != Accepted then (b, WrongState)
      else (Release(b, id), Done(c.caller, c.callee, c.media, "hangup"))
  }

  /** No user to check: the sweeper ends any call that still rings. */
  function Timeout(b: Board, id: CallId): (Board, Reply) {
    if id !in b.calls then (Unindex(b, id), Missing)
    else
      var c := b.calls[id];
      if c.phase != Ringing then (Unindex(b, id), WrongState)
      else (Unindex(Release(b, id), id), Done(c.caller, c.callee, c.media, "timeout"))
  }

  /** The lock of u, if any, names a live record of which u is a party. */
  ghost predicate Owned(b: Board, u: UserId) {
    u in b.busy ==> b.busy[u].call in b.calls && b.calls[b.busy[u].call].Has(u)
  }

  /** Both parties of a live record hold its lock, and the three deadlines are one. */
  ghost predicate Held(b: Board, c: CallId) {
    c in b.calls ==>
      var call := b.calls[c];
      && call.caller != call.callee
      && b.now < call.deadline
      && call.caller in b.busy && b.busy[call.caller] == Lock(c, call.deadline)
      && call.callee in b.busy && b.busy[call.callee] == Lock(c, call.deadline)
  }

  /** Locks and records agree, in parties and in deadlines. */
  ghost predicate Lockstep(b: Board) {
    && (forall u {:trigger Owned(b, u)} :: Owned(b, u))
    && (forall c {:trigger Held(b, c)} :: Held(b, c))
  }

  /** busy[u] = c exactly when the record c is live and u is one of its parties,
      and then the two deadlines are equal. */
  lemma BusyExactlyWhenParty(b: Board, u: UserId, c: CallId)
    requires Lockstep(b)
    ensures (u in b.busy && b.busy[u].call == c) <==> (c in b.calls && b.calls[c].Has(u))
    ensures c in b.calls && b.calls[c].Has(u) ==> b.busy[u] == Lock(c, b.calls[c].deadline)
  {
    assert Held(b, c) && Owned(b, u);
  }

  /** A user is in at most one live call. */
  lemma OneCallPerUser(b: Board, u: UserId, c: CallId, d: CallId)
    requires Lockstep(b)
    requires c in b.calls && b.calls[c].Has(u) && d in b.calls && b.calls[d].Has(u)
    ensures c == d
  {
    BusyExactlyWhenParty(b, u, c);
    BusyExactlyWhenParty(b, u, d);
  }

  /** The release that checks no owner frees exactly the locks an owner check would free. */
  lemma ReleaseFreesOnlyItsOwnLocks(b: Board, id: CallId)
    requires Lockstep(b) && id in b.calls
    ensures Release(b, id).busy == map u | u in b.busy && b.busy[u].call != id :: b.busy[u]
    ensures Lockstep(Release(b, id))
  {
    var r := Release(b, id);
    forall u ensures Owned(r, u) && (u in b.busy ==> (u in r.busy <==> b.busy[u].call != id)) {
      BusyExactlyWhenParty(b, u, id);
      assert Owned(b, u);
    }
    forall c ensures Held(r, c) {
      assert Held(b, c);
    }
  }

  /** Locks and records expire together. */
  lemma TickKeepsLockstep(b: Board, now: nat)
    requires Lockstep(b) && b.now <= now
    ensures Lockstep(Tick(b, now))
    ensures forall u <- b.busy :: u in Tick(b, now).busy <==> b.busy[u].call in Tick(b, now).calls
  {
    var t := Tick(b, now);
    forall u
      ensures Owned(t, u)
      ensures u in b.busy ==> (u in t.busy <==> b.busy[u].call in t.calls)
    {
      assert Owned(b, u);
      if u in b.busy {
        assert Held(b, b.busy[u].call);
      }
    }
    forall c ensures Held(t, c) {
      assert Held(b, c);
    }
  }

  lemma InviteKeepsLockstep(b: Board, caller: UserId, callee: UserId, id: CallId, media: string, score: int)
    requires Lockstep(b) && id !in b.calls && caller != callee
    ensures Lockstep(Invite(b, caller, callee, id, media, score).0)
  {
    var r := Invite(b, caller, callee, id, media, score).0;
    forall u ensures Owned(r, u) {
      assert Owned(b, u);
    }
    forall c ensures Held(r, c) {
      assert Held(b, c);
    }
  }

  lemma AcceptKeepsLockstep(b: Board, user: UserId, id: CallId)
    requires Lockstep(b)
    ensures Lockstep(Accept(b, user, id).0)
    ensures var r := Accept(b, user, id).0; forall u <- b.busy :: u in r.busy && r.busy[u].call == b.busy[u].call
  {
    var r := Accept(b, user, id).0;
    forall u
      ensures Owned(r, u)
      ensures u in b.busy ==> u in r.busy && r.busy[u].call == b.busy[u].call
    {
      assert Owned(b, u);
      BusyExactlyWhenParty(b, u, id);
    }
    forall c ensures Held(r, c) {
      assert Held(b, c) && Held(b, id);
    }
  }

  lemma IndexIsApartFromLockstep(b: Board, r: Board)
    requires Lockstep(b) && r == b.(ringing := r.ringing)
    ensures Lockstep(r)
  {
    forall u ensures Owned(r, u) {
      assert Owned(b, u);
    }
    forall c ensures Held(r, c) {
      assert Held(b, c);
    }
  }
}
