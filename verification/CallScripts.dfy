/** The board service: Go methods over Lua scripts over one flat store. Every method is
    proved against the typed step of the same name. */
module CallScripts {
  import opened Wrappers
  import opened Redis
  import opened ScoreIndex
  import opened CallStore
  import B = CallBoard
  import R = CallRuns
  import S = CallSweep
  import D = Decimal

  type UserId = B.UserId
  type CallId = B.CallId

  datatype Error = Invalid | Busy | PeerIsBusy | NotFound | NotMember | BadState | Internal

  datatype Signal = Signal(op: string, call: CallId, caller: UserId, callee: UserId, media: string, reason: string)

  /** A call id is 32 lower-case hexadecimal digits. */
  predicate ValidCallId(id: string) {
    |id| == 32 && forall i :: 0 <= i < 32 ==> '0' <= id[i] <= '9' || 'a' <= id[i] <= 'f'
  }

  /** A user id is 1 to 64 bytes without control characters or ':'. */
  predicate ValidUser(id: string) {
    id != "" && |id| <= 64 && forall i :: 0 <= i < |id| ==> ' ' <= id[i] && id[i] != ':'
  }

  /** validCallID: the length, and then every character in turn. */
  method CheckCallId(id: string) returns (ok: bool)
    ensures ok <==> |id| == 32 && forall i :: 0 <= i < 32 ==> '0' <= id[i] <= '9' || 'a' <= id[i] <= 'f'
    ensures ok <==> ValidCallId(id)
  {
    if |id| != 32 {
      return false;
    }
    for i := 0 to |id|
      invariant forall j :: 0 <= j < i ==> '0' <= id[j] <= '9' || 'a' <= id[j] <= 'f'
    {
      if (id[i] < '0' || id[i] > '9') && (id[i] < 'a' || id[i] > 'f') {
        return false;
      }
    }
    return true;
  }

  /** validUser: the length in bytes, and then every character in turn. */
  method CheckUser(id: string) returns (ok: bool)
    ensures ok <==> 1 <= |id| <= 64 && forall i :: 0 <= i < |id| ==> ' ' <= id[i] && id[i] != ':'
    ensures ok <==> ValidUser(id)
  {
    if id == "" || |id| > 64 {
      return false;
    }
    for i := 0 to |id|
      invariant forall j :: 0 <= j < i ==> ' ' <= id[j] && id[j] != ':'
    {
      if id[i] < ' ' || id[i] == ':' {
        return false;
      }
    }
    return true;
  }

  method CheckAddress(user: UserId, id: CallId) returns (ok: bool)
    ensures ok <==> ValidCallId(id) && (user == "" || ValidUser(user))
    ensures ok <==> Addressable(user, id)
  {
    var call := CheckCallId(id);
    var party := CheckUser(user);
    ok := call && (user == "" || party);
  }

  method CheckInvite(caller: UserId, callee: UserId, media: string) returns (ok: bool)
    ensures ok <==> ValidUser(caller) && ValidUser(callee) && caller != callee && (media == "audio" || media == "video")
    ensures ok <==> Invitable(caller, callee, media)
  {
    var one := CheckUser(caller);
    var other := CheckUser(callee);
    ok := one && other && caller != callee && (media == "audio" || media == "video");
  }

  /** The table a script returns for a reply. */
  function Fields(r: B.Reply): seq<string> {
    match r
    case Done(caller, callee, media, reason) =>
      if reason == "invite" then ["ok"]
      else ["ok", caller, callee, media] + if reason == "" then [] else [reason]
    case SelfBusy => ["self"]
    case PeerBusy => ["peer"]
    case Missing => ["missing"]
    case Forbidden => ["forbidden"]
    case WrongState => ["state"]
  }

  predicate Invitable(caller: UserId, callee: UserId, media: string) {
    ValidUser(caller) && ValidUser(callee) && caller != callee && (media == "audio" || media == "video")
  }

  /** What every later operation checks before it runs a script; an empty user passes. */
  predicate Addressable(user: UserId, id: CallId) {
    ValidCallId(id) && (user != "" ==> ValidUser(user))
  }

  /** What the caller of an operation sees for a reply. */
  function Outcome(op: string, id: CallId, r: B.Reply): Result<Signal, Error> {
    match r
    case Done(caller, callee, media, reason) => Ok(Signal(op, id, caller, callee, media, reason))
    case Missing => Err(NotFound)
    case Forbidden => Err(NotMember)
    case WrongState => Err(BadState)
    case _ => Err(Internal)
  }

  /** Reading a script's table back: its first field decides, four fields carry the call. */
  function Decode(op: string, id: CallId, fields: seq<string>): (r: Result<Signal, Error>)
    ensures forall reply: B.Reply :: fields == Fields(reply) && (reply.Done? ==> reply.reason != "invite")
              ==> r == Outcome(op, id, reply)
  {
    if fields == [] then Err(Internal)
    else if fields[0] == "ok" then
      if |fields| < 4 then Err(Internal)
      else Ok(Signal(op, id, fields[1], fields[2], fields[3], if |fields| > 4 then fields[4] else ""))
    else if fields[0] == "missing" then Err(NotFound)
    else if fields[0] == "forbidden" then Err(NotMember)
    else if fields[0] == "state" then Err(BadState)
    else Err(Internal)
  }

  function Signals(ended: seq<S.Ended>): (signals: seq<Signal>)
    ensures |signals| == |ended|
  {
    seq(|ended|, i requires 0 <= i < |ended| =>
      Signal("timeout", ended[i].call, ended[i].caller, ended[i].callee, ended[i].media, "timeout"))
  }

  lemma SignalsHave(ended: seq<S.Ended>, g: Signal)
    ensures g in Signals(ended) <==>
      S.Ended(g.call, g.caller, g.callee, g.media) in ended && g.op == "timeout" && g.reason == "timeout"
  {
    if g in Signals(ended) {
      var i :| 0 <= i < |ended| && Signals(ended)[i] == g;
      assert ended[i] == S.Ended(g.call, g.caller, g.callee, g.media);
    }
    if S.Ended(g.call, g.caller, g.callee, g.media) in ended && g.op == "timeout" && g.reason == "timeout" {
      var i :| 0 <= i < |ended| && ended[i] == S.Ended(g.call, g.caller, g.callee, g.media);
      assert Signals(ended)[i] == g;
    }
  }

  /** The signals of a pass are exactly those of the calls among its ids that ring. */
  lemma ReportIsExact(b: B.Board, ids: seq<CallId>)
    requires forall i, j :: 0 <= i < j < |ids| ==> ids[i] != ids[j]
    ensures forall g :: g in Signals(S.EndedBy(b, ids)) <==>
      && g.call in ids && g.call in b.calls && b.calls[g.call].phase == B.Ringing
      && var c := b.calls[g.call]; g == Signal("timeout", g.call, c.caller, c.callee, c.media, "timeout")
  {
    S.SweepReport(b, ids);
    forall g ensures g in Signals(S.EndedBy(b, ids)) <==>
      && g.call in ids && g.call in b.calls && b.calls[g.call].phase == B.Ringing
      && var c := b.calls[g.call]; g == Signal("timeout", g.call, c.caller, c.callee, c.media, "timeout")
    {
      SignalsHave(S.EndedBy(b, ids), g);
    }
  }

  /** Where a pass will end: the board after the rest, and the report so far completed by it. */
  ghost function Goal(b: B.Board, rest: seq<CallId>, out: seq<Signal>): (B.Board, seq<Signal>) {
    (S.TimeoutAll(b, rest), out + Signals(S.EndedBy(b, rest)))
  }

  lemma GoalStays(b: B.Board, rest: seq<CallId>, out: seq<Signal>)
    requires rest != []
    ensures var (next, reply) := B.Timeout(b, rest[0]);
      Goal(b, rest, out) == Goal(next, rest[1..], out + Reported(Outcome("timeout", rest[0], reply)))
  {
    var (next, reply) := B.Timeout(b, rest[0]);
    var one, tail := Reported(Outcome("timeout", rest[0], reply)), Signals(S.EndedBy(next, rest[1..]));
    assert Signals(S.EndedBy(b, rest)) == one + tail;
    assert out + (one + tail) == (out + one) + tail;
  }

  lemma GoalEnds(b: B.Board, ids: seq<CallId>, out: seq<Signal>)
    ensures Goal(b, ids, []) == (S.TimeoutAll(b, ids), Signals(S.EndedBy(b, ids)))
    ensures Goal(b, [], out) == (b, out)
  {
    assert [] + Signals(S.EndedBy(b, ids)) == Signals(S.EndedBy(b, ids));
    assert out + Signals(S.EndedBy(b, [])) == out;
  }

  function Reported(r: Result<Signal, Error>): seq<Signal> {
    if r.Ok? then [r.value] else []
  }

  // ---- what the commands read and write, in typed terms ----

  lemma Reads(prefix: string, items: Store, b: B.Board, id: CallId)
    requires Represents(prefix, items, b)
    ensures HoldsHash(items, CallKey(prefix, id)) && HoldsScores(items, RingKey(prefix))
    ensures HashOf(items, CallKey(prefix, id)) == if id in b.calls then CallFields(b.calls[id]) else map[]
    ensures ScoresOf(items, RingKey(prefix)) == b.ringing
    ensures CallKey(prefix, id) in items <==> id in b.calls
    ensures id in b.calls ==> DeadlineOf(items, CallKey(prefix, id)) == Some(b.calls[id].deadline)
  {
    assert CallStored(prefix, items, b, id);
  }

  lemma LockReads(prefix: string, items: Store, b: B.Board, u: UserId)
    requires Represents(prefix, items, b)
    ensures BusyKey(prefix, u) in items <==> u in b.busy
    ensures u in b.busy ==> items[BusyKey(prefix, u)] == Item(Text(b.busy[u].call), Some(b.busy[u].deadline))
  {
    assert LockStored(prefix, items, b, u);
  }

  lemma ReleaseWritten(prefix: string, items: Store, b: B.Board, id: CallId)
    requires Represents(prefix, items, b) && id in b.calls
    ensures var c := b.calls[id];
      Represents(prefix, items - {CallKey(prefix, id), BusyKey(prefix, c.caller), BusyKey(prefix, c.callee)},
                 B.Release(b, id))
  {
    var c := b.calls[id];
    var k1, k2, k3 := CallKey(prefix, id), BusyKey(prefix, c.caller), BusyKey(prefix, c.callee);
    CallWritten(prefix, items, b, id, None);
    var b1 := b.(calls := b.calls - {id});
    LockWritten(prefix, items - {k1}, b1, c.caller, None);
    var b2 := b1.(busy := b1.busy - {c.caller});
    LockWritten(prefix, items - {k1} - {k2}, b2, c.callee, None);
    assert items - {k1, k2, k3} == items - {k1} - {k2} - {k3};
    assert b.busy - {c.caller, c.callee} == b.busy - {c.caller} - {c.callee};
  }

  /** The timeout steps of one sweeper. */
  ghost function Timeouts(worker: nat, n: nat): seq<R.Action> {
    seq(n, _ => R.SweepNext(worker))
  }

  lemma OneMoreTimeout(before: seq<R.Action>, worker: nat, n: nat)
    requires n > 0
    ensures before + Timeouts(worker, n) == before + [R.SweepNext(worker)] + Timeouts(worker, n - 1)
  {
    assert Timeouts(worker, n) == [R.SweepNext(worker)] + Timeouts(worker, n - 1);
  }

  lemma NoTimeoutLeft(before: seq<R.Action>, worker: nat)
    ensures before + Timeouts(worker, 0) == before
  {
  }

  /** The busy key of this user holds this call. */
  predicate Locks(items: Store, prefix: string, user: UserId, id: CallId) {
    BusyKey(prefix, user) in items && items[BusyKey(prefix, user)].value == Text(id)
  }

  /** The record key of this call is there and names this user. */
  predicate Records(items: Store, prefix: string, user: UserId, id: CallId) {
    && CallKey(prefix, id) in items && items[CallKey(prefix, id)].value.Hash?
    && var fields := items[CallKey(prefix, id)].value.fields;
    (("caller" in fields && fields["caller"] == user) || ("callee" in fields && fields["callee"] == user))
  }

  lemma FirstClock(now: nat)
    ensures R.Run([R.Clock(now)]).board == B.EMPTY.(now := now)
  {
    R.RunMore([], R.Clock(now));
    assert [] + [R.Clock(now)] == [R.Clock(now)];
  }

  lemma EmptyStored(prefix: string, items: Store, b: B.Board)
    requires items == map[] && b == B.EMPTY.(now := b.now)
    ensures Represents(prefix, items, b)
  {
    forall u ensures LockStored(prefix, items, b, u) {
    }
    forall id ensures CallStored(prefix, items, b, id) {
    }
  }

  class Board {
    const rdb: Server
    const prefix: string
    ghost var view: B.Board
    ghost var trace: seq<R.Action>

    constructor (rdb: Server, prefix: string)
      requires rdb.items == map[]
      ensures this.rdb == rdb && this.prefix == prefix && Valid() && Ran()
      ensures view == B.EMPTY.(now := rdb.now) && trace == [R.Clock(rdb.now)]
    {
      this.rdb, this.prefix := rdb, prefix;
      view := B.EMPTY.(now := rdb.now);
      trace := [R.Clock(rdb.now)];
      new;
      FirstClock(rdb.now);
      EmptyStored(prefix, rdb.items, view);
    }

    /** The flat store is the layout of the typed view, and only well-formed ids are indexed. */
    ghost predicate Valid()
      reads this, rdb
    {
      && Represents(prefix, rdb.items, view)
      && view.now == rdb.now
      && forall id <- view.ringing :: ValidCallId(id)
    }

    /** The view is where the typed board is after the operations run so far. */
    ghost predicate Ran()
      reads this
    {
      view == R.Run(trace).board
    }

    /** Every operation is one step of the run. */
    ghost method Record(a: R.Action)
      requires R.Step(R.Run(trace), a).0.board == view
      modifies this`trace
      ensures trace == old(trace) + [a] && Ran() && R.Run(trace) == R.Step(R.Run(old(trace)), a).0
    {
      R.RunMore(trace, a);
      trace := trace + [a];
    }

    /** What the flat store keeps through every run of the board: a busy key names a call exactly
        when the record of that call is there and names the user, and then both expire together. */
    lemma StoreKeepsLocksAndRecords(user: UserId, id: CallId)
      requires Valid() && Ran()
      ensures Locks(rdb.items, prefix, user, id) <==> Records(rdb.items, prefix, user, id)
      ensures Locks(rdb.items, prefix, user, id) ==>
        rdb.items[BusyKey(prefix, user)].deadline == rdb.items[CallKey(prefix, id)].deadline
    {
      R.Reachable(trace);
      B.BusyExactlyWhenParty(view, user, id);
      LockReads(prefix, rdb.items, view, user);
      Reads(prefix, rdb.items, view, id);
    }

    method Clock(to: nat)
      requires Valid() && Ran() && view.now <= to
      modifies rdb, this`view, this`trace
      ensures Valid() && Ran() && view == B.Tick(old(view), to) && trace == old(trace) + [R.Clock(to)]
    {
      ExpiryIsTick(prefix, rdb.items, view, to);
      rdb.Advance(to);
      view := B.Tick(view, to);
      Record(R.Clock(to));
    }

    /** HSET and then EXPIRE of one record. */
    method WriteCall(id: CallId, fields: map<string, string>, seconds: nat, ghost call: B.Call)
      requires Valid() && "state" in fields && call.deadline == B.After(view, seconds)
      requires (if id in view.calls then CallFields(view.calls[id]) else map[]) + fields == CallFields(call)
      modifies rdb, this`view
      ensures Valid() && view == old(view).(calls := old(view).calls[id := call])
    {
      Reads(prefix, rdb.items, view, id);
      CallWritten(prefix, rdb.items, view, id, Some(call));
      ghost var target := rdb.items[CallKey(prefix, id) := Item(Hash(CallFields(call)), Some(call.deadline))];
      rdb.HSet(CallKey(prefix, id), fields);
      rdb.Expire(CallKey(prefix, id), seconds);
      assert rdb.items == target;
      view := view.(calls := view.calls[id := call]);
    }

    /** SET busy NX: takes the lock unless somebody holds it. */
    method TryLock(user: UserId, id: CallId, seconds: nat) returns (ok: bool)
      requires Valid()
      modifies rdb, this`view
      ensures Valid()
      ensures ok <==> user !in old(view).busy
      ensures view == if ok then old(view).(busy := old(view).busy[user := B.Lock(id, B.After(old(view), seconds))])
                      else old(view)
    {
      ghost var lock := B.Lock(id, B.After(view, seconds));
      LockReads(prefix, rdb.items, view, user);
      LockWritten(prefix, rdb.items, view, user, Some(lock));
      ok := rdb.SetNx(BusyKey(prefix, user), id, seconds);
      if ok {
        view := view.(busy := view.busy[user := lock]);
      }
    }

    method Unlock(user: UserId)
      requires Valid()
      modifies rdb, this`view
      ensures Valid() && view == old(view).(busy := old(view).busy - {user})
    {
      LockWritten(prefix, rdb.items, view, user, None);
      rdb.Del({BusyKey(prefix, user)});
      view := view.(busy := view.busy - {user});
    }

    /** The two writes of an invite that got both locks: the record and its index entry. */
    method WriteRinging(caller: UserId, callee: UserId, id: CallId, media: string, score: int)
      requires Valid() && id !in view.calls && ValidCallId(id)
      modifies rdb, this`view
      ensures Valid()
      ensures view == old(view).(
        calls := old(view).calls[id := B.Call(caller, callee, media, B.Ringing, B.After(old(view), B.RING_TTL))],
        ringing := old(view).ringing[id := score])
    {
      var record := map["caller" := caller, "callee" := callee, "media" := media, "state" := "ringing"];
      WriteCall(id, record, B.RING_TTL, B.Call(caller, callee, media, B.Ringing, B.After(view, B.RING_TTL)));
      Reads(prefix, rdb.items, view, id);
      IndexWritten(prefix, rdb.items, view, view.ringing[id := score]);
      rdb.ZAdd(RingKey(prefix), score, id);
      view := view.(ringing := view.ringing[id := score]);
    }

    method InviteScript(caller: UserId, callee: UserId, id: CallId, media: string, score: int)
      returns (fields: seq<string>)
      requires Valid() && caller != callee && id !in view.calls && ValidCallId(id)
      modifies rdb, this`view
      ensures Valid()
      ensures view == B.Invite(old(view), caller, callee, id, media, score).0
      ensures fields == Fields(B.Invite(old(view), caller, callee, id, media, score).1)
    {
      var okCaller := TryLock(caller, id, B.RING_TTL);
      if !okCaller {
        return ["self"];
      }
      var okCallee := TryLock(callee, id, B.RING_TTL);
      if !okCallee {
        Unlock(caller);
        assert view == old(view);
        return ["peer"];
      }
      WriteRinging(caller, callee, id, media, score);
      return ["ok"];
    }

    /** ZREM of one id from the index. */
    method DropIndex(id: CallId)
      requires Valid()
      modifies rdb, this`view
      ensures Valid() && view == B.Unindex(old(view), id)
    {
      Reads(prefix, rdb.items, view, id);
      IndexWritten(prefix, rdb.items, view, view.ringing - {id});
      rdb.ZRem(RingKey(prefix), id);
      view := B.Unindex(view, id);
    }

    /** DEL of the record and the two busy keys built from what the record says. */
    method DropCall(id: CallId, caller: UserId, callee: UserId)
      requires Valid() && id in view.calls
      requires caller == view.calls[id].caller && callee == view.calls[id].callee
      modifies rdb, this`view
      ensures Valid() && view == B.Release(old(view), id)
    {
      ReleaseWritten(prefix, rdb.items, view, id);
      rdb.Del({CallKey(prefix, id), BusyKey(prefix, caller), BusyKey(prefix, callee)});
      view := B.Release(view, id);
    }

    /** The reads every script starts with. */
    method Load(id: CallId) returns (state: Option<string>, caller: string, callee: string, media: string)
      requires Valid()
      ensures state == if id in view.calls then Some(PhaseText(view.calls[id].phase)) else None
      ensures id in view.calls ==>
        caller == view.calls[id].caller && callee == view.calls[id].callee && media == view.calls[id].media
    {
      Reads(prefix, rdb.items, view, id);
      state := rdb.HGet(CallKey(prefix, id), "state");
      var a := rdb.HGet(CallKey(prefix, id), "caller");
      var b := rdb.HGet(CallKey(prefix, id), "callee");
      var m := rdb.HGet(CallKey(prefix, id), "media");
      if state.None? {
        return None, "", "", "";
      }
      caller, callee, media := a.value, b.value, m.value;
    }

    method CancelScript(user: UserId, id: CallId) returns (fields: seq<string>)
      requires Valid()
      modifies rdb, this`view
      ensures Valid()
      ensures view == B.Cancel(old(view), user, id).0
      ensures fields == Fields(B.Cancel(old(view), user, id).1)
    {
      var state, caller, callee, media := Load(id);
      if state.None? {
        DropIndex(id);
        return ["missing"];
      }
      if user != caller {
        return ["forbidden"];
      }
      if state.value != "ringing" {
        return ["state"];
      }
      DropCall(id, caller, callee);
      DropIndex(id);
      return ["ok", caller, callee, media, "cancel"];
    }

    method RejectScript(user: UserId, id: CallId) returns (fields: seq<string>)
      requires Valid()
      modifies rdb, this`view
      ensures Valid()
      ensures view == B.Reject(old(view), user, id).0
      ensures fields == Fields(B.Reject(old(view), user, id).1)
    {
      var state, caller, callee, media := Load(id);
      if state.None? {
        DropIndex(id);
        return ["missing"];
      }
      if user != callee {
        return ["forbidden"];
      }
      if state.value != "ringing" {
        return ["state"];
      }
      DropCall(id, caller, callee);
      DropIndex(id);
      return ["ok", caller, callee, media, "reject"];
    }

    /** EXPIRE of one busy key: nothing happens when the lock is gone. */
    method RenewLock(user: UserId, seconds: nat)
      requires Valid()
      modifies rdb, this`view
      ensures Valid()
      ensures view == old(view).(busy := B.Renew(old(view).busy, user, B.After(old(view), seconds)))
    {
      LockReads(prefix, rdb.items, view, user);
      if user in view.busy {
        LockWritten(prefix, rdb.items, view, user, Some(view.busy[user].(deadline := B.After(view, seconds))));
      }
      rdb.Expire(BusyKey(prefix, user), seconds);
      view := view.(busy := B.Renew(view.busy, user, B.After(view, seconds)));
    }

    method AcceptScript(user: UserId, id: CallId, seconds: nat) returns (fields: seq<string>)
      requires Valid() && seconds == B.ACCEPTED_TTL
      modifies rdb, this`view
      ensures Valid()
      ensures view == B.Accept(old(view), user, id).0
      ensures fields == Fields(B.Accept(old(view), user, id).1)
    {
      var state, caller, callee, media := Load(id);
      if state.None? {
        DropIndex(id);
        return ["missing"];
      }
      if user != callee {
        return ["forbidden"];
      }
      if state.value != "ringing" {
        return ["state"];
      }
      WriteCall(id, map["state" := "accepted"], seconds,
                view.calls[id].(phase := B.Accepted, deadline := B.After(view, seconds)));
      RenewLock(caller, seconds);
      RenewLock(callee, seconds);
      DropIndex(id);
      return ["ok", caller, callee, media];
    }

    method HangupScript(user: UserId, id: CallId) returns (fields: seq<string>)
      requires Valid()
      modifies rdb, this`view
      ensures Valid()
      ensures view == B.Hangup(old(view), user, id).0
      ensures fields == Fields(B.Hangup(old(view), user, id).1)
    {
      var state, caller, callee, media := Load(id);
      if state.None? {
        return ["missing"];
      }
      if user != caller && user != callee {
        return ["forbidden"];
      }
      if state.value != "accepted" {
        return ["state"];
      }
      DropCall(id, caller, callee);
      return ["ok", caller, callee, media, "hangup"];
    }

    method TimeoutScript(id: CallId) returns (fields: seq<string>)
      requires Valid()
      modifies rdb, this`view
      ensures Valid()
      ensures view == B.Timeout(old(view), id).0
      ensures fields == Fields(B.Timeout(old(view), id).1)
    {
      var state, caller, callee, media := Load(id);
      if state.None? {
        DropIndex(id);
        return ["missing"];
      }
      if state.value != "ringing" {
        DropIndex(id);
        return ["state"];
      }
      DropCall(id, caller, callee);
      DropIndex(id);
      return ["ok", caller, callee, media, "timeout"];
    }

    // ---- the exported operations ----

    /** An id that no invite has used yet has no record. */
    lemma FreshIsAbsent(id: CallId)
      requires Ran() && id !in R.Run(trace).born
      ensures id !in view.calls
    {
      R.Reachable(trace);
      assert R.Documented(R.Run(trace), id);
    }

    method Invite(caller: UserId, callee: UserId, media: string, id: CallId, issued: nat)
      returns (r: Result<Signal, Error>)
      requires Valid() && Ran() && issued <= view.now
      requires ValidCallId(id) && id !in R.Run(trace).born // a freshly drawn id
      modifies rdb, this`view, this`trace
      ensures Valid() && Ran()
      ensures trace == old(trace) +
        if Invitable(caller, callee, media) then [R.DoInvite(caller, callee, id, media, issued)] else []
      ensures !Invitable(caller, callee, media) ==> view == old(view) && r == Err(Invalid)
      ensures Invitable(caller, callee, media) ==>
        var (next, reply) := B.Invite(old(view), caller, callee, id, media, R.Score(issued));
        view == next && r == match reply
          case SelfBusy => Err(Busy)
          case PeerBusy => Err(PeerIsBusy)
          case _ => Ok(Signal("invite", id, caller, callee, media, ""))
      ensures Invitable(caller, callee, media) ==>
        && (r == Err(Busy) <==> caller in old(view).busy)
        && (r == Err(PeerIsBusy) <==> caller !in old(view).busy && callee in old(view).busy)
        && (r.Ok? <==> caller !in old(view).busy && callee !in old(view).busy)
      ensures r.Ok? ==>
        && r.value == Signal("invite", id, caller, callee, media, "")
        && id in view.calls && view.calls[id] == B.Call(caller, callee, media, B.Ringing, view.now + 70_000)
        && id in view.ringing && view.ringing[id] == issued / 1000 + 45
    {
      var ok := CheckInvite(caller, callee, media);
      if !ok {
        return Err(Invalid);
      }
      FreshIsAbsent(id);
      var fields := InviteScript(caller, callee, id, media, R.Score(issued));
      Record(R.DoInvite(caller, callee, id, media, issued));
      match fields[0] {
        case "ok" => r := Ok(Signal("invite", id, caller, callee, media, ""));
        case "self" => r := Err(Busy);
        case "peer" => r := Err(PeerIsBusy);
        case _ => r := Err(Internal);
      }
    }

    method Cancel(user: UserId, id: CallId) returns (r: Result<Signal, Error>)
      requires Valid() && Ran()
      modifies rdb, this`view, this`trace
      ensures Valid() && Ran()
      ensures trace == old(trace) + if Addressable(user, id) then [R.DoCancel(user, id)] else []
      ensures !Addressable(user, id) ==> view == old(view) && r == Err(Invalid)
      ensures Addressable(user, id) ==>
        view == B.Cancel(old(view), user, id).0 && r == Outcome("cancel", id, B.Cancel(old(view), user, id).1)
      ensures Addressable(user, id) ==> (r == Err(NotFound) <==> id !in old(view).calls)
      ensures Addressable(user, id) && id in old(view).calls ==>
        var c := old(view).calls[id];
        && (r.Ok? <==> user == c.caller && c.phase == B.Ringing)
        && (r == Err(NotMember) <==> !(user == c.caller))
        && (r == Err(BadState) <==> user == c.caller && c.phase != B.Ringing)
        && (r.Ok? ==> r.value == Signal("cancel", id, c.caller, c.callee, c.media, "cancel"))
    {
      var ok := CheckAddress(user, id);
      if !ok {
        return Err(Invalid);
      }
      var fields := CancelScript(user, id);
      r := Decode("cancel", id, fields);
      Record(R.DoCancel(user, id));
    }

    method Reject(user: UserId, id: CallId) returns (r: Result<Signal, Error>)
      requires Valid() && Ran()
      modifies rdb, this`view, this`trace
      ensures Valid() && Ran()
      ensures trace == old(trace) + if Addressable(user, id) then [R.DoReject(user, id)] else []
      ensures !Addressable(user, id) ==> view == old(view) && r == Err(Invalid)
      ensures Addressable(user, id) ==>
        view == B.Reject(old(view), user, id).0 && r == Outcome("reject", id, B.Reject(old(view), user, id).1)
      ensures Addressable(user, id) ==> (r == Err(NotFound) <==> id !in old(view).calls)
      ensures Addressable(user, id) && id in old(view).calls ==>
        var c := old(view).calls[id];
        && (r.Ok? <==> user == c.callee && c.phase == B.Ringing)
        && (r == Err(NotMember) <==> !(user == c.callee))
        && (r == Err(BadState) <==> user == c.callee && c.phase != B.Ringing)
        && (r.Ok? ==> r.value == Signal("reject", id, c.caller, c.callee, c.media, "reject"))
    {
      var ok := CheckAddress(user, id);
      if !ok {
        return Err(Invalid);
      }
      var fields := RejectScript(user, id);
      r := Decode("reject", id, fields);
      Record(R.DoReject(user, id));
    }

    method Accept(user: UserId, id: CallId) returns (r: Result<Signal, Error>)
      requires Valid() && Ran()
      modifies rdb, this`view, this`trace
      ensures Valid() && Ran()
      ensures trace == old(trace) + if Addressable(user, id) then [R.DoAccept(user, id)] else []
      ensures !Addressable(user, id) ==> view == old(view) && r == Err(Invalid)
      ensures Addressable(user, id) ==>
        view == B.Accept(old(view), user, id).0 && r == Outcome("accept", id, B.Accept(old(view), user, id).1)
      ensures Addressable(user, id) ==> (r == Err(NotFound) <==> id !in old(view).calls)
      ensures Addressable(user, id) && id in old(view).calls ==>
        var c := old(view).calls[id];
        && (r.Ok? <==> user == c.callee && c.phase == B.Ringing)
        && (r == Err(NotMember) <==> !(user == c.callee))
        && (r == Err(BadState) <==> user == c.callee && c.phase != B.Ringing)
        && (r.Ok? ==> r.value == Signal("accept", id, c.caller, c.callee, c.media, ""))
    {
      var ok := CheckAddress(user, id);
      if !ok {
        return Err(Invalid);
      }
      var fields := AcceptScript(user, id, B.ACCEPTED_TTL);
      r := Decode("accept", id, fields);
      Record(R.DoAccept(user, id));
    }

    method Hangup(user: UserId, id: CallId) returns (r: Result<Signal, Error>)
      requires Valid() && Ran()
      modifies rdb, this`view, this`trace
      ensures Valid() && Ran()
      ensures trace == old(trace) + if Addressable(user, id) then [R.DoHangup(user, id)] else []
      ensures !Addressable(user, id) ==> view == old(view) && r == Err(Invalid)
      ensures Addressable(user, id) ==>
        view == B.Hangup(old(view), user, id).0 && r == Outcome("hangup", id, B.Hangup(old(view), user, id).1)
      ensures Addressable(user, id) ==> (r == Err(NotFound) <==> id !in old(view).calls)
      ensures Addressable(user, id) && id in old(view).calls ==>
        var c := old(view).calls[id];
        && (r.Ok? <==> (user == c.caller || user == c.callee) && c.phase == B.Accepted)
        && (r == Err(NotMember) <==> !(user == c.caller || user == c.callee))
        && (r == Err(BadState) <==> (user == c.caller || user == c.callee) && c.phase != B.Accepted)
        && (r.Ok? ==> r.value == Signal("hangup", id, c.caller, c.callee, c.media, "hangup"))
    {
      var ok := CheckAddress(user, id);
      if !ok {
        return Err(Invalid);
      }
      var fields := HangupScript(user, id);
      r := Decode("hangup", id, fields);
      Record(R.DoHangup(user, id));
    }

    /** Reads a call its participant has already joined; nothing changes. */
    method Accepted(user: UserId, id: CallId) returns (r: Result<Signal, Error>)
      requires Valid()
      ensures r.Ok? <==>
        && ValidCallId(id) && ValidUser(user)
        && id in view.calls && view.calls[id].Has(user) && view.calls[id].phase == B.Accepted
      ensures r.Ok? ==>
        r.value == Signal("", id, view.calls[id].caller, view.calls[id].callee, view.calls[id].media, "")
      ensures r == Err(Invalid) <==> !ValidCallId(id) || !ValidUser(user)
      ensures ValidCallId(id) && ValidUser(user) ==>
        && (r == Err(NotFound) <==> id !in view.calls)
        && (r == Err(NotMember) <==> id in view.calls && user != view.calls[id].caller && user != view.calls[id].callee)
        && (r == Err(BadState) <==>
              && id in view.calls && view.calls[id].phase == B.Ringing
              && (user == view.calls[id].caller || user == view.calls[id].callee))
    {
      var call := CheckCallId(id);
      var party := CheckUser(user);
      if !call || !party {
        return Err(Invalid);
      }
      var state, caller, callee, media := Load(id);
      if state.None? {
        return Err(NotFound);
      }
      if user != caller && user != callee {
        return Err(NotMember);
      }
      if state.value != "accepted" {
        return Err(BadState);
      }
      return Ok(Signal("", id, caller, callee, media, ""));
    }

    /** The index read of a pass: fails only for the one instant that has no decimal. */
    method ReadDue(now: D.int64) returns (ids: Option<seq<CallId>>)
      requires Valid()
      ensures ids.Some? <==> now != D.MIN_INT64
      ensures ids.Some? ==> Range(view.ringing, now, 20, ids.value) && forall id <- ids.value :: ValidCallId(id)
    {
      var max := D.JsonNumber(now);
      D.JsonTextRoundTrip(now);
      Reads(prefix, rdb.items, view, "");
      ids := rdb.ZRangeUpTo(RingKey(prefix), max, 20);
      if ids.None? {
        D.MinimumIsNoNumber();
      } else {
        forall id | id in ids.value ensures ValidCallId(id) {
          assert id in Overdue(view.ringing, now);
        }
      }
    }

    /** Ends what one index read found overdue. On a store that the board itself has filled
        the pass never stops early, and its report is exactly the calls it ended. */
    method Expire(now: D.int64, ghost worker: nat)
      returns (out: seq<Signal>, err: Option<Error>, ghost found: seq<CallId>)
      requires Valid() && Ran()
      modifies rdb, this`view, this`trace
      ensures Valid() && Ran()
      ensures err.None? <==> now != D.MIN_INT64
      ensures err.Some? ==> view == old(view) && out == [] && trace == old(trace)
      ensures err.None? ==>
        && Range(old(view).ringing, now, 20, found)
        && view == S.TimeoutAll(old(view), found)
        && out == Signals(S.EndedBy(old(view), found))
        && trace == old(trace) + [R.StartSweep(worker, now, found)] + Timeouts(worker, |found|)
      ensures err.None? ==> forall g :: g in out <==>
        && g.call in found && g.call in old(view).calls && old(view).calls[g.call].phase == B.Ringing
        && var c := old(view).calls[g.call]; g == Signal("timeout", g.call, c.caller, c.callee, c.media, "timeout")
    {
      out, found := [], [];
      var ids := ReadDue(now);
      if ids.None? {
        return [], Some(Internal), [];
      }
      found := ids.value;
      Record(R.StartSweep(worker, now, found));
      ReportIsExact(view, found);
      out, err := TimeoutEach(ids.value, worker);
    }

    /** What a sweeper between its index read and its last timeout still has to do. */
    ghost function Left(worker: nat): seq<CallId>
      reads this
    {
      R.Left(R.Run(trace), worker)
    }

    /** The loop of Expire: an id that lost a race yields nothing, any other error stops the pass. */
    method TimeoutEach(ids: seq<CallId>, ghost worker: nat) returns (out: seq<Signal>, err: Option<Error>)
      requires Valid() && Ran() && Left(worker) == ids
      modifies rdb, this`view, this`trace
      ensures Valid() && Ran()
      ensures (forall id <- ids :: ValidCallId(id)) ==> err.None?
      ensures err.None? ==> view == S.TimeoutAll(old(view), ids) && out == Signals(S.EndedBy(old(view), ids))
      ensures err.None? ==> trace == old(trace) + Timeouts(worker, |ids|)
    {
      ghost var goal, steps, rest := Goal(view, ids, []), trace + Timeouts(worker, |ids|), ids;
      GoalEnds(view, ids, []);
      out := [];
      var i := 0;
      while i < |ids|
        invariant i <= |ids| && rest == ids[i..] && Valid() && Ran() && Left(worker) == rest
        invariant Goal(view, rest, out) == goal
        invariant trace + Timeouts(worker, |rest|) == steps
      {
        OneMoreTimeout(trace, worker, |rest|);
        out, err := TimeoutRound(ids[i], out, worker);
        if err.Some? {
          return;
        }
        rest := rest[1..];
        i := i + 1;
      }
      GoalEnds(view, [], out);
      NoTimeoutLeft(trace, worker);
      err := None;
    }

    /** One round of that loop. */
    method TimeoutRound(id: CallId, sofar: seq<Signal>, ghost worker: nat)
      returns (out: seq<Signal>, err: Option<Error>)
      requires Valid() && Ran() && Left(worker) != [] && Left(worker)[0] == id
      modifies rdb, this`view, this`trace
      ensures Valid() && Ran()
      ensures ValidCallId(id) ==> err.None?
      ensures err.None? ==> Goal(view, old(Left(worker))[1..], out) == old(Goal(view, Left(worker), sofar))
      ensures err.None? ==> trace == old(trace) + [R.SweepNext(worker)] && Left(worker) == old(Left(worker))[1..]
    {
      GoalStays(view, Left(worker), sofar);
      var r := TimeoutOne(id, worker);
      out, err := sofar, None;
      if r.Err? && r.error != NotFound && r.error != BadState {
        return out, Some(r.error);
      }
      assert r.Err? ==> out + Reported(r) == out;
      if r.Ok? {
        out := out + [r.value];
      }
    }

    method TimeoutOne(id: CallId, ghost worker: nat) returns (r: Result<Signal, Error>)
      requires Valid() && Ran()
      requires Left(worker) != [] && Left(worker)[0] == id
      modifies rdb, this`view, this`trace
      ensures Valid() && Ran()
      ensures !ValidCallId(id) ==> view == old(view) && r == Err(Invalid) && trace == old(trace)
      ensures ValidCallId(id) ==>
        view == B.Timeout(old(view), id).0 && r == Outcome("timeout", id, B.Timeout(old(view), id).1)
      ensures ValidCallId(id) ==> trace == old(trace) + [R.SweepNext(worker)] && Left(worker) == old(Left(worker))[1..]
    {
      var ok := CheckAddress("", id);
      if !ok {
        return Err(Invalid);
      }
      var fields := TimeoutScript(id);
      r := Decode("timeout", id, fields);
      Record(R.SweepNext(worker));
    }
  }
}
