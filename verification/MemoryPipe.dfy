/**
 * One topic of the in-process queue (pkg/mq/memory.go) as a machine whose steps are the two
 * mutex sections and the channel operations around them, interleaved in any order.
 *
 * A message is known by its ticket, its place in the order of the senders' lock sections. A
 * channel is its whole history `log` with a read position: what it holds now is `log[read..]`.
 * A step whose channel is full, empty or not yet there is blocked and leaves the state as it is.
 */
module MemoryPipe {
  import opened Tickets

  const CAPACITY := 256

  datatype Message = Message(producer: nat, key: string, value: string)

  // A sender past its lock section: it holds the first `targets` channels and is at number `next`.
  datatype Flight = Flight(ticket: nat, next: nat, targets: nat)

  // A subscriber: how many messages were locked in when it registered, what it still has to
  // push of the buffer it took over, and its channel.
  datatype Sub = Sub(joined: nat, pending: seq<nat>, log: seq<nat>, read: nat)

  datatype State = State(sent: seq<Message>, buf: seq<nat>, subs: seq<Sub>, flights: map<nat, Flight>)

  datatype Action = Enter(m: Message) | Put(producer: nat) | Join | Feed(sub: nat) | Take(sub: nat)

  predicate Room(sub: Sub) {
    |sub.log| - sub.read < CAPACITY
  }

  predicate Enabled(s: State, a: Action) {
    match a
    case Enter(m) => m.producer !in s.flights
    case Put(p) => p in s.flights && s.flights[p].next < |s.subs| && Room(s.subs[s.flights[p].next])
    case Join => true
    case Feed(i) => i < |s.subs| && s.subs[i].pending != [] && Room(s.subs[i])
    case Take(i) => i < |s.subs| && s.subs[i].pending == [] && s.subs[i].read < |s.subs[i].log|
  }

  function Pushed(sub: Sub, ticket: nat): Sub {
    sub.(log := sub.log + [ticket])
  }

  function Advanced(flights: map<nat, Flight>, p: nat): map<nat, Flight>
    requires p in flights
  {
    var f := flights[p];
    if f.next + 1 < f.targets then flights[p := f.(next := f.next + 1)] else flights - {p}
  }

  function Step(s: State, a: Action): State {
    if !Enabled(s, a) then s else
    match a
    case Enter(m) =>
      var t := |s.sent|;
      if s.subs == [] then s.(sent := s.sent + [m], buf := s.buf + [t])
      else s.(sent := s.sent + [m], flights := s.flights[m.producer := Flight(t, 0, |s.subs|)])
    case Put(p) =>
      var f := s.flights[p];
      s.(subs := s.subs[f.next := Pushed(s.subs[f.next], f.ticket)], flights := Advanced(s.flights, p))
    case Join =>
      s.(subs := s.subs + [Sub(|s.sent|, s.buf, [], 0)], buf := [])
    case Feed(i) =>
      var sub := s.subs[i];
      s.(subs := s.subs[i := Pushed(sub, sub.pending[0]).(pending := sub.pending[1..])])
    case Take(i) =>
      s.(subs := s.subs[i := s.subs[i].(read := s.subs[i].read + 1)])
  }

  function Run(s: State, trace: seq<Action>): State
    decreases |trace|
  {
    if trace == [] then s else Step(Run(s, trace[..|trace| - 1]), trace[|trace| - 1])
  }

  lemma RunStep(s: State, trace: seq<Action>, a: Action)
    ensures Run(s, trace + [a]) == Step(Run(s, trace), a)
  {
    assert (trace + [a])[..|trace|] == trace;
  }

  const EMPTY := State([], [], [], map[])

  // ---- What a subscriber is owed ----

  predicate Mine(sent: seq<Message>, t: nat, p: nat, joined: nat) {
    joined <= t < |sent| && sent[t].producer == p
  }

  // The tickets of `ts` that belong to producer p and were locked in after `joined`, in order.
  function FromProducer(sent: seq<Message>, ts: seq<nat>, p: nat, joined: nat): seq<nat>
    decreases |ts|
  {
    if ts == [] then [] else
    var n := |ts| - 1;
    FromProducer(sent, ts[..n], p, joined) + if Mine(sent, ts[n], p, joined) then [ts[n]] else []
  }

  // The tickets of `ts` locked in before `joined`, in order.
  function Before(ts: seq<nat>, joined: nat): seq<nat>
    decreases |ts|
  {
    if ts == [] then [] else
    var n := |ts| - 1;
    Before(ts[..n], joined) + if ts[n] < joined then [ts[n]] else []
  }

  // What producer p's sender still holds for subscriber i.
  function Outstanding(s: State, p: nat, i: nat): seq<nat> {
    if p in s.flights && s.flights[p].next <= i < s.flights[p].targets then [s.flights[p].ticket] else []
  }

  // ---- The invariant ----

  ghost predicate BufferOnlyBeforeSubscribers(s: State) {
    s.buf == if s.subs == [] then Upto(|s.sent|) else []
  }

  ghost predicate Channel(s: State, i: nat)
    requires i < |s.subs|
  {
    var sub := s.subs[i];
    && sub.joined <= |s.sent|
    && sub.read <= |sub.log| <= sub.read + CAPACITY
    && (sub.pending != [] ==> sub.read == 0)
    && forall k :: 0 <= k < |sub.log| ==> sub.log[k] < |s.sent|
  }

  // A sender aims at exactly the subscribers registered at its lock section.
  ghost predicate Aimed(s: State, p: nat)
    requires p in s.flights
  {
    var f := s.flights[p];
    && f.ticket < |s.sent|
    && s.sent[f.ticket].producer == p
    && f.next < f.targets <= |s.subs|
    && forall i: nat :: i < |s.subs| ==> (i < f.targets <==> s.subs[i].joined <= f.ticket)
  }

  // The buffer goes, in order, to the first subscriber and to nobody else.
  ghost predicate BacklogKept(s: State, i: nat)
    requires i < |s.subs|
  {
    var sub := s.subs[i];
    Before(sub.log, sub.joined) + sub.pending == if i == 0 then Upto(sub.joined) else []
  }

  // What one producer locked in after the registration is what the channel got from it, in
  // order, followed by the message its sender still holds.
  ghost predicate ProducerKept(s: State, i: nat, p: nat)
    requires i < |s.subs|
  {
    var sub := s.subs[i];
    FromProducer(s.sent, sub.log, p, sub.joined) + Outstanding(s, p, i)
    == FromProducer(s.sent, Upto(|s.sent|), p, sub.joined)
  }

  ghost predicate Inv(s: State) {
    && BufferOnlyBeforeSubscribers(s)
    && (forall i: nat {:trigger Channel(s, i)} :: i < |s.subs| ==> Channel(s, i))
    && (forall p: nat {:trigger Aimed(s, p)} :: p in s.flights ==> Aimed(s, p))
    && (forall i: nat {:trigger BacklogKept(s, i)} :: i < |s.subs| ==> BacklogKept(s, i))
    && (forall i: nat, p: nat {:trigger ProducerKept(s, i, p)} :: i < |s.subs| ==> ProducerKept(s, i, p))
  }

  // ---- Lists of tickets ----

  lemma FromProducerLast(sent: seq<Message>, ts: seq<nat>, t: nat, p: nat, joined: nat)
    ensures FromProducer(sent, ts + [t], p, joined)
         == FromProducer(sent, ts, p, joined) + if Mine(sent, t, p, joined) then [t] else []
  {
    assert (ts + [t])[..|ts|] == ts;
  }

  lemma BeforeLast(ts: seq<nat>, t: nat, joined: nat)
    ensures Before(ts + [t], joined) == Before(ts, joined) + if t < joined then [t] else []
  {
    assert (ts + [t])[..|ts|] == ts;
  }

  // A new message changes nothing about older tickets.
  lemma {:induction false} FromProducerLater(sent: seq<Message>, m: Message, ts: seq<nat>, p: nat, joined: nat)
    requires forall k :: 0 <= k < |ts| ==> ts[k] < |sent|
    ensures FromProducer(sent + [m], ts, p, joined) == FromProducer(sent, ts, p, joined)
    decreases |ts|
  {
    if ts != [] {
      FromProducerLater(sent, m, ts[..|ts| - 1], p, joined);

    }
  }

  lemma {:induction false} NothingYet(sent: seq<Message>, n: nat, p: nat, joined: nat)
    requires n <= joined
    ensures FromProducer(sent, Upto(n), p, joined) == []
  {
    if n > 0 {
      NothingYet(sent, n - 1, p, joined);
      FromProducerLast(sent, Upto(n - 1), n - 1, p, joined);
    }
  }

  // ---- Every step keeps the invariant ----

  lemma OneMoreSent(sent: seq<Message>, m: Message, p: nat, joined: nat)
    requires joined <= |sent|
    ensures FromProducer(sent + [m], Upto(|sent + [m]|), p, joined)
         == FromProducer(sent, Upto(|sent|), p, joined) + if m.producer == p then [|sent|] else []
  {
    var n := |sent|;
    UptoAt(n);
    FromProducerLater(sent, m, Upto(n), p, joined);
    FromProducerLast(sent + [m], Upto(n), n, p, joined);
  }

  lemma EnterHolds(s: State, m: Message, i: nat, p: nat)
    requires m.producer !in s.flights && i < |s.subs|
    ensures Step(s, Enter(m)).subs == s.subs && Step(s, Enter(m)).sent == s.sent + [m]
    ensures Outstanding(Step(s, Enter(m)), p, i)
         == Outstanding(s, p, i) + if m.producer == p then [|s.sent|] else []
  {
  }

  lemma EnterOwes(s: State, m: Message, i: nat, p: nat)
    requires Inv(s) && m.producer !in s.flights && i < |s.subs|
    ensures ProducerKept(Step(s, Enter(m)), i, p)
  {
    var sub := s.subs[i];
    assert Channel(s, i) && ProducerKept(s, i, p);
    FromProducerLater(s.sent, m, sub.log, p, sub.joined);
    OneMoreSent(s.sent, m, p, sub.joined);
    EnterHolds(s, m, i, p);
    Regroup(FromProducer(s.sent, sub.log, p, sub.joined), Outstanding(s, p, i),
      if m.producer == p then [|s.sent|] else []);
  }

  lemma Regroup(a: seq<nat>, b: seq<nat>, c: seq<nat>)
    ensures a + (b + c) == (a + b) + c
  {
  }

  lemma EnterKeepsInv(s: State, m: Message)
    requires Inv(s) && m.producer !in s.flights
    ensures Inv(Step(s, Enter(m)))
  {
    var s' := Step(s, Enter(m));
    forall i: nat, p: nat | i < |s'.subs| ensures ProducerKept(s', i, p) { EnterOwes(s, m, i, p); }
    forall i: nat | i < |s'.subs| ensures Channel(s', i) { assert Channel(s, i); }
    forall i: nat | i < |s'.subs| ensures BacklogKept(s', i) { assert BacklogKept(s, i); }
    forall p: nat | p in s'.flights ensures Aimed(s', p) {
      if p != m.producer {
        assert Aimed(s, p);
      } else {
        forall i: nat | i < |s.subs| ensures s.subs[i].joined <= |s.sent| { assert Channel(s, i); }
      }
    }
  }

  lemma PutOwes(s: State, p: nat, i: nat, q: nat)
    requires Inv(s) && Enabled(s, Put(p)) && i < |s.subs|
    ensures ProducerKept(Step(s, Put(p)), i, q)
  {
    assert Aimed(s, p) && ProducerKept(s, i, q);
    var f, sub := s.flights[p], s.subs[i];
    FromProducerLast(s.sent, sub.log, f.ticket, q, sub.joined);
    PutMoves(s, p, i, q);
    var got, held := FromProducer(s.sent, sub.log, q, sub.joined), Outstanding(s, q, i);
    if i == f.next && q == p { assert got + held == (got + held) + []; }
  }

  // The round for channel i moves the message from the sender to the channel, and no other round touches either.
  lemma PutMoves(s: State, p: nat, i: nat, q: nat)
    requires Enabled(s, Put(p)) && Aimed(s, p) && i < |s.subs|
    ensures Outstanding(Step(s, Put(p)), q, i)
         == if i == s.flights[p].next && q == p then [] else Outstanding(s, q, i)
    ensures i == s.flights[p].next ==> Outstanding(s, p, i) == [s.flights[p].ticket]
  {
  }

  lemma PutSub(s: State, p: nat, i: nat)
    requires Enabled(s, Put(p)) && i < |s.subs|
    ensures Step(s, Put(p)).sent == s.sent && |Step(s, Put(p)).subs| == |s.subs|
    ensures Step(s, Put(p)).subs[i]
         == if i == s.flights[p].next then Pushed(s.subs[i], s.flights[p].ticket) else s.subs[i]
  {
  }

  lemma PutFills(s: State, p: nat, i: nat)
    requires Inv(s) && Enabled(s, Put(p)) && i < |s.subs|
    ensures Channel(Step(s, Put(p)), i)
  {
    assert Aimed(s, p) && Channel(s, i);
    PutSub(s, p, i);
  }

  lemma PutLeavesBacklog(s: State, p: nat, i: nat)
    requires Inv(s) && Enabled(s, Put(p)) && i < |s.subs|
    ensures BacklogKept(Step(s, Put(p)), i)
  {
    var s', f, sub := Step(s, Put(p)), s.flights[p], s.subs[i];
    assert Aimed(s, p) && BacklogKept(s, i);
    PutSub(s, p, i);
    if i == f.next {
      BeforeLast(sub.log, f.ticket, sub.joined);
      assert s'.subs[i] == Pushed(sub, f.ticket);
      assert Before(sub.log, sub.joined) + [] == Before(sub.log, sub.joined);
    } else {
      assert s'.subs[i] == sub;
    }
  }

  lemma PutAims(s: State, p: nat, q: nat)
    requires Inv(s) && Enabled(s, Put(p)) && q in Step(s, Put(p)).flights
    ensures Aimed(Step(s, Put(p)), q)
  {
    assert Aimed(s, p) && Aimed(s, q);
  }

  lemma PutKeepsInv(s: State, p: nat)
    requires Inv(s) && Enabled(s, Put(p))
    ensures Inv(Step(s, Put(p)))
  {
    var s' := Step(s, Put(p));
    forall i: nat, q: nat | i < |s'.subs| ensures ProducerKept(s', i, q) { PutOwes(s, p, i, q); }
    forall i: nat | i < |s'.subs| ensures Channel(s', i) { PutFills(s, p, i); }
    forall i: nat | i < |s'.subs| ensures BacklogKept(s', i) { PutLeavesBacklog(s, p, i); }
    forall q: nat | q in s'.flights ensures Aimed(s', q) { PutAims(s, p, q); }
  }

  lemma JoinOwes(s: State, i: nat, p: nat)
    requires Inv(s) && i <= |s.subs|
    ensures ProducerKept(Step(s, Join), i, p)
  {
    if i < |s.subs| {
      assert ProducerKept(s, i, p);
    } else {
      NothingYet(s.sent, |s.sent|, p, |s.sent|);
      if p in s.flights { assert Aimed(s, p); }
    }
  }

  lemma JoinAims(s: State, p: nat)
    requires Inv(s) && p in s.flights
    ensures Aimed(Step(s, Join), p)
  {
    assert Aimed(s, p);
  }

  lemma JoinKeepsInv(s: State)
    requires Inv(s)
    ensures Inv(Step(s, Join))
  {
    var s' := Step(s, Join);
    forall i: nat, p: nat | i < |s'.subs| ensures ProducerKept(s', i, p) { JoinOwes(s, i, p); }
    forall i: nat | i < |s'.subs| ensures Channel(s', i) { if i < |s.subs| { assert Channel(s, i); } }
    forall i: nat | i < |s'.subs| ensures BacklogKept(s', i) { if i < |s.subs| { assert BacklogKept(s, i); } }
    forall p: nat | p in s'.flights ensures Aimed(s', p) { JoinAims(s, p); }
  }

  // Only the first subscriber has anything pending, and all of it is older than its registration.
  lemma PendingIsBacklog(s: State, i: nat, k: nat)
    requires i < |s.subs| && BacklogKept(s, i) && k < |s.subs[i].pending|
    ensures i == 0
    ensures s.subs[i].pending[k] == |Before(s.subs[i].log, s.subs[i].joined)| + k < s.subs[i].joined
  {
    var sub := s.subs[i];
    var early := Before(sub.log, sub.joined);
    assert sub.pending[k] == (early + sub.pending)[|early| + k];
    UptoAt(sub.joined);
  }

  lemma FeedOwes(s: State, i: nat, j: nat, p: nat)
    requires Inv(s) && Enabled(s, Feed(i)) && j < |s.subs|
    ensures ProducerKept(Step(s, Feed(i)), j, p)
  {
    var sub := s.subs[i];
    assert BacklogKept(s, i) && ProducerKept(s, j, p);
    PendingIsBacklog(s, i, 0);
    FromProducerLast(s.sent, sub.log, sub.pending[0], p, sub.joined);
  }

  lemma OneFed(log: seq<nat>, pending: seq<nat>, joined: nat)
    requires pending != [] && pending[0] < joined
    ensures Before(log + [pending[0]], joined) + pending[1..] == Before(log, joined) + pending
  {
    BeforeLast(log, pending[0], joined);
    assert pending == [pending[0]] + pending[1..];
  }

  lemma FeedBacklog(s: State, i: nat, j: nat)
    requires Inv(s) && Enabled(s, Feed(i)) && j < |s.subs|
    ensures BacklogKept(Step(s, Feed(i)), j)
  {
    var s', sub := Step(s, Feed(i)), s.subs[i];
    assert BacklogKept(s, i) && BacklogKept(s, j);
    if i == j {
      PendingIsBacklog(s, i, 0);
      OneFed(sub.log, sub.pending, sub.joined);
      assert s'.subs[i] == Sub(sub.joined, sub.pending[1..], sub.log + [sub.pending[0]], sub.read);
    } else {
      assert s'.subs[j] == s.subs[j];
    }
  }

  lemma FeedKeepsInv(s: State, i: nat)
    requires Inv(s) && Enabled(s, Feed(i))
    ensures Inv(Step(s, Feed(i)))
  {
    var s' := Step(s, Feed(i));
    assert Channel(s, i) && BacklogKept(s, i);
    PendingIsBacklog(s, i, 0);
    forall j: nat, p: nat | j < |s'.subs| ensures ProducerKept(s', j, p) { FeedOwes(s, i, j, p); }
    forall j: nat | j < |s'.subs| ensures Channel(s', j) { assert Channel(s, j); }
    forall j: nat | j < |s'.subs| ensures BacklogKept(s', j) { FeedBacklog(s, i, j); }
    forall p: nat | p in s'.flights ensures Aimed(s', p) { assert Aimed(s, p); }
  }

  lemma TakeKeepsInv(s: State, i: nat)
    requires Inv(s) && Enabled(s, Take(i))
    ensures Inv(Step(s, Take(i)))
  {
    var s' := Step(s, Take(i));
    forall j: nat, p: nat | j < |s'.subs| ensures ProducerKept(s', j, p) { assert ProducerKept(s, j, p); }
    forall j: nat | j < |s'.subs| ensures Channel(s', j) { assert Channel(s, j); }
    forall j: nat | j < |s'.subs| ensures BacklogKept(s', j) { assert BacklogKept(s, j); }
    forall p: nat | p in s'.flights ensures Aimed(s', p) { assert Aimed(s, p); }
  }

  lemma StepKeepsInv(s: State, a: Action)
    requires Inv(s)
    ensures Inv(Step(s, a))
  {
    if Enabled(s, a) {
      match a
      case Enter(m) => EnterKeepsInv(s, m);
      case Put(p) => PutKeepsInv(s, p);
      case Join => JoinKeepsInv(s);
      case Feed(i) => FeedKeepsInv(s, i);
      case Take(i) => TakeKeepsInv(s, i);
    }
  }

  lemma {:induction false} RunKeepsInv(trace: seq<Action>)
    ensures Inv(Run(EMPTY, trace))
    decreases |trace|
  {
    if trace != [] {
      RunKeepsInv(trace[..|trace| - 1]);
      StepKeepsInv(Run(EMPTY, trace[..|trace| - 1]), trace[|trace| - 1]);
    }
  }

  // ---- Conservation: every message exactly once ----

  // The places where subscriber i has, or is about to get, message t.
  function Copies(s: State, i: nat, t: nat): nat
    requires i < |s.subs| && t < |s.sent|
  {
    multiset(s.subs[i].log)[t] + multiset(s.subs[i].pending)[t]
    + multiset(Outstanding(s, s.sent[t].producer, i))[t]
  }

  // Registered when t was locked in, or first to come and so heir of the buffer.
  predicate Entitled(s: State, i: nat, t: nat)
    requires i < |s.subs|
  {
    i == 0 || s.subs[i].joined <= t
  }

  lemma OneMoreCounts(ts: seq<nat>, last: nat, t: nat)
    ensures multiset(ts + [last])[t] == multiset(ts)[t] + if last == t then 1 else 0
  {
  }

  lemma {:induction false} FromProducerCounts(sent: seq<Message>, ts: seq<nat>, t: nat, joined: nat)
    requires joined <= t < |sent|
    ensures multiset(FromProducer(sent, ts, sent[t].producer, joined))[t] == multiset(ts)[t]
    decreases |ts|
  {
    if ts != [] {
      var front, last := ts[..|ts| - 1], ts[|ts| - 1];
      FromProducerCounts(sent, front, t, joined);
      OneMoreCounts(front, last, t);
      assert ts == front + [last];
      var early := FromProducer(sent, front, sent[t].producer, joined);
      OneMoreCounts(early, last, t);
      assert FromProducer(sent, ts, sent[t].producer, joined) == early + [last] || (
        last != t && FromProducer(sent, ts, sent[t].producer, joined) == early);
    }
  }

  lemma {:induction false} BeforeCounts(ts: seq<nat>, t: nat, joined: nat)
    ensures multiset(Before(ts, joined))[t] == if t < joined then multiset(ts)[t] else 0
    decreases |ts|
  {
    if ts != [] {
      var front, last := ts[..|ts| - 1], ts[|ts| - 1];
      BeforeCounts(front, t, joined);
      OneMoreCounts(front, last, t);
      assert ts == front + [last];
      var early := Before(front, joined);
      OneMoreCounts(early, last, t);
      assert Before(ts, joined) == early + [last] || (joined <= last && Before(ts, joined) == early);
    }
  }

  lemma PendingCounts(s: State, i: nat, t: nat)
    requires i < |s.subs| && BacklogKept(s, i)
    ensures multiset(Before(s.subs[i].log, s.subs[i].joined))[t] + multiset(s.subs[i].pending)[t]
         == if i == 0 && t < s.subs[i].joined then 1 else 0
  {
    var sub := s.subs[i];
    UptoCounts(sub.joined, t);
    assert multiset(Before(sub.log, sub.joined) + sub.pending)
        == multiset(Before(sub.log, sub.joined)) + multiset(sub.pending);
  }

  lemma EarlyOnce(s: State, i: nat, t: nat)
    requires Inv(s) && i < |s.subs| && t < s.subs[i].joined <= |s.sent|
    ensures Copies(s, i, t) == if i == 0 then 1 else 0
  {
    assert BacklogKept(s, i);
    PendingCounts(s, i, t);
    BeforeCounts(s.subs[i].log, t, s.subs[i].joined);
    var p := s.sent[t].producer;
    if p in s.flights { assert Aimed(s, p); }
  }

  lemma LateOnce(s: State, i: nat, t: nat)
    requires Inv(s) && i < |s.subs| && s.subs[i].joined <= t < |s.sent|
    ensures Copies(s, i, t) == 1
  {
    var sub, p := s.subs[i], s.sent[t].producer;
    assert BacklogKept(s, i) && ProducerKept(s, i, p);
    PendingCounts(s, i, t);
    FromProducerCounts(s.sent, sub.log, t, sub.joined);
    FromProducerCounts(s.sent, Upto(|s.sent|), t, sub.joined);
    UptoCounts(|s.sent|, t);
    assert multiset(FromProducer(s.sent, sub.log, p, sub.joined) + Outstanding(s, p, i))
        == multiset(FromProducer(s.sent, sub.log, p, sub.joined)) + multiset(Outstanding(s, p, i));
  }

  /**
   * In every reachable state each entitled subscriber has each message in exactly one place, and
   * nobody else has it.
   */
  lemma {:induction false} ExactlyOnce(trace: seq<Action>, i: nat, t: nat)
    ensures var s := Run(EMPTY, trace);
      i < |s.subs| && t < |s.sent| ==> Copies(s, i, t) == if Entitled(s, i, t) then 1 else 0
  {
    var s := Run(EMPTY, trace);
    RunKeepsInv(trace);
    if i < |s.subs| && t < |s.sent| {
      assert Channel(s, i);
      if t < s.subs[i].joined { EarlyOnce(s, i, t); } else { LateOnce(s, i, t); }
    }
  }

  // What subscriber i has handed to its handler.
  function Delivered(s: State, i: nat): seq<nat>
    requires i < |s.subs| && s.subs[i].read <= |s.subs[i].log|
  {
    s.subs[i].log[..s.subs[i].read]
  }

  ghost predicate Quiet(s: State, i: nat)
    requires i < |s.subs|
  {
    s.flights == map[] && s.subs[i].pending == [] && s.subs[i].read == |s.subs[i].log|
  }

  /**
   * Once the senders are through and a subscriber has drained its channel, it has handled what it
   * is entitled to, once each.
   */
  lemma {:induction false} DrainedSubscriberHandledAll(trace: seq<Action>, i: nat, t: nat)
    ensures var s := Run(EMPTY, trace);
      i < |s.subs| && t < |s.sent| && Quiet(s, i) ==>
        multiset(Delivered(s, i))[t] == if Entitled(s, i, t) then 1 else 0
  {
    ExactlyOnce(trace, i, t);
    var s := Run(EMPTY, trace);
    if i < |s.subs| && Quiet(s, i) { assert Delivered(s, i) == s.subs[i].log; }
  }

  /** No message waits in the buffer while anybody is subscribed, and until then all do, in order. */
  lemma {:induction false} BufferEmptyOnceSubscribed(trace: seq<Action>)
    ensures var s := Run(EMPTY, trace); s.buf == if s.subs == [] then Upto(|s.sent|) else []
  {
    RunKeepsInv(trace);
  }

  // ---- Order ----

  ghost predicate Ascending(ts: seq<nat>) {
    forall a, b :: 0 <= a < b < |ts| ==> ts[a] < ts[b]
  }

  lemma {:induction false} PickedHas(sent: seq<Message>, ts: seq<nat>, p: nat, joined: nat, t: nat)
    requires t in ts && Mine(sent, t, p, joined)
    ensures t in FromProducer(sent, ts, p, joined)
    decreases |ts|
  {
    var n := |ts| - 1;
    if t != ts[n] {
      assert t in ts[..n];
      PickedHas(sent, ts[..n], p, joined, t);
    }
  }

  lemma AscendingLast(ts: seq<nat>, n: nat)
    requires Ascending(ts) && forall k :: 0 <= k < |ts| ==> ts[k] < n
    ensures Ascending(ts + [n]) && forall k :: 0 <= k < |ts + [n]| ==> (ts + [n])[k] < n + 1
  {
  }

  lemma {:induction false} UptoPickedAscends(sent: seq<Message>, n: nat, p: nat, joined: nat)
    ensures Ascending(FromProducer(sent, Upto(n), p, joined))
    ensures forall k :: 0 <= k < |FromProducer(sent, Upto(n), p, joined)| ==>
      FromProducer(sent, Upto(n), p, joined)[k] < n
  {
    if n > 0 {
      var early := FromProducer(sent, Upto(n - 1), p, joined);
      UptoPickedAscends(sent, n - 1, p, joined);
      FromProducerLast(sent, Upto(n - 1), n - 1, p, joined);
      AscendingLast(early, n - 1);
      assert early + [] == early;
    }
  }

  lemma {:induction false} PickedInOrder(sent: seq<Message>, ts: seq<nat>, p: nat, joined: nat, a: nat, b: nat)
    requires Ascending(FromProducer(sent, ts, p, joined))
    requires a < b < |ts| && Mine(sent, ts[a], p, joined) && Mine(sent, ts[b], p, joined)
    ensures ts[a] < ts[b]
    decreases |ts|
  {
    var n := |ts| - 1;
    var early := FromProducer(sent, ts[..n], p, joined);
    assert early <= FromProducer(sent, ts, p, joined);
    if b < n {
      PickedInOrder(sent, ts[..n], p, joined, a, b);
    } else {
      assert ts[..n][a] == ts[a];
      PickedHas(sent, ts[..n], p, joined, ts[a]);
      var k :| 0 <= k < |early| && early[k] == ts[a];
      assert FromProducer(sent, ts, p, joined) == early + [ts[n]];
      assert (early + [ts[n]])[k] == ts[a] && (early + [ts[n]])[|early|] == ts[n];
    }
  }

  /** One producer's messages sent after a subscriber registered reach it in the order they were sent. */
  lemma {:induction false} OneProducerArrivesInOrder(trace: seq<Action>, i: nat, a: nat, b: nat)
    ensures var s := Run(EMPTY, trace);
      i < |s.subs| && a < b < |s.subs[i].log| ==>
        var ta, tb := s.subs[i].log[a], s.subs[i].log[b];
        ta < |s.sent| && tb < |s.sent| && (
          s.subs[i].joined <= ta && s.subs[i].joined <= tb && s.sent[ta].producer == s.sent[tb].producer ==> ta < tb)
  {
    var s := Run(EMPTY, trace);
    RunKeepsInv(trace);
    if i < |s.subs| && a < b < |s.subs[i].log| {
      var sub := s.subs[i];
      var ta, tb := sub.log[a], sub.log[b];
      assert Channel(s, i);
      if sub.joined <= ta && sub.joined <= tb && s.sent[ta].producer == s.sent[tb].producer {
        var p := s.sent[ta].producer;
        assert ProducerKept(s, i, p);
        UptoPickedAscends(s.sent, |s.sent|, p, sub.joined);
        var whole := FromProducer(s.sent, Upto(|s.sent|), p, sub.joined);
        var got := FromProducer(s.sent, sub.log, p, sub.joined);
        assert got == whole[..|got|];
        PickedInOrder(s.sent, sub.log, p, sub.joined, a, b);
      }
    }
  }

  lemma BeforeHas(ts: seq<nat>, joined: nat, a: nat) returns (k: nat)
    requires a < |ts| && ts[a] < joined
    ensures k < |Before(ts, joined)| && Before(ts, joined)[k] == ts[a]
  {
    BeforeCounts(ts, ts[a], joined);
    assert ts[a] in ts;
    assert ts[a] in multiset(Before(ts, joined));
    k :| 0 <= k < |Before(ts, joined)| && Before(ts, joined)[k] == ts[a];
  }

  lemma {:induction false} BeforeIsSubsequence(ts: seq<nat>, joined: nat, a: nat, b: nat) returns (k: nat, l: nat)
    requires a < b < |ts| && ts[a] < joined && ts[b] < joined
    ensures k < l < |Before(ts, joined)| && Before(ts, joined)[k] == ts[a] && Before(ts, joined)[l] == ts[b]
    decreases |ts|
  {
    var n := |ts| - 1;
    if b < n {
      k, l := BeforeIsSubsequence(ts[..n], joined, a, b);
    } else {
      k := BeforeHas(ts[..n], joined, a);
      l := |Before(ts[..n], joined)|;
    }
  }

  /** What was sent before anybody subscribed reaches the first subscriber in the order it was sent. */
  lemma {:induction false} BacklogArrivesInOrder(trace: seq<Action>, a: nat, b: nat)
    ensures var s := Run(EMPTY, trace);
      s.subs != [] && a < b < |s.subs[0].log|
      && s.subs[0].log[a] < s.subs[0].joined && s.subs[0].log[b] < s.subs[0].joined ==>
        s.subs[0].log[a] < s.subs[0].log[b]
  {
    var s := Run(EMPTY, trace);
    RunKeepsInv(trace);
    if s.subs != [] && a < b < |s.subs[0].log|
      && s.subs[0].log[a] < s.subs[0].joined && s.subs[0].log[b] < s.subs[0].joined {
      var sub := s.subs[0];
      assert BacklogKept(s, 0);
      var k, l := BeforeIsSubsequence(sub.log, sub.joined, a, b);
      var early := Before(sub.log, sub.joined);
      UptoAt(sub.joined);
      assert early[k] == (early + sub.pending)[k] && early[l] == (early + sub.pending)[l];
    }
  }

  /**
   * Order does not carry across the registration: the subscriber pushes the buffer it took over
   * without the lock, so a later message of the same producer can get in before it.
   */
  lemma BacklogCanBeOvertaken(p: nat, first: Message, second: Message)
    requires first.producer == p && second.producer == p
    ensures var s := Run(EMPTY, [Enter(first), Join, Enter(second), Put(p), Feed(0)]);
      s.sent == [first, second] && |s.subs| == 1 && s.subs[0].log == [1, 0]
  {
    var s1 := State([first], [0], [], map[]);
    var s2 := State([first], [], [Sub(1, [0], [], 0)], map[]);
    var s3 := State([first, second], [], [Sub(1, [0], [], 0)], map[p := Flight(1, 0, 1)]);
    var s4 := State([first, second], [], [Sub(1, [0], [1], 0)], map[]);
    var t1, t2, t3 := [Enter(first)], [Enter(first), Join], [Enter(first), Join, Enter(second)];
    var t4 := t3 + [Put(p)];
    assert Run(EMPTY, t1) == s1 by { assert t1[..0] == []; }
    assert Run(EMPTY, t2) == s2 by { assert t2[..1] == t1; }
    assert Run(EMPTY, t3) == s3 by { assert t3[..2] == t2; assert Step(s2, Enter(second)) == s3; }
    assert Run(EMPTY, t4) == s4 by { RunStep(EMPTY, t3, Put(p)); OnlyPut(s3, p, s4); }
    RunStep(EMPTY, t4, Feed(0));
    OnlyFeed(s4);
    assert t4 + [Feed(0)] == [Enter(first), Join, Enter(second), Put(p), Feed(0)];
  }

  lemma OnlyFeed(s: State)
    requires s.subs == [Sub(1, [0], [1], 0)]
    ensures Step(s, Feed(0)) == s.(subs := [Sub(1, [], [1, 0], 0)])
  {
    assert Enabled(s, Feed(0));
    assert Pushed(s.subs[0], 0).(pending := s.subs[0].pending[1..]) == Sub(1, [], [1, 0], 0);
  }

  lemma OnlyPut(s: State, p: nat, s': State)
    requires s.subs == [Sub(1, [0], [], 0)] && s.flights == map[p := Flight(1, 0, 1)]
    requires s' == State(s.sent, s.buf, [Sub(1, [0], [1], 0)], map[])
    ensures Step(s, Put(p)) == s'
  {
    assert Enabled(s, Put(p));
    assert Pushed(s.subs[0], 1) == Sub(1, [0], [1], 0);
    assert Advanced(s.flights, p) == map[];
  }

  // ---- When a subscriber can start at all ----

  // Nothing else ever takes out of a channel whose subscriber is still pushing.
  ghost predicate Jammed(s: State, i: nat) {
    i < |s.subs| && s.subs[i].pending != [] && s.subs[i].read == 0
    && CAPACITY < |s.subs[i].log| + |s.subs[i].pending|
  }

  lemma JamStays(s: State, a: Action, i: nat)
    requires Inv(s) && Jammed(s, i)
    ensures Jammed(Step(s, a), i)
  {
    assert Channel(s, i);
    if a == Feed(i) && Enabled(s, a) {
      assert |s.subs[i].log| < CAPACITY;
      assert |s.subs[i].pending| >= 2;
    }
  }

  lemma {:induction false} JamStaysOverRuns(s: State, more: seq<Action>, i: nat)
    requires Inv(s) && Jammed(s, i)
    ensures Inv(Run(s, more)) && Jammed(Run(s, more), i)
    decreases |more|
  {
    if more != [] {
      JamStaysOverRuns(s, more[..|more| - 1], i);
      StepKeepsInv(Run(s, more[..|more| - 1]), more[|more| - 1]);
      JamStays(Run(s, more[..|more| - 1]), more[|more| - 1], i);
    }
  }

  // Feeding k times in a row.
  lemma {:induction false} FeedAll(s: State, i: nat, k: nat)
    requires i < |s.subs| && s.subs[i].read == 0
    requires k <= |s.subs[i].pending| && |s.subs[i].log| + k <= CAPACITY
    ensures var s' := Run(s, seq(k, _ => Feed(i)));
      && |s'.subs| == |s.subs|
      && s'.subs[i].pending == s.subs[i].pending[k..]
      && |s'.subs[i].log| == |s.subs[i].log| + k
      && s'.subs[i].read == 0
  {
    if k > 0 {
      FeedAll(s, i, k - 1);
      var trace := seq(k, _ => Feed(i));
      assert trace[..k - 1] == seq(k - 1, _ => Feed(i));
    }
  }

  ghost predicate Starts(s: State, more: seq<Action>, i: nat) {
    i < |Run(s, more).subs| && Run(s, more).subs[i].read > 0
  }

  /**
   * A subscriber that still has a backlog to push can ever hand out a message exactly when
   * channel and backlog together fit the channel: it fills its own channel before it reads.
   */
  lemma {:induction false} SubscriberCanStart(trace: seq<Action>, i: nat)
    ensures var s := Run(EMPTY, trace);
      i < |s.subs| && s.subs[i].pending != [] ==>
        ((exists more :: Starts(s, more, i)) <==> |s.subs[i].log| + |s.subs[i].pending| <= 256)
  {
    var s := Run(EMPTY, trace);
    RunKeepsInv(trace);
    if i < |s.subs| && s.subs[i].pending != [] {
      assert Channel(s, i);
      var n := |s.subs[i].pending|;
      if |s.subs[i].log| + n <= CAPACITY {
        FeedAll(s, i, n);
        var feeds := seq(n, _ => Feed(i));
        var more := feeds + [Take(i)];
        assert more[..|more| - 1] == feeds;
        assert Starts(s, more, i);
      } else {
        forall more ensures !Starts(s, more, i) { JamStaysOverRuns(s, more, i); }
      }
    }
  }

  // ---- The methods ----

  /** A pipe with the local variables of the goroutines that are inside `send` or `subscribe`. */
  class Pipe {
    var subs: seq<Sub>
    var buf: seq<nat>
    var flights: map<nat, Flight>
    var sent: seq<Message>
    ghost var trace: seq<Action>

    function Now(): State
      reads this
    {
      State(sent, buf, subs, flights)
    }

    ghost predicate Valid()
      reads this
    {
      Now() == Run(EMPTY, trace)
    }

    constructor ()
      ensures Valid() && trace == []
    {
      subs, buf, flights, sent, trace := [], [], map[], [], [];
    }

    // The mutex section of `send`: keep the message, or copy the list of channels.
    method Lock(m: Message)
      requires Valid() && m.producer !in flights
      modifies this
      ensures Valid() && trace == old(trace) + [Enter(m)]
      ensures sent == old(sent) + [m] && subs == old(subs)
      ensures buf == if |subs| == 0 then old(buf) + [old(|sent|)] else old(buf)
      ensures flights == if |subs| == 0 then old(flights)
                         else old(flights)[m.producer := Flight(old(|sent|), 0, |subs|)]
    {
      RunStep(EMPTY, trace, Enter(m));
      if |subs| == 0 {
        buf := buf + [|sent|];
      } else {
        flights := flights[m.producer := Flight(|sent|, 0, |subs|)];
      }
      sent := sent + [m];
      trace := trace + [Enter(m)];
    }

    // One round of the loop of `send`, when the channel has room.
    method Deliver(p: nat)
      requires Valid() && p in flights && flights[p].next < |subs|
      requires |subs[flights[p].next].log| - subs[flights[p].next].read < 256
      modifies this
      ensures Valid() && trace == old(trace) + [Put(p)]
    {
      RunStep(EMPTY, trace, Put(p));
      var f := flights[p];
      subs := subs[f.next := subs[f.next].(log := subs[f.next].log + [f.ticket])];
      if f.next + 1 == f.targets {
        flights := flights - {p};
      } else {
        flights := flights[p := f.(next := f.next + 1)];
      }
      trace := trace + [Put(p)];
      ghost var before := Run(EMPTY, old(trace));
      RunKeepsInv(old(trace));
      assert Aimed(before, p);
    }

    /**
     * `send` with nobody else running: it reaches the subscribers in turn and waits at the
     * first channel without room.
     */
    method Send(m: Message) returns (reached: nat)
      requires Valid() && m.producer !in flights
      modifies this
      ensures Valid() && sent == old(sent) + [m] && |subs| == old(|subs|)
      ensures reached <= |subs| && (reached < |subs| <==> m.producer in flights)
      ensures forall i :: 0 <= i < reached ==> Room(old(subs[i])) && subs[i] == Pushed(old(subs[i]), old(|sent|))
      ensures forall i :: reached <= i < |subs| ==> subs[i] == old(subs[i])
      ensures reached < |subs| ==> !Room(subs[reached]) && flights[m.producer] == Flight(old(|sent|), reached, |subs|)
      ensures buf == if |subs| == 0 then old(buf) + [old(|sent|)] else old(buf)
      ensures flights - {m.producer} == old(flights)
    {
      var p := m.producer;
      Lock(m);
      RunStep(EMPTY, old(trace), Enter(m));
      reached := 0;
      while reached < |subs| && |subs[reached].log| - subs[reached].read < CAPACITY
        invariant Valid() && sent == old(sent) + [m] && |subs| == old(|subs|) && reached <= |subs|
        invariant reached < |subs| <==> p in flights
        invariant p in flights ==> flights[p] == Flight(old(|sent|), reached, |subs|)
        invariant flights - {p} == old(flights)
        invariant buf == if |subs| == 0 then old(buf) + [old(|sent|)] else old(buf)
        invariant forall i :: 0 <= i < reached ==> Room(old(subs[i])) && subs[i] == Pushed(old(subs[i]), old(|sent|))
        invariant forall i :: reached <= i < |subs| ==> subs[i] == old(subs[i])
        decreases |subs| - reached
      {
        ghost var here := trace;
        Deliver(p);
        RunStep(EMPTY, here, Put(p));
        reached := reached + 1;
      }
    }

    // The mutex section of `subscribe`: register a channel and take the whole buffer.
    method Register()
      requires Valid()
      modifies this
      ensures Valid() && trace == old(trace) + [Join]
      ensures subs == old(subs) + [Sub(|sent|, old(buf), [], 0)] && buf == []
      ensures sent == old(sent) && flights == old(flights)
    {
      RunStep(EMPTY, trace, Join);
      subs := subs + [Sub(|sent|, buf, [], 0)];
      buf := [];
      trace := trace + [Join];
    }

    // One round of the loop that pushes the buffer into the subscriber's own channel.
    method PushPending(i: nat)
      requires Valid() && i < |subs| && subs[i].pending != [] && |subs[i].log| - subs[i].read < 256
      modifies this
      ensures Valid() && trace == old(trace) + [Feed(i)]
      ensures subs == var sub := old(subs[i]);
        old(subs)[i := Sub(sub.joined, sub.pending[1..], sub.log + [sub.pending[0]], sub.read)]
      ensures sent == old(sent) && buf == old(buf) && flights == old(flights)
    {
      RunStep(EMPTY, trace, Feed(i));
      var sub := subs[i];
      subs := subs[i := sub.(log := sub.log + [sub.pending[0]], pending := sub.pending[1..])];
      trace := trace + [Feed(i)];
    }

    // One round of the handler loop; the result is the ticket of the message handed over.
    method Receive(i: nat) returns (ticket: nat)
      requires Valid() && i < |subs| && subs[i].pending == [] && subs[i].read < |subs[i].log|
      modifies this
      ensures Valid() && trace == old(trace) + [Take(i)]
      ensures |subs| == old(|subs|) && subs[i] == old(subs[i]).(read := old(subs[i].read) + 1)
      ensures ticket == old(subs[i].log[subs[i].read])
    {
      RunStep(EMPTY, trace, Take(i));
      ticket := subs[i].log[subs[i].read];
      subs := subs[i := subs[i].(read := subs[i].read + 1)];
      trace := trace + [Take(i)];
    }
  }
}
