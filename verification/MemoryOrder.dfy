/**
 * When a memory pipe keeps the order of sending across a subscriber's registration: exactly as
 * long as no sender reaches the subscriber while it is still pushing the buffer it took over.
 */
module MemoryOrder {
  import opened MemoryPipe
  import opened Tickets
  import opened Wrappers

  // Everything a subscriber was given so far, in the order in which it gets to handle it.
  function Line(sub: Sub): seq<nat> {
    sub.log + sub.pending
  }

  // A message of one producer, or with None of any.
  predicate Of(sent: seq<Message>, t: nat, whose: Option<nat>) {
    t < |sent| && (whose.Some? ==> sent[t].producer == whose.value)
  }

  // A message sent after the registration stands before one sent earlier.
  ghost predicate Crossed(sent: seq<Message>, line: seq<nat>, joined: nat, whose: Option<nat>) {
    exists a, b :: 0 <= a < b < |line| && Cross(sent, line[a], line[b], joined, whose)
  }

  predicate Cross(sent: seq<Message>, t: nat, u: nat, joined: nat, whose: Option<nat>) {
    u < joined <= t && Of(sent, t, whose) && Of(sent, u, whose)
  }

  ghost predicate CrossedAt(s: State, i: nat, whose: Option<nat>) {
    i < |s.subs| && Crossed(s.sent, Line(s.subs[i]), s.subs[i].joined, whose)
  }

  // A sender reaches subscriber i while a message of the same kind is still to be pushed.
  ghost predicate Jumps(s: State, a: Action, i: nat, whose: Option<nat>) {
    && a.Put? && Enabled(s, a) && s.flights[a.producer].next == i
    && (whose.Some? ==> a.producer == whose.value)
    && exists u :: u in s.subs[i].pending && Of(s.sent, u, whose)
  }

  ghost predicate Overtaken(trace: seq<Action>, i: nat, whose: Option<nat>)
    decreases |trace|
  {
    trace != [] &&
    var n := |trace| - 1;
    Overtaken(trace[..n], i, whose) || Jumps(Run(EMPTY, trace[..n]), trace[n], i, whose)
  }

  // ---- The failing step ----

  /**
   * A message pushed to a subscriber gets ahead of an older one that the subscriber is to have
   * and its channel has not seen, exactly when the subscriber still has something to push.
   */
  lemma {:induction false} PushOvertakesExactlyWhilePending(trace: seq<Action>, p: nat)
    ensures var s := Run(EMPTY, trace);
      Enabled(s, Put(p)) ==>
        var i := s.flights[p].next;
        (exists t: nat :: t < s.subs[i].joined && Entitled(s, i, t) && t !in s.subs[i].log) <==> s.subs[i].pending != []
  {
    var s := Run(EMPTY, trace);
    RunKeepsInv(trace);
    if Enabled(s, Put(p)) {
      var i := s.flights[p].next;
      var sub := s.subs[i];
      assert BacklogKept(s, i);
      if sub.pending != [] {
        var u := sub.pending[0];
        PendingIsBacklog(s, i, 0);
        OnceInBacklog(s, i, u);
        assert u in multiset(sub.pending) && u !in multiset(sub.log);
        assert u !in sub.log;
      }
      if t: nat :| t < sub.joined && Entitled(s, i, t) && t !in sub.log {
        OnceInBacklog(s, i, t);
        assert t in multiset(sub.pending);
      }
    }
  }

  lemma OnceInBacklog(s: State, i: nat, t: nat)
    requires i < |s.subs| && BacklogKept(s, i) && t < s.subs[i].joined
    ensures multiset(s.subs[i].log)[t] + multiset(s.subs[i].pending)[t] == if i == 0 then 1 else 0
  {
    PendingCounts(s, i, t);
    BeforeCounts(s.subs[i].log, t, s.subs[i].joined);
  }

  // ---- Over whole runs ----

  lemma InsertCrosses(sent: seq<Message>, log: seq<nat>, pending: seq<nat>, t: nat, joined: nat, whose: Option<nat>)
    requires joined <= t < |sent| && forall k :: 0 <= k < |pending| ==> pending[k] < joined
    ensures Crossed(sent, log + [t] + pending, joined, whose) <==>
      || Crossed(sent, log + pending, joined, whose)
      || (Of(sent, t, whose) && exists u :: u in pending && Of(sent, u, whose))
  {
    var line, more := log + pending, log + [t] + pending;
    if Crossed(sent, line, joined, whose) {
      var a, b :| 0 <= a < b < |line| && Cross(sent, line[a], line[b], joined, whose);
      var a', b' := if a < |log| then a else a + 1, if b < |log| then b else b + 1;
      assert more[a'] == line[a] && more[b'] == line[b];
    }
    if Of(sent, t, whose) && exists u :: u in pending && Of(sent, u, whose) {
      var u :| u in pending && Of(sent, u, whose);
      var k :| 0 <= k < |pending| && pending[k] == u;
      assert more[|log|] == t && more[|log| + 1 + k] == u;
    }
    if Crossed(sent, more, joined, whose) {
      var a, b :| 0 <= a < b < |more| && Cross(sent, more[a], more[b], joined, whose);
      if a == |log| {
        assert more[b] == pending[b - |log| - 1];
        assert more[b] in pending;
      } else {
        assert b != |log|;
        var a', b' := if a < |log| then a else a - 1, if b < |log| then b else b - 1;
        assert line[a'] == more[a] && line[b'] == more[b];
      }
    }
  }

  // Later messages change nothing about those already in line.
  lemma EnterKeepsCrossing(s: State, m: Message, i: nat, whose: Option<nat>)
    requires Inv(s) && i < |s.subs|
    ensures CrossedAt(Step(s, Enter(m)), i, whose) <==> CrossedAt(s, i, whose)
  {
    var r, sub := Step(s, Enter(m)), s.subs[i];
    assert Channel(s, i) && BacklogKept(s, i) && r.subs[i] == sub;
    forall k | 0 <= k < |Line(sub)| ensures Of(r.sent, Line(sub)[k], whose) <==> Of(s.sent, Line(sub)[k], whose) {
      if k >= |sub.log| { PendingIsBacklog(s, i, k - |sub.log|); }
    }
  }

  lemma PutCrosses(s: State, p: nat, i: nat, whose: Option<nat>)
    requires Inv(s) && Enabled(s, Put(p)) && i < |s.subs|
    ensures CrossedAt(Step(s, Put(p)), i, whose) <==> CrossedAt(s, i, whose) || Jumps(s, Put(p), i, whose)
  {
    var f, sub := s.flights[p], s.subs[i];
    assert Aimed(s, p) && BacklogKept(s, i);
    PutSub(s, p, i);
    if i == f.next {
      forall k | 0 <= k < |sub.pending| ensures sub.pending[k] < sub.joined { PendingIsBacklog(s, i, k); }
      InsertCrosses(s.sent, sub.log, sub.pending, f.ticket, sub.joined, whose);
      assert Line(Step(s, Put(p)).subs[i]) == sub.log + [f.ticket] + sub.pending;
    }
  }

  lemma FeedKeepsLine(s: State, j: nat, i: nat)
    requires Enabled(s, Feed(j)) && i < |s.subs|
    ensures Line(Step(s, Feed(j)).subs[i]) == Line(s.subs[i]) && Step(s, Feed(j)).subs[i].joined == s.subs[i].joined
  {
    assert s.subs[j].pending == [s.subs[j].pending[0]] + s.subs[j].pending[1..];
  }

  // A new subscriber has only older messages in line.
  lemma JoinCrossesNothing(s: State, whose: Option<nat>)
    requires Inv(s)
    ensures !CrossedAt(Step(s, Join), |s.subs|, whose)
  {
    UptoAt(|s.sent|);
    assert Line(Step(s, Join).subs[|s.subs|]) == s.buf;
  }

  lemma StepCrosses(s: State, a: Action, i: nat, whose: Option<nat>)
    requires Inv(s)
    ensures CrossedAt(Step(s, a), i, whose) <==> CrossedAt(s, i, whose) || Jumps(s, a, i, whose)
  {
    if Enabled(s, a) {
      match a
      case Enter(m) => if i < |s.subs| { EnterKeepsCrossing(s, m, i, whose); }
      case Put(p) => if i < |s.subs| { PutCrosses(s, p, i, whose); }
      case Join => if i == |s.subs| { JoinCrossesNothing(s, whose); }
      case Feed(j) => if i < |s.subs| { FeedKeepsLine(s, j, i); }
      case Take(_) =>
    }
  }

  /**
   * In every run, a message sent after the registration stands before an older one in a
   * subscriber's line exactly when some push reached the subscriber while it had such an older
   * one still to push; for the messages of one producer as for all.
   */
  lemma {:induction false} CrossedExactlyWhenOvertaken(trace: seq<Action>, i: nat, whose: Option<nat>)
    ensures CrossedAt(Run(EMPTY, trace), i, whose) <==> Overtaken(trace, i, whose)
    decreases |trace|
  {
    if trace != [] {
      var n := |trace| - 1;
      CrossedExactlyWhenOvertaken(trace[..n], i, whose);
      RunKeepsInv(trace[..n]);
      StepCrosses(Run(EMPTY, trace[..n]), trace[n], i, whose);
    }
  }

  // ---- The order of one producer ----

  lemma {:induction false} BeforeOfParts(log: seq<nat>, pending: seq<nat>, joined: nat)
    requires forall k :: 0 <= k < |pending| ==> pending[k] < joined
    ensures Before(log + pending, joined) == Before(log, joined) + pending
    decreases |pending|
  {
    if pending == [] {
      assert log + pending == log;
    } else {
      var n := |pending| - 1;
      BeforeOfParts(log, pending[..n], joined);
      BeforeLast(log + pending[..n], pending[n], joined);
      assert log + pending == log + pending[..n] + [pending[n]];
    }
  }

  lemma EarlyInLineAscend(s: State, i: nat, a: nat, b: nat)
    requires Inv(s) && i < |s.subs| && a < b < |Line(s.subs[i])|
    requires Line(s.subs[i])[a] < s.subs[i].joined && Line(s.subs[i])[b] < s.subs[i].joined
    ensures Line(s.subs[i])[a] < Line(s.subs[i])[b]
  {
    var sub := s.subs[i];
    assert BacklogKept(s, i);
    forall k | 0 <= k < |sub.pending| ensures sub.pending[k] < sub.joined { PendingIsBacklog(s, i, k); }
    BeforeOfParts(sub.log, sub.pending, sub.joined);
    var k, l := BeforeIsSubsequence(Line(sub), sub.joined, a, b);
    UptoAt(sub.joined);
  }

  ghost predicate InOrder(s: State, i: nat, p: nat)
    requires i < |s.subs|
  {
    var line := Line(s.subs[i]);
    forall a, b :: 0 <= a < b < |line| ==>
      (Of(s.sent, line[a], Some(p)) && Of(s.sent, line[b], Some(p)) ==> line[a] < line[b])
  }

  /**
   * A subscriber gets the messages of one producer in the order they were sent, the buffered and
   * the direct ones together, exactly when that producer's sender never reached it while it
   * still had to push a buffered message of the same producer.
   */
  lemma {:induction false} OneProducerInOrderExactly(trace: seq<Action>, i: nat, p: nat)
    ensures var s := Run(EMPTY, trace);
      i < |s.subs| ==> (InOrder(s, i, p) <==> !Overtaken(trace, i, Some(p)))
  {
    var s := Run(EMPTY, trace);
    RunKeepsInv(trace);
    CrossedExactlyWhenOvertaken(trace, i, Some(p));
    if i < |s.subs| && !CrossedAt(s, i, Some(p)) {
      var sub, line := s.subs[i], Line(s.subs[i]);
      forall a, b | 0 <= a < b < |line| && Of(s.sent, line[a], Some(p)) && Of(s.sent, line[b], Some(p))
        ensures line[a] < line[b]
      {
        assert !Cross(s.sent, line[a], line[b], sub.joined, Some(p));
        if line[a] < sub.joined && line[b] < sub.joined {
          EarlyInLineAscend(s, i, a, b);
        } else if sub.joined <= line[a] {
          assert BacklogKept(s, i);
          if b >= |sub.log| { PendingIsBacklog(s, i, b - |sub.log|); }
          OneProducerArrivesInOrder(trace, i, a, b);
        }
      }
    }
  }
}
