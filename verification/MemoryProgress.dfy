/**
 * Progress of a memory pipe. Without further sends and subscriptions every subscriber comes to
 * handle all it is owed, exactly unless one has more to push than its channel will ever hold.
 */
module MemoryProgress {
  import opened MemoryPipe

  // The steps of senders and subscribers that are under way.
  predicate Inner(a: Action) {
    a.Put? || a.Feed? || a.Take?
  }

  ghost predicate AllInner(trace: seq<Action>) {
    forall k :: 0 <= k < |trace| ==> Inner(trace[k])
  }

  lemma {:induction false} RunParts(s: State, front: seq<Action>, back: seq<Action>)
    ensures Run(s, front + back) == Run(Run(s, front), back)
    decreases |back|
  {
    if back == [] {
      assert front + back == front;
    } else {
      var n := |back| - 1;
      assert front + back == front + back[..n] + [back[n]];
      RunParts(s, front, back[..n]);
      RunStep(s, front + back[..n], back[n]);
      RunStep(Run(s, front), back[..n], back[n]);
      assert back == back[..n] + [back[n]];
    }
  }

  lemma {:induction false} RunKeepsInvFrom(s: State, trace: seq<Action>)
    requires Inv(s)
    ensures Inv(Run(s, trace))
    decreases |trace|
  {
    if trace != [] {
      RunKeepsInvFrom(s, trace[..|trace| - 1]);
      StepKeepsInv(Run(s, trace[..|trace| - 1]), trace[|trace| - 1]);
    }
  }

  predicate Drained(sub: Sub) {
    sub.pending == [] && sub.read == |sub.log|
  }

  ghost predicate AllDrained(s: State) {
    forall i :: 0 <= i < |s.subs| ==> Drained(s.subs[i])
  }

  // Nothing is under way any more: all senders are through, everything pushed has been handled.
  ghost predicate AtRest(s: State) {
    s.flights == map[] && AllDrained(s)
  }

  // ---- Handling a whole channel ----

  /** With nothing to push, receives in a row hand over one message each. */
  lemma {:induction false} TakeAll(s: State, i: nat, k: nat)
    requires i < |s.subs| && s.subs[i].pending == [] && s.subs[i].read + k <= |s.subs[i].log|
    ensures Run(s, seq(k, _ => Take(i))) == s.(subs := s.subs[i := s.subs[i].(read := s.subs[i].read + k)])
  {
    var trace := seq(k, _ => Take(i));
    if k == 0 {
      assert s.subs[i := s.subs[i]] == s.subs;
    } else {
      TakeAll(s, i, k - 1);
      assert trace == seq(k - 1, _ => Take(i)) + [Take(i)];
      RunStep(s, seq(k - 1, _ => Take(i)), Take(i));
    }
  }

  /** In every reachable state, a subscriber with nothing left to push hands over its whole channel. */
  lemma {:induction false} ReadyChannelIsHandledWhole(trace: seq<Action>, i: nat)
    requires var s := Run(EMPTY, trace); i < |s.subs| && s.subs[i].pending == []
    ensures var s := Run(EMPTY, trace);
      && s.subs[i].read <= |s.subs[i].log|
      && var r := Run(s, seq(|s.subs[i].log| - s.subs[i].read, _ => Take(i)));
         i < |r.subs| && r.subs[i].read == |r.subs[i].log| && Delivered(r, i) == s.subs[i].log
  {
    var s := Run(EMPTY, trace);
    RunKeepsInv(trace);
    assert Channel(s, i);
    TakeAll(s, i, |s.subs[i].log| - s.subs[i].read);
  }

  // ---- A way to rest ----

  ghost predicate NothingToPush(s: State) {
    forall i :: 0 <= i < |s.subs| ==> s.subs[i].pending == []
  }

  /** The subscribers from number i on empty their channels one after the other. */
  lemma {:induction false} DrainFrom(s: State, i: nat) returns (more: seq<Action>)
    requires Inv(s) && NothingToPush(s) && i <= |s.subs|
    requires forall j :: 0 <= j < i ==> Drained(s.subs[j])
    ensures AllInner(more) && Inv(Run(s, more)) && AllDrained(Run(s, more))
    ensures Run(s, more).flights == s.flights && |Run(s, more).subs| == |s.subs|
    decreases |s.subs| - i
  {
    if i == |s.subs| {
      more := [];
    } else {
      assert Channel(s, i);
      var takes := seq(|s.subs[i].log| - s.subs[i].read, _ => Take(i));
      TakeAll(s, i, |s.subs[i].log| - s.subs[i].read);
      RunKeepsInvFrom(s, takes);
      var rest := DrainFrom(Run(s, takes), i + 1);
      more := takes + rest;
      RunParts(s, takes, rest);
    }
  }

  /** With all channels empty one sender gets through: each push finds room, and is taken at once. */
  lemma {:induction false} SendThrough(s: State, p: nat) returns (more: seq<Action>)
    requires Inv(s) && AllDrained(s) && p in s.flights
    ensures AllInner(more) && Inv(Run(s, more)) && AllDrained(Run(s, more))
    ensures Run(s, more).flights == s.flights - {p} && |Run(s, more).subs| == |s.subs|
    decreases s.flights[p].targets - s.flights[p].next
  {
    assert Aimed(s, p);
    var i := s.flights[p].next;
    var one := Step(s, Put(p));
    PutThenTake(s, p);
    var two := Step(one, Take(i));
    StepKeepsInv(s, Put(p));
    StepKeepsInv(one, Take(i));
    var pair := [Put(p), Take(i)];
    RunStep(s, [], Put(p));
    RunStep(s, [Put(p)], Take(i));
    assert [] + [Put(p)] == [Put(p)] && [Put(p)] + [Take(i)] == pair;
    if p in two.flights {
      assert Aimed(two, p);
      var rest := SendThrough(two, p);
      more := pair + rest;
      RunParts(s, pair, rest);
      assert two.flights - {p} == s.flights - {p};
    } else {
      more := pair;
    }
  }

  lemma PutThenTake(s: State, p: nat)
    requires Inv(s) && AllDrained(s) && p in s.flights
    ensures Enabled(s, Put(p))
    ensures var i := s.flights[p].next; var two := Step(Step(s, Put(p)), Take(i));
      && AllDrained(two) && |two.subs| == |s.subs|
      && two.flights == Advanced(s.flights, p)
  {
    assert Aimed(s, p);
    var i := s.flights[p].next;
    var one := Step(s, Put(p));
    assert one.subs[i] == Pushed(s.subs[i], s.flights[p].ticket);
    assert Enabled(one, Take(i));
  }

  lemma {:induction false} SendAll(s: State) returns (more: seq<Action>)
    requires Inv(s) && AllDrained(s)
    ensures AllInner(more) && AtRest(Run(s, more))
    decreases |s.flights|
  {
    if s.flights == map[] {
      more := [];
    } else {
      var p :| p in s.flights;
      var front := SendThrough(s, p);
      assert Run(s, front).flights.Keys == s.flights.Keys - {p};
      assert |Run(s, front).flights| < |s.flights|;
      var rest := SendAll(Run(s, front));
      more := front + rest;
      RunParts(s, front, rest);
    }
  }

  // Some subscriber has more to push than its channel will ever hold.
  ghost predicate SomebodyJammed(s: State) {
    exists i: nat :: Jammed(s, i)
  }

  lemma FeedsOnlyFirst(s: State, k: nat)
    requires 0 < |s.subs| && s.subs[0].read == 0
    requires k <= |s.subs[0].pending| && |s.subs[0].log| + k <= CAPACITY
    ensures var r := Run(s, seq(k, _ => Feed(0)));
      |r.subs| == |s.subs| && forall i :: 0 < i < |s.subs| ==> r.subs[i] == s.subs[i]
  {
    if k > 0 {
      FeedsOnlyFirst(s, k - 1);
      FeedAll(s, 0, k - 1);
      RunStep(s, seq(k - 1, _ => Feed(0)), Feed(0));
      assert seq(k, _ => Feed(0)) == seq(k - 1, _ => Feed(0)) + [Feed(0)];
    }
  }

  lemma NoBacklogLater(s: State, i: nat)
    requires Inv(s) && 0 < i < |s.subs|
    ensures s.subs[i].pending == []
  {
    assert BacklogKept(s, i);
    assert |Before(s.subs[i].log, s.subs[i].joined) + s.subs[i].pending| == 0;
  }

  /** The backlog goes into its channel if it fits. */
  lemma PushBacklog(s: State) returns (more: seq<Action>)
    requires Inv(s) && !SomebodyJammed(s)
    ensures AllInner(more) && Inv(Run(s, more)) && NothingToPush(Run(s, more))
  {
    if s.subs == [] || s.subs[0].pending == [] {
      more := [];
      forall i | 0 < i < |s.subs| ensures s.subs[i].pending == [] { NoBacklogLater(s, i); }
    } else {
      var n := |s.subs[0].pending|;
      assert Channel(s, 0) && !Jammed(s, 0);
      more := seq(n, _ => Feed(0));
      FeedAll(s, 0, n);
      FeedsOnlyFirst(s, n);
      RunKeepsInvFrom(s, more);
      forall i | 0 < i < |s.subs| ensures s.subs[i].pending == [] { NoBacklogLater(s, i); }
    }
  }

  ghost predicate LeadsToRest(s: State, more: seq<Action>) {
    AllInner(more) && AtRest(Run(s, more))
  }

  /**
   * From a reachable state the steps under way can bring the pipe to rest, with everything handed
   * over, exactly when no subscriber has more to push than its channel will ever hold.
   */
  lemma {:induction false} RestCanBeReached(trace: seq<Action>)
    ensures var s := Run(EMPTY, trace); (exists more :: LeadsToRest(s, more)) <==> !SomebodyJammed(s)
  {
    var s := Run(EMPTY, trace);
    RunKeepsInv(trace);
    if SomebodyJammed(s) {
      var i: nat :| Jammed(s, i);
      forall more ensures !LeadsToRest(s, more) {
        JamStaysOverRuns(s, more, i);
        assert Jammed(Run(s, more), i);
      }
    } else {
      var push := PushBacklog(s);
      var drain := DrainFrom(Run(s, push), 0);
      RunParts(s, push, drain);
      var send := SendAll(Run(s, push + drain));
      RunParts(s, push + drain, send);
      assert LeadsToRest(s, push + drain + send);
    }
  }

  // ---- When nothing moves ----

  // A subscriber that waits for room in its own channel, which nobody else empties.
  predicate Blocked(sub: Sub) {
    sub.pending != [] && |sub.log| - sub.read == 256
  }

  ghost predicate SomethingMoves(s: State) {
    exists a: Action :: Inner(a) && Step(s, a) != s
  }

  lemma EnabledMoves(s: State, a: Action)
    requires Inner(a) && Enabled(s, a)
    ensures Step(s, a) != s
  {
    match a
    case Put(p) =>
      var i := s.flights[p].next;
      assert |Step(s, a).subs[i].log| == |s.subs[i].log| + 1;
    case Feed(i) => assert |Step(s, a).subs[i].log| == |s.subs[i].log| + 1;
    case Take(i) => assert Step(s, a).subs[i].read == s.subs[i].read + 1;
  }

  /**
   * In every reachable state nothing under way moves exactly when the pipe is at rest, or the
   * first subscriber waits for room in its own channel, all others are through, and every
   * sender waits for the first one.
   */
  lemma {:induction false} NothingMovesExactlyAtRestOrBlocked(trace: seq<Action>)
    ensures var s := Run(EMPTY, trace);
      !SomethingMoves(s) <==>
        || AtRest(s)
        || (&& s.subs != [] && Blocked(s.subs[0])
            && (forall i :: 0 < i < |s.subs| ==> Drained(s.subs[i]))
            && (forall p <- s.flights :: s.flights[p].next == 0))
  {
    var s := Run(EMPTY, trace);
    RunKeepsInv(trace);
    if !SomethingMoves(s) {
      forall i: nat | i < |s.subs| ensures Drained(s.subs[i]) || (i == 0 && Blocked(s.subs[i])) { SettledSub(s, i); }
      forall p | p in s.flights ensures s.subs != [] && s.flights[p].next == 0 && Blocked(s.subs[0]) {
        SettledFlight(s, p);
      }
      if s.subs == [] || !Blocked(s.subs[0]) {
        assert forall p :: p !in s.flights;
        assert AtRest(s);
      }
    } else {
      var a :| Inner(a) && Step(s, a) != s;
      assert Enabled(s, a);
      match a
      case Put(p) => assert Aimed(s, p);
      case Feed(i) =>
      case Take(i) =>
    }
  }

  lemma SettledSub(s: State, i: nat)
    requires Inv(s) && !SomethingMoves(s) && i < |s.subs|
    ensures Drained(s.subs[i]) || (i == 0 && Blocked(s.subs[i]))
  {
    assert Channel(s, i) && BacklogKept(s, i);
    if s.subs[i].pending == [] {
      if s.subs[i].read < |s.subs[i].log| { EnabledMoves(s, Take(i)); }
    } else {
      PendingIsBacklog(s, i, 0);
      if Room(s.subs[i]) { EnabledMoves(s, Feed(i)); }
    }
  }

  lemma SettledFlight(s: State, p: nat)
    requires Inv(s) && !SomethingMoves(s) && p in s.flights
    ensures s.subs != [] && s.flights[p].next == 0 && Blocked(s.subs[0])
  {
    assert Aimed(s, p);
    var i := s.flights[p].next;
    SettledSub(s, i);
    if Room(s.subs[i]) { EnabledMoves(s, Put(p)); }
  }
}
