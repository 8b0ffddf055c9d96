/**
 * The callback queue (pkg/webhook/queue.go): `Push` and `Stop` under the mutex, and workers that
 * take tasks off the channel, run them and go back for more, all interleaved in any order.
 *
 * A task is known by its ticket, its place among the accepted ones. The channel is modelled with
 * Go's rules: sending on a closed channel or closing it again crashes the process, and receiving
 * from a closed channel yields what is buffered before it ends.
 */
module WebhookQueue {
  import opened Tickets
  import opened Wrappers

  const WORKERS := 2
  const BUFFER := 100

  datatype Worker = Idle | Running(ticket: nat) | Exited

  datatype Reply = Accepted | NilTask | Stopped | Full | Crash

  datatype State = State(
    capacity: nat,
    closed: bool,
    crashed: bool,
    stopped: bool,
    workers: seq<Worker>,
    buf: seq<nat>,
    accepted: seq<string>,
    taken: seq<nat>,
    finished: seq<nat>)

  // A nil function is the absent task. A task ends by returning or by panicking.
  datatype Action =
    | Push(task: Option<string>)
    | Stop
    | Take(worker: nat)
    | Finish(worker: nat, panicked: bool)
    | Exit(worker: nat)

  function Start(workerCount: int, bufferSize: int): State {
    var n := if workerCount <= 0 then WORKERS else workerCount;
    var capacity := if bufferSize <= 0 then BUFFER else bufferSize;
    State(capacity, false, false, false, seq(n, _ => Idle), [], [], [], [])
  }

  predicate Enabled(s: State, a: Action) {
    !s.crashed &&
    match a
    case Push(_) => true
    case Stop => true
    case Take(w) => w < |s.workers| && s.workers[w].Idle? && s.buf != []
    case Finish(w, _) => w < |s.workers| && s.workers[w].Running?
    case Exit(w) => w < |s.workers| && s.workers[w].Idle? && s.buf == [] && s.closed
  }

  function ReplyTo(s: State, task: Option<string>): Reply {
    if task.None? then NilTask
    else if s.stopped then Stopped
    else if s.closed then Crash
    else if |s.buf| < s.capacity then Accepted
    else Full
  }

  // `recover` makes a panic end the task like a return does: the worker goes on either way.
  function Step(s: State, a: Action): State {
    if !Enabled(s, a) then s else
    match a
    case Push(task) => (
      match ReplyTo(s, task)
      case Accepted => s.(buf := s.buf + [|s.accepted|], accepted := s.accepted + [task.value])
      case Crash => s.(crashed := true)
      case _ => s
    )
    case Stop =>
      if s.stopped then s else s.(stopped := true, closed := true, crashed := s.closed)
    case Take(w) =>
      s.(workers := s.workers[w := Running(s.buf[0])], buf := s.buf[1..], taken := s.taken + [s.buf[0]])
    case Finish(w, _) =>
      s.(workers := s.workers[w := Idle], finished := s.finished + [s.workers[w].ticket])
    case Exit(w) =>
      s.(workers := s.workers[w := Exited])
  }

  function Run(s: State, trace: seq<Action>): State
    decreases |trace|
  {
    if trace == [] then s else Step(Run(s, trace[..|trace| - 1]), trace[|trace| - 1])
  }

  lemma RunStep(s: State, trace: seq<Action>, a: Action)
    ensures Run(s, trace + [a]) == Step(Run(s, trace), a)
  {
    assert (trace + [a])[..|trace|] == trace;
  }

  // ---- The invariant ----

  // How many workers are running task t.
  function Held(workers: seq<Worker>, t: nat): nat {
    if workers == [] then 0 else (if workers[0] == Running(t) then 1 else 0) + Held(workers[1..], t)
  }

  // Every task taken off the channel is being run or has been.
  ghost predicate Balanced(s: State, t: nat) {
    multiset(s.taken)[t] == Held(s.workers, t) + multiset(s.finished)[t]
  }

  ghost predicate Inv(s: State) {
    && !s.crashed
    && s.closed == s.stopped
    && |s.buf| <= s.capacity
    && s.taken + s.buf == Upto(|s.accepted|)
    && forall t: nat {:trigger Balanced(s, t)} :: Balanced(s, t)
  }

  lemma {:induction false} HeldUpdate(workers: seq<Worker>, w: nat, to: Worker, t: nat)
    requires w < |workers|
    ensures Held(workers[w := to], t) + (if workers[w] == Running(t) then 1 else 0)
         == Held(workers, t) + (if to == Running(t) then 1 else 0)
    decreases |workers|
  {
    if w == 0 {
      assert workers[w := to][1..] == workers[1..];
    } else {
      assert workers[w := to][1..] == workers[1..][w - 1 := to];
      HeldUpdate(workers[1..], w - 1, to, t);
    }
  }

  lemma {:induction false} NobodyRuns(n: nat, t: nat)
    ensures Held(seq(n, _ => Idle), t) == 0
  {
    if n > 0 {
      assert seq(n, _ => Idle)[1..] == seq(n - 1, _ => Idle);
      NobodyRuns(n - 1, t);
    }
  }

  lemma TakeKeepsInv(s: State, w: nat)
    requires Inv(s) && Enabled(s, Take(w))
    ensures Inv(Step(s, Take(w)))
  {
    var s' := Step(s, Take(w));
    forall t: nat ensures Balanced(s', t) {
      assert Balanced(s, t);
      HeldUpdate(s.workers, w, Running(s.buf[0]), t);
    }
    assert (s.taken + [s.buf[0]]) + s.buf[1..] == s.taken + s.buf;
  }

  lemma FinishKeepsInv(s: State, w: nat, panicked: bool)
    requires Inv(s) && Enabled(s, Finish(w, panicked))
    ensures Inv(Step(s, Finish(w, panicked)))
  {
    var s' := Step(s, Finish(w, panicked));
    forall t: nat ensures Balanced(s', t) {
      assert Balanced(s, t);
      HeldUpdate(s.workers, w, Idle, t);
    }
  }

  lemma ExitKeepsInv(s: State, w: nat)
    requires Inv(s) && Enabled(s, Exit(w))
    ensures Inv(Step(s, Exit(w)))
  {
    var s' := Step(s, Exit(w));
    forall t: nat ensures Balanced(s', t) {
      assert Balanced(s, t);
      HeldUpdate(s.workers, w, Exited, t);
    }
  }

  lemma CallKeepsInv(s: State, a: Action)
    requires Inv(s) && (a.Push? || a.Stop?)
    ensures Inv(Step(s, a))
  {
    var s' := Step(s, a);
    forall t: nat ensures Balanced(s', t) { assert Balanced(s, t); }
    assert s.taken + (s.buf + [|s.accepted|]) == (s.taken + s.buf) + [|s.accepted|];
  }

  lemma StepKeepsInv(s: State, a: Action)
    requires Inv(s)
    ensures Inv(Step(s, a))
  {
    if Enabled(s, a) {
      match a
      case Push(_) => CallKeepsInv(s, a);
      case Stop => CallKeepsInv(s, a);
      case Take(w) => TakeKeepsInv(s, w);
      case Finish(w, panicked) => FinishKeepsInv(s, w, panicked);
      case Exit(w) => ExitKeepsInv(s, w);
    }
  }

  lemma {:induction false} RunKeepsInv(workerCount: int, bufferSize: int, trace: seq<Action>)
    ensures Inv(Run(Start(workerCount, bufferSize), trace))
    decreases |trace|
  {
    if trace == [] {
      var s := Start(workerCount, bufferSize);
      forall t: nat ensures Balanced(s, t) { NobodyRuns(|s.workers|, t); }
    } else {
      RunKeepsInv(workerCount, bufferSize, trace[..|trace| - 1]);
      StepKeepsInv(Run(Start(workerCount, bufferSize), trace[..|trace| - 1]), trace[|trace| - 1]);
    }
  }

  // ---- Exactly once, in order ----

  /** An accepted task is in exactly one place: waiting in the buffer, in one worker's hands, or finished once. */
  lemma {:induction false} EachTaskOnce(workerCount: int, bufferSize: int, trace: seq<Action>, t: nat)
    ensures var s := Run(Start(workerCount, bufferSize), trace);
      multiset(s.buf)[t] + Held(s.workers, t) + multiset(s.finished)[t] == if t < |s.accepted| then 1 else 0
  {
    var s := Run(Start(workerCount, bufferSize), trace);
    RunKeepsInv(workerCount, bufferSize, trace);
    assert Balanced(s, t);
    UptoCounts(|s.accepted|, t);
    assert multiset(s.taken + s.buf) == multiset(s.taken) + multiset(s.buf);
  }

  /** The k-th task any worker takes is the k-th accepted one, and the buffer holds the next ones in order. */
  lemma {:induction false} TakenInAcceptanceOrder(workerCount: int, bufferSize: int, trace: seq<Action>, k: nat)
    ensures var s := Run(Start(workerCount, bufferSize), trace);
      && |s.taken| + |s.buf| == |s.accepted|
      && (k < |s.taken| ==> s.taken[k] == k)
      && (k < |s.buf| ==> s.buf[k] == |s.taken| + k)
  {
    var s := Run(Start(workerCount, bufferSize), trace);
    RunKeepsInv(workerCount, bufferSize, trace);
    PartsOfUpto(s.taken, s.buf, |s.accepted|, k);
  }

  lemma {:induction false} CapacityIsFixed(workerCount: int, bufferSize: int, trace: seq<Action>)
    ensures var s := Run(Start(workerCount, bufferSize), trace);
      && s.capacity == (if bufferSize <= 0 then 100 else bufferSize)
      && |s.workers| == (if workerCount <= 0 then 2 else workerCount)
    decreases |trace|
  {
    if trace != [] {
      CapacityIsFixed(workerCount, bufferSize, trace[..|trace| - 1]);
      StepKeepsSize(Run(Start(workerCount, bufferSize), trace[..|trace| - 1]), trace[|trace| - 1]);
    }
  }

  lemma StepKeepsSize(s: State, a: Action)
    ensures Step(s, a).capacity == s.capacity && |Step(s, a).workers| == |s.workers|
  {
  }

  /** No send and no close ever meets a closed channel, and the buffer stays within its size. */
  lemma {:induction false} NeverCrashesOrOverflows(workerCount: int, bufferSize: int, trace: seq<Action>)
    ensures var s := Run(Start(workerCount, bufferSize), trace);
      !s.crashed && |s.buf| <= (if bufferSize <= 0 then 100 else bufferSize)
  {
    RunKeepsInv(workerCount, bufferSize, trace);
    CapacityIsFixed(workerCount, bufferSize, trace);
  }

  // The tasks whose push was answered without an error, in order.
  function Acknowledged(s: State, trace: seq<Action>): seq<string>
    decreases |trace|
  {
    if trace == [] then [] else
    var early, a := trace[..|trace| - 1], trace[|trace| - 1];
    Acknowledged(s, early)
    + if a.Push? && ReplyTo(Run(s, early), a.task) == Accepted then [a.task.value] else []
  }

  ghost predicate HasStop(trace: seq<Action>) {
    exists k :: 0 <= k < |trace| && trace[k] == Stop
  }

  /** The callers that got no error are exactly the owners of the accepted tasks, in order. */
  lemma {:induction false} AcknowledgedAreAccepted(workerCount: int, bufferSize: int, trace: seq<Action>)
    ensures var s := Start(workerCount, bufferSize); Acknowledged(s, trace) == Run(s, trace).accepted
    decreases |trace|
  {
    if trace != [] {
      var early := trace[..|trace| - 1];
      AcknowledgedAreAccepted(workerCount, bufferSize, early);
      RunKeepsInv(workerCount, bufferSize, early);
      StepAccepts(Run(Start(workerCount, bufferSize), early), trace[|trace| - 1]);
    }
  }

  lemma StepAccepts(s: State, a: Action)
    requires !s.crashed
    ensures Step(s, a).accepted
         == s.accepted + if a.Push? && ReplyTo(s, a.task) == Accepted then [a.task.value] else []
  {
  }

  lemma {:induction false} StoppedOnceStopCalled(workerCount: int, bufferSize: int, trace: seq<Action>)
    ensures Run(Start(workerCount, bufferSize), trace).stopped <==> HasStop(trace)
    decreases |trace|
  {
    if trace != [] {
      var n := |trace| - 1;
      var early := trace[..n];
      StoppedOnceStopCalled(workerCount, bufferSize, early);
      RunKeepsInv(workerCount, bufferSize, early);
      if HasStop(trace) && trace[n] != Stop {
        var k :| 0 <= k < |trace| && trace[k] == Stop;
        assert early[k] == Stop;
      }
      if HasStop(early) {
        var k :| 0 <= k < |early| && early[k] == Stop;
        assert trace[k] == Stop;
      }
    }
  }

  /**
   * What a push is answered, from the history of calls alone: a task is refused as stopped
   * exactly after some `Stop`, and as full exactly when a full buffer of accepted tasks is untaken.
   */
  lemma {:induction false} ReplyFollowsHistory(workerCount: int, bufferSize: int, trace: seq<Action>, task: string)
    ensures var start := Start(workerCount, bufferSize);
      var s := Run(start, trace);
      ReplyTo(s, Some(task)) ==
        if HasStop(trace) then Stopped
        else if |Acknowledged(start, trace)| - |s.taken| == start.capacity then Full
        else Accepted
  {
    StoppedOnceStopCalled(workerCount, bufferSize, trace);
    AcknowledgedAreAccepted(workerCount, bufferSize, trace);
    TakenInAcceptanceOrder(workerCount, bufferSize, trace, 0);
    CapacityIsFixed(workerCount, bufferSize, trace);
    RunKeepsInv(workerCount, bufferSize, trace);
  }

  // ---- Draining after Stop ----

  // The worker steps left: a buffered task is taken and finished, a running one finished, and
  // every worker then exits.
  function StepsLeft(workers: seq<Worker>): nat {
    if workers == [] then 0 else Weight(workers[0]) + StepsLeft(workers[1..])
  }

  function Weight(w: Worker): nat {
    match w case Idle => 1 case Running(_) => 2 case Exited => 0
  }

  function Work(s: State): nat {
    2 * |s.buf| + StepsLeft(s.workers)
  }

  lemma {:induction false} StepsLeftUpdate(workers: seq<Worker>, w: nat, to: Worker)
    requires w < |workers|
    ensures StepsLeft(workers[w := to]) + Weight(workers[w]) == StepsLeft(workers) + Weight(to)
    decreases |workers|
  {
    if w == 0 {
      assert workers[w := to][1..] == workers[1..];
    } else {
      assert workers[w := to][1..] == workers[1..][w - 1 := to];
      StepsLeftUpdate(workers[1..], w - 1, to);
    }
  }

  predicate IsWorkerStep(a: Action) {
    a.Take? || a.Finish? || a.Exit?
  }

  // Every action of the trace is a worker step that can happen where it stands.
  ghost predicate Effective(s: State, trace: seq<Action>) {
    forall k :: 0 <= k < |trace| ==> IsWorkerStep(trace[k]) && Enabled(Run(s, trace[..k]), trace[k])
  }

  lemma WorkerStepIsOneLess(s: State, a: Action)
    requires IsWorkerStep(a) && Enabled(s, a)
    ensures Work(Step(s, a)) + 1 == Work(s)
    ensures Step(s, a).stopped == s.stopped && Step(s, a).accepted == s.accepted
  {
    match a
    case Take(w) => StepsLeftUpdate(s.workers, w, Running(s.buf[0]));
    case Finish(w, _) => StepsLeftUpdate(s.workers, w, Idle);
    case Exit(w) => StepsLeftUpdate(s.workers, w, Exited);
  }

  predicate Drained(s: State) {
    s.buf == [] && forall w :: 0 <= w < |s.workers| ==> s.workers[w].Exited?
  }

  /** The workers have exactly `Work` steps left, in whatever order they take them. */
  lemma {:induction false} DrainIsExactlyTheWorkLeft(s: State, trace: seq<Action>)
    requires Effective(s, trace)
    ensures |trace| + Work(Run(s, trace)) == Work(s)
    ensures Run(s, trace).stopped == s.stopped && Run(s, trace).accepted == s.accepted
    decreases |trace|
  {
    if trace != [] {
      var n := |trace| - 1;
      var early := trace[..n];
      assert forall k :: 0 <= k < n ==> early[..k] == trace[..k];
      assert Effective(s, early);
      DrainIsExactlyTheWorkLeft(s, early);
      var s' := Run(s, early);
      assert Enabled(s', trace[n]) && IsWorkerStep(trace[n]);
      WorkerStepIsOneLess(s', trace[n]);
    }
  }

  lemma {:induction false} NoStepsLeft(workers: seq<Worker>)
    ensures StepsLeft(workers) == 0 <==> forall w :: 0 <= w < |workers| ==> workers[w].Exited?
    decreases |workers|
  {
    if workers != [] {
      NoStepsLeft(workers[1..]);
      assert forall w :: 0 < w < |workers| ==> workers[w] == workers[1..][w - 1];
      assert forall w :: 0 <= w < |workers| - 1 ==> workers[1..][w] == workers[w + 1];
    }
  }

  lemma {:induction false} NothingHeld(workers: seq<Worker>, t: nat)
    requires forall w :: 0 <= w < |workers| ==> workers[w].Exited?
    ensures Held(workers, t) == 0
    decreases |workers|
  {
    if workers != [] { NothingHeld(workers[1..], t); }
  }

  /** When the workers have no steps left, every accepted task has finished, once. */
  lemma {:induction false} DrainedMeansAllFinished(workerCount: int, bufferSize: int, trace: seq<Action>, t: nat)
    ensures var s := Run(Start(workerCount, bufferSize), trace);
      && (Work(s) == 0 <==> Drained(s))
      && (Drained(s) ==> multiset(s.finished)[t] == if t < |s.accepted| then 1 else 0)
  {
    var s := Run(Start(workerCount, bufferSize), trace);
    NoStepsLeft(s.workers);
    EachTaskOnce(workerCount, bufferSize, trace, t);
    if Drained(s) { NothingHeld(s.workers, t); }
  }

  ghost predicate SomeWorkerCanMove(s: State) {
    exists a: Action :: IsWorkerStep(a) && Enabled(s, a)
  }

  // No worker leaves while tasks are waiting, so the last one to leave leaves nothing behind.
  lemma {:induction false} WorkersOutliveTasks(workerCount: int, bufferSize: int, trace: seq<Action>, w: nat)
    ensures var s := Run(Start(workerCount, bufferSize), trace);
      w < |s.workers| && s.workers[w].Exited? ==> s.stopped && s.buf == []
    decreases |trace|
  {
    if trace != [] {
      WorkersOutliveTasks(workerCount, bufferSize, trace[..|trace| - 1], w);
      RunKeepsInv(workerCount, bufferSize, trace[..|trace| - 1]);
    }
  }

  /** With `Stop` called, no worker can move exactly when the drain is complete. */
  lemma {:induction false} StuckMeansDrained(workerCount: int, bufferSize: int, trace: seq<Action>)
    ensures var s := Run(Start(workerCount, bufferSize), trace);
      s.stopped ==> (!SomeWorkerCanMove(s) <==> Drained(s))
  {
    var s := Run(Start(workerCount, bufferSize), trace);
    RunKeepsInv(workerCount, bufferSize, trace);
    CapacityIsFixed(workerCount, bufferSize, trace);
    WorkersOutliveTasks(workerCount, bufferSize, trace, 0);
    if s.stopped && !Drained(s) {
      var w :| 0 <= w < |s.workers| && !s.workers[w].Exited?;
      var a := if s.workers[w].Running? then Finish(w, false) else if s.buf != [] then Take(w) else Exit(w);
      assert IsWorkerStep(a) && Enabled(s, a);
    }
  }

  /** In every reachable state no worker can move exactly when nothing is buffered and every worker
      waits for a task, or has left after `Stop`. */
  lemma {:induction false} WorkersWaitExactlyWhenNothingToDo(workerCount: int, bufferSize: int, trace: seq<Action>)
    ensures var s := Run(Start(workerCount, bufferSize), trace);
      !SomeWorkerCanMove(s) <==>
        s.buf == [] && forall w :: 0 <= w < |s.workers| ==> s.workers[w] == if s.stopped then Exited else Idle
  {
    var s := Run(Start(workerCount, bufferSize), trace);
    RunKeepsInv(workerCount, bufferSize, trace);
    CapacityIsFixed(workerCount, bufferSize, trace);
    forall w: nat | w < |s.workers| && s.workers[w].Exited? ensures s.stopped && s.buf == [] {
      WorkersOutliveTasks(workerCount, bufferSize, trace, w);
    }
    if !SomeWorkerCanMove(s) {
      forall w: nat | w < |s.workers| ensures s.workers[w] == (if s.stopped then Exited else Idle) && s.buf == [] {
        assert !(IsWorkerStep(Finish(w, false)) && Enabled(s, Finish(w, false)));
        assert !(IsWorkerStep(Take(w)) && Enabled(s, Take(w)));
        assert !(IsWorkerStep(Exit(w)) && Enabled(s, Exit(w)));
      }
      assert s.workers[0] == if s.stopped then Exited else Idle;
    }
  }

  // ---- The methods ----

  lemma OpenUntilStopped(workerCount: int, bufferSize: int, trace: seq<Action>)
    ensures var s := Run(Start(workerCount, bufferSize), trace); s.closed == s.stopped && !s.crashed
  {
    RunKeepsInv(workerCount, bufferSize, trace);
  }

  class MemoryQueue {
    const capacity: nat
    var stopped: bool
    var closed: bool
    var buf: seq<nat>
    var workers: seq<Worker>
    var accepted: seq<string>
    ghost var taken: seq<nat>
    ghost var finished: seq<nat>
    ghost const asked: (int, int)
    ghost var trace: seq<Action>

    ghost function Now(): State
      reads this
    {
      State(capacity, closed, false, stopped, workers, buf, accepted, taken, finished)
    }

    // The queue is where the machine is after the calls made so far, and so it has not crashed.
    ghost predicate Valid()
      reads this
    {
      Now() == Run(Start(asked.0, asked.1), trace)
    }

    constructor (workerCount: int, bufferSize: int)
      ensures Valid() && trace == [] && asked == (workerCount, bufferSize)
      ensures capacity == (if bufferSize <= 0 then 100 else bufferSize)
      ensures workers == seq(if workerCount <= 0 then 2 else workerCount, _ => Idle)
      ensures buf == [] && !stopped && !closed
    {
      var n := workerCount;
      if n <= 0 { n := WORKERS; }
      var size := bufferSize;
      if size <= 0 { size := BUFFER; }
      capacity, stopped, closed, buf, accepted := size, false, false, [], [];
      workers := seq(n, _ => Idle);
      taken, finished, trace := [], [], [];
      asked := (workerCount, bufferSize);
    }

    // The channel send is only reached when the channel is open.
    method Push(task: Option<string>) returns (reply: Reply)
      requires Valid()
      modifies this
      ensures Valid() && trace == old(trace) + [Action.Push(task)]
      ensures reply == ReplyTo(old(Now()), task) && reply != Crash
      ensures reply == if task.None? then NilTask else if old(stopped) then Reply.Stopped
                       else if old(|buf|) < capacity then Accepted else Full
      ensures buf == if reply == Accepted then old(buf) + [old(|accepted|)] else old(buf)
      ensures accepted == if reply == Accepted then old(accepted) + [task.value] else old(accepted)
    {
      ghost var was := Now();
      RunStep(Start(asked.0, asked.1), trace, Action.Push(task));
      OpenUntilStopped(asked.0, asked.1, trace);
      assert Enabled(was, Action.Push(task));
      trace := trace + [Action.Push(task)];
      reply := Full;
      if task.None? {
        reply := NilTask;
      } else if stopped {
        reply := Reply.Stopped;
      } else if |buf| < capacity {
        buf := buf + [|accepted|];
        accepted := accepted + [task.value];
        reply := Accepted;
      }
      assert Now() == Step(was, Action.Push(task));
    }

    method Stop()
      requires Valid()
      modifies this
      ensures Valid() && trace == old(trace) + [Action.Stop]
      ensures stopped && closed && buf == old(buf) && accepted == old(accepted) && workers == old(workers)
    {
      ghost var was := Now();
      RunStep(Start(asked.0, asked.1), trace, Action.Stop);
      OpenUntilStopped(asked.0, asked.1, trace);
      assert Enabled(was, Action.Stop);
      trace := trace + [Action.Stop];
      if stopped { return; }
      stopped := true;
      closed := true;
      assert Now() == Step(was, Action.Stop);
    }

    /**
     * A worker that nobody else competes with: it runs what is buffered, task by task, and leaves
     * when the channel is closed. With the channel open it waits for more.
     */
    method Work(w: nat)
      requires Valid() && w < |workers| && workers[w].Idle?
      modifies this
      ensures Valid() && buf == []
      ensures finished == old(finished) + old(buf) && taken == old(taken) + old(buf)
      ensures workers == old(workers)[w := if closed then Exited else Idle]
      ensures stopped == old(stopped) && closed == old(closed) && accepted == old(accepted)
    {
      while buf != []
        invariant Valid() && |workers| == old(|workers|) && workers == old(workers)
        invariant finished + buf == old(finished) + old(buf)
        invariant taken + buf == old(taken) + old(buf)
        invariant stopped == old(stopped) && closed == old(closed) && accepted == old(accepted)
        decreases |buf|
      {
        Next(w);
        Done(w, false);
      }
      if closed { Leave(w); }
    }

    // A receive of the worker's loop that gets a task.
    method Next(w: nat)
      requires Valid() && w < |workers| && workers[w].Idle? && buf != []
      modifies this
      ensures Valid() && trace == old(trace) + [Take(w)]
      ensures buf == old(buf)[1..] && taken == old(taken) + [old(buf)[0]]
      ensures workers == old(workers)[w := Running(old(buf)[0])]
      ensures stopped == old(stopped) && closed == old(closed) && accepted == old(accepted) && finished == old(finished)
    {
      RunStep(Start(asked.0, asked.1), trace, Take(w));
      trace := trace + [Take(w)];
      workers := workers[w := Running(buf[0])];
      taken := taken + [buf[0]];
      buf := buf[1..];
    }

    // The task returned, or panicked and was recovered.
    method Done(w: nat, panicked: bool)
      requires Valid() && w < |workers| && workers[w].Running?
      modifies this
      ensures Valid() && trace == old(trace) + [Finish(w, panicked)]
      ensures finished == old(finished) + [old(workers[w].ticket)]
      ensures workers == old(workers)[w := Idle]
      ensures stopped == old(stopped) && closed == old(closed) && accepted == old(accepted)
      ensures buf == old(buf) && taken == old(taken)
    {
      RunStep(Start(asked.0, asked.1), trace, Finish(w, panicked));
      trace := trace + [Finish(w, panicked)];
      finished := finished + [workers[w].ticket];
      workers := workers[w := Idle];
    }

    // The receive that finds the channel closed and empty ends the worker.
    method Leave(w: nat)
      requires Valid() && w < |workers| && workers[w].Idle? && buf == [] && closed
      modifies this
      ensures Valid() && trace == old(trace) + [Exit(w)]
      ensures workers == old(workers)[w := Exited]
      ensures stopped == old(stopped) && closed == old(closed) && accepted == old(accepted)
      ensures buf == old(buf) && taken == old(taken) && finished == old(finished)
    {
      RunStep(Start(asked.0, asked.1), trace, Exit(w));
      trace := trace + [Exit(w)];
      workers := workers[w := Exited];
    }
  }
}
