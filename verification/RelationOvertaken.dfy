/** The one overlap that leaves a stale list behind, for any process, key and list: a fill reads
    MySQL, a writer of the key commits and deletes it from Redis, and then the fill stores. */
module RelationOvertaken {
  import opened RelationProtocol
  import opened RelationCoherence

  function Reading(p: Proc, k: Key): seq<Action> {
    [Ask(0, p, k), ReadRedis(0, true), ReadMysql(0)]
  }

  function Writing(p: Proc, k: Key, list: Value): seq<Action> {
    [Commit(0, p, map[k := list]), RedisDelete(0, true), StoreRedis(0, true)]
  }

  function Settling(p: Proc): seq<Action> {
    [Publish(0, true), Deliver(p), DropOwn(0), Finish(0)]
  }

  const OLD := Copy([], 0, false)
  const RACED := Copy([], 0, true)

  /** No message in any channel, and after the publication one in every channel but that of p. */
  function Idle(procs: set<Proc>): map<Proc, seq<map<Key, nat>>> {
    map q | q in procs :: []
  }

  function Told(procs: set<Proc>, p: Proc, k: Key): map<Proc, seq<map<Key, nat>>> {
    map q | q in procs :: if q == p then [] else [map[k := 1]]
  }

  function HasRead(procs: set<Proc>, p: Proc, k: Key, stage: Stage): State {
    State(map[], map[], map[(p, k) := Filling(0)], map[0 := Fill(p, k, stage)], {0}, map[], Idle(procs), {}, {})
  }

  function HasStored(procs: set<Proc>, p: Proc, k: Key, list: Value): State {
    State(map[k := [[], list]], map[k := RACED], map[(p, k) := Filling(0)], map[0 := Fill(p, k, Ready(RACED))], {0},
          map[0 := Writer(p, map[k := 1], Deleted)], Idle(procs), {}, {})
  }

  function HasSettled(procs: set<Proc>, p: Proc, k: Key, list: Value): State {
    State(map[k := [[], list]], map[k := RACED], map[], map[], {0}, map[], Told(procs, p, k), {}, {})
  }

  lemma RunParts(s: State, a: seq<Action>, b: seq<Action>)
    ensures Run(s, a + b) == Run(Run(s, a), b)
    decreases |a|
  {
    if a == [] {
      assert a + b == b;
    } else {
      assert (a + b)[1..] == a[1..] + b;
      RunParts(Step(s, a[0]), a[1..], b);
    }
  }

  lemma RunOne(s: State, a: Action, rest: seq<Action>)
    ensures Run(s, [a] + rest) == Run(Step(s, a), rest)
  {
    assert ([a] + rest)[1..] == rest;
  }

  lemma RunThree(s: State, a: Action, b: Action, c: Action)
    ensures Run(s, [a, b, c]) == Step(Step(Step(s, a), b), c)
  {
    RunOne(s, a, [b, c]);
    RunOne(Step(s, a), b, [c]);
    RunOne(Step(Step(s, a), b), c, []);
    assert [a, b, c] == [a] + [b, c] && [b, c] == [b] + [c] && [c] == [c] + [];
  }

  lemma ReadingRun(procs: set<Proc>, p: Proc, k: Key)
    requires p in procs
    ensures Run(Start(procs), Reading(p, k)) == HasRead(procs, p, k, Loaded(OLD))
  {
    RunThree(Start(procs), Ask(0, p, k), ReadRedis(0, true), ReadMysql(0));
    assert Step(Start(procs), Ask(0, p, k)) == HasRead(procs, p, k, Asked);
    assert Step(HasRead(procs, p, k, Asked), ReadRedis(0, true)) == HasRead(procs, p, k, Missed);
    assert Step(HasRead(procs, p, k, Missed), ReadMysql(0)) == HasRead(procs, p, k, Loaded(OLD));
  }

  lemma CommitStep(procs: set<Proc>, p: Proc, k: Key, list: Value)
    requires p in procs
    ensures Step(HasRead(procs, p, k, Loaded(OLD)), Commit(0, p, map[k := list]))
         == HasRead(procs, p, k, Loaded(OLD)).(history := map[k := [[], list]],
                                              writers := map[0 := Writer(p, map[k := 1], Committed)])
  {
    var s := HasRead(procs, p, k, Loaded(OLD));
    var r := Step(s, Commit(0, p, map[k := list]));
    assert History(s, k) + [list] == [[], list];
    assert r.history == map[k := [[], list]];
    assert r.writers[0].vers == map[k := 1];
    assert r.writers == map[0 := Writer(p, map[k := 1], Committed)];
  }

  lemma DeleteStep(procs: set<Proc>, p: Proc, k: Key, list: Value)
    ensures var s := HasStored(procs, p, k, list);
      Step(s.(redis := map[], fills := map[0 := Fill(p, k, Loaded(OLD))],
              writers := map[0 := Writer(p, map[k := 1], Committed)]), RedisDelete(0, true))
      == s.(redis := map[], fills := map[0 := Fill(p, k, Loaded(RACED))])
  {
  }

  lemma StoreStep(procs: set<Proc>, p: Proc, k: Key, list: Value)
    ensures var s := HasStored(procs, p, k, list);
      Step(s.(redis := map[], fills := map[0 := Fill(p, k, Loaded(RACED))]), StoreRedis(0, true)) == s
  {
  }

  lemma WritingRun(procs: set<Proc>, p: Proc, k: Key, list: Value)
    requires p in procs
    ensures Run(HasRead(procs, p, k, Loaded(OLD)), Writing(p, k, list)) == HasStored(procs, p, k, list)
  {
    RunThree(HasRead(procs, p, k, Loaded(OLD)),
             Commit(0, p, map[k := list]), RedisDelete(0, true), StoreRedis(0, true));
    CommitStep(procs, p, k, list);
    DeleteStep(procs, p, k, list);
    StoreStep(procs, p, k, list);
  }

  lemma PublishStep(procs: set<Proc>, p: Proc, k: Key, list: Value)
    ensures Step(HasStored(procs, p, k, list), Publish(0, true))
         == HasStored(procs, p, k, list).(writers := map[0 := Writer(p, map[k := 1], Announced)],
                                          channels := map q | q in procs :: [map[k := 1]])
  {
    assert [] + [map[k := 1]] == [map[k := 1]];
  }

  lemma DeliverStep(procs: set<Proc>, p: Proc, k: Key, list: Value)
    requires p in procs
    ensures var s := HasStored(procs, p, k, list).(writers := map[0 := Writer(p, map[k := 1], Announced)]);
      Step(s.(channels := map q | q in procs :: [map[k := 1]]), Deliver(p))
      == s.(local := map[], channels := Told(procs, p, k))
  {
  }

  lemma SettlingRun(procs: set<Proc>, p: Proc, k: Key, list: Value)
    requires p in procs
    ensures Run(HasStored(procs, p, k, list), Settling(p)) == HasSettled(procs, p, k, list)
  {
    var s := HasStored(procs, p, k, list);
    RunOne(s, Publish(0, true), [Deliver(p), DropOwn(0), Finish(0)]);
    assert Settling(p) == [Publish(0, true)] + [Deliver(p), DropOwn(0), Finish(0)];
    PublishStep(procs, p, k, list);
    RunThree(Step(s, Publish(0, true)), Deliver(p), DropOwn(0), Finish(0));
    DeliverStep(procs, p, k, list);
    var end := HasSettled(procs, p, k, list).(fills := map[0 := Fill(p, k, Ready(RACED))]);
    assert Step(end.(writers := map[0 := Writer(p, map[k := 1], Announced)]), DropOwn(0)) == end;
    assert Step(end, Finish(0)) == HasSettled(procs, p, k, list);
  }

  /** The overlap is not excluded, whatever the key and the list: after this run the key is quiet for
      every process, and yet every read of it returns what was there before the write. */
  lemma OvertakenFillStaysStale(procs: set<Proc>, p: Proc, k: Key, list: Value)
    requires p in procs
    ensures var s := Run(Start(procs), Reading(p, k) + Writing(p, k, list) + Settling(p));
      && Truth(s, k) == list
      && forall q :: Quiet(s, q, k) && ReadNow(s, q, k).value == [] && ReadNow(s, q, k).raced
  {
    RunParts(Start(procs), Reading(p, k) + Writing(p, k, list), Settling(p));
    RunParts(Start(procs), Reading(p, k), Writing(p, k, list));
    ReadingRun(procs, p, k);
    WritingRun(procs, p, k, list);
    SettlingRun(procs, p, k, list);
  }
}
