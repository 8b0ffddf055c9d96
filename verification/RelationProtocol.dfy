/** The three-layer list cache as interleaved steps: MySQL, one shared Redis, one local
    layer per process, and a channel of delete messages to each process. Every copy carries
    the version of its key that it was read from, so staleness is a plain comparison. */
module RelationProtocol {

  type Key = string
  type Value = seq<string>
  type Proc = nat
  type Token = nat

  /** raced: a newer Redis delete ran between this copy's MySQL read and its Redis store. */
  datatype Copy = Copy(value: Value, ver: nat, raced: bool)

  /** A fill: Redis asked, missed, MySQL read, ready to become the local entry. */
  datatype Stage = Asked | Missed | Loaded(copy: Copy) | Ready(copy: Copy)

  datatype Fill = Fill(proc: Proc, key: Key, stage: Stage)

  /** A local entry: the placeholder of one particular fill, or a finished copy. */
  datatype Slot = Filling(token: Token) | Filled(copy: Copy)

  datatype Progress = Committed | Deleted | Announced

  /** A writer after its commit, with the version it gave each of its keys. */
  datatype Writer = Writer(proc: Proc, vers: map<Key, nat>, progress: Progress)

  /** undeleted: versions whose Redis delete failed and that no later delete of the key has made up
      for. missed: versions whose message a process did not get since it began its current entry. */
  datatype State = State(
    history: map<Key, seq<Value>>,
    redis: map<Key, Copy>,
    local: map<(Proc, Key), Slot>,
    fills: map<Token, Fill>,
    tokens: set<Token>,
    writers: map<nat, Writer>,
    channels: map<Proc, seq<map<Key, nat>>>,
    undeleted: set<(Key, nat)>,
    missed: set<(Proc, Key, nat)>)

  datatype Action =
    | Commit(w: nat, p: Proc, puts: map<Key, Value>)
    | RedisDelete(w: nat, ok: bool)
    | Publish(w: nat, ok: bool)
    | DropOwn(w: nat)
    | Deliver(p: Proc)
    | Lose(p: Proc)
    | Ask(t: Token, p: Proc, k: Key)
    | ReadRedis(t: Token, ok: bool)
    | ReadMysql(t: Token)
    | StoreRedis(t: Token, ok: bool)
    | Finish(t: Token)
    | GiveUp(t: Token)
    | Evict(p: Proc, k: Key)
    | RedisExpires(k: Key)

  /** No fill, no writer, nothing cached: an owner without rows has the empty list. */
  function Start(procs: set<Proc>): State {
    State(map[], map[], map[], map[], {}, map[], map p | p in procs :: [], {}, {})
  }

  function History(s: State, k: Key): (h: seq<Value>)
    ensures h != []
  {
    if k in s.history && s.history[k] != [] then s.history[k] else [[]]
  }

  function Latest(s: State, k: Key): nat { |History(s, k)| - 1 }

  /** What a direct MySQL read returns now. */
  function Truth(s: State, k: Key): Value { History(s, k)[Latest(s, k)] }

  function Without(local: map<(Proc, Key), Slot>, p: Proc, keys: set<Key>): map<(Proc, Key), Slot> {
    map e | e in local && !(e.0 == p && e.1 in keys) :: local[e]
  }

  function Pairs(vers: map<Key, nat>): set<(Key, nat)> {
    set k | k in vers :: (k, vers[k])
  }

  /** What a successful delete of these versions leaves to be made up for. */
  function Remaining(undeleted: set<(Key, nat)>, vers: map<Key, nat>): set<(Key, nat)> {
    set e | e in undeleted && !(e.0 in vers && e.1 <= vers[e.0])
  }

  /** A message that does not reach these processes. */
  function Misses(procs: set<Proc>, vers: map<Key, nat>): set<(Proc, Key, nat)> {
    set p, k | p in procs && k in vers :: (p, k, vers[k])
  }

  /** An entry begun now cannot have missed anything yet. */
  function Forgiven(missed: set<(Proc, Key, nat)>, p: Proc, k: Key): set<(Proc, Key, nat)> {
    set e | e in missed && !(e.0 == p && e.1 == k)
  }

  predicate Newer(vers: map<Key, nat>, k: Key, n: nat) {
    k in vers && n < vers[k]
  }

  /** Marks a fill that a newer Redis delete catches between its MySQL read and its store. */
  function Caught(f: Fill, vers: map<Key, nat>): Fill {
    if f.stage.Loaded? && Newer(vers, f.key, f.stage.copy.ver)
    then f.(stage := Loaded(f.stage.copy.(raced := true)))
    else f
  }

  /** One step; an action that is not possible in this state changes nothing. */
  function Step(s: State, a: Action): State {
    match a
    case Commit(w, p, puts) =>
      if w in s.writers || p !in s.channels then s
      else
        s.(history := map k | k in s.history.Keys + puts.Keys ::
                        if k in puts then History(s, k) + [puts[k]] else s.history[k],
           writers := s.writers[w := Writer(p, map k | k in puts :: |History(s, k)|, Committed)])
    case RedisDelete(w, ok) =>
      if w !in s.writers || s.writers[w].progress != Committed then s
      else
        var vers := s.writers[w].vers;
        var t := s.(writers := s.writers[w := s.writers[w].(progress := Deleted)]);
        if ok
        then t.(redis := s.redis - vers.Keys,
                fills := map f | f in s.fills :: Caught(s.fills[f], vers),
                undeleted := Remaining(s.undeleted, vers))
        else t.(undeleted := s.undeleted + Pairs(vers))
    case Publish(w, ok) =>
      if w !in s.writers || s.writers[w].progress != Deleted then s
      else
        var vers := s.writers[w].vers;
        var t := s.(writers := s.writers[w := s.writers[w].(progress := Announced)]);
        if ok then t.(channels := map p | p in s.channels :: s.channels[p] + [vers])
        else t.(missed := s.missed + Misses(s.channels.Keys, vers))
    case DropOwn(w) =>
      if w !in s.writers || s.writers[w].progress != Announced then s
      else s.(local := Without(s.local, s.writers[w].proc, s.writers[w].vers.Keys), writers := s.writers - {w})
    case Deliver(p) =>
      if p !in s.channels || s.channels[p] == [] then s
      else s.(local := Without(s.local, p, s.channels[p][0].Keys), channels := s.channels[p := s.channels[p][1..]])
    case Lose(p) =>
      if p !in s.channels || s.channels[p] == [] then s
      else s.(missed := s.missed + Misses({p}, s.channels[p][0]), channels := s.channels[p := s.channels[p][1..]])
    case Ask(t, p, k) =>
      if t in s.tokens || p !in s.channels || ((p, k) in s.local && s.local[(p, k)].Filling?) then s
      else s.(local := s.local[(p, k) := Filling(t)],
              fills := s.fills[t := Fill(p, k, Asked)],
              tokens := s.tokens + {t},
              missed := Forgiven(s.missed, p, k))
    case ReadRedis(t, ok) =>
      if t !in s.fills || s.fills[t].stage != Asked then s
      else
        var k := s.fills[t].key;
        s.(fills := s.fills[t := s.fills[t].(stage := if ok && k in s.redis then Ready(s.redis[k]) else Missed)])
    case ReadMysql(t) =>
      if t !in s.fills || s.fills[t].stage != Missed then s
      else
        var k := s.fills[t].key;
        s.(fills := s.fills[t := s.fills[t].(stage := Loaded(Copy(Truth(s, k), Latest(s, k), false)))])
    case StoreRedis(t, ok) =>
      if t !in s.fills || !s.fills[t].stage.Loaded? then s
      else
        var c := s.fills[t].stage.copy;
        s.(fills := s.fills[t := s.fills[t].(stage := Ready(c))],
           redis := if ok then s.redis[s.fills[t].key := c] else s.redis)
    case Finish(t) =>
      if t !in s.fills || !s.fills[t].stage.Ready? then s
      else
        var e := (s.fills[t].proc, s.fills[t].key);
        s.(fills := s.fills - {t},
           local := if e in s.local && s.local[e] == Filling(t)
                    then s.local[e := Filled(s.fills[t].stage.copy)] else s.local)
    case GiveUp(t) =>
      if t !in s.fills then s
      else
        var e := (s.fills[t].proc, s.fills[t].key);
        s.(fills := s.fills - {t},
           local := if e in s.local && s.local[e] == Filling(t) then s.local - {e} else s.local)
    case Evict(p, k) => s.(local := s.local - {(p, k)})
    case RedisExpires(k) => s.(redis := s.redis - {k})
  }

  function Run(s: State, actions: seq<Action>): State
    decreases |actions|
  {
    if actions == [] then s else Run(Step(s, actions[0]), actions[1..])
  }

  /** A commit is what MySQL answers from then on, and nothing else changes what it answers. */
  lemma CommitsAreTheTruth(s: State, a: Action, k: Key)
    ensures Truth(Step(s, a), k) ==
      if a.Commit? && a.w !in s.writers && a.p in s.channels && k in a.puts then a.puts[k] else Truth(s, k)
  {
    if !a.Commit? {
      OnlyCommitsWrite(s, a);
    }
  }

  lemma OnlyCommitsWrite(s: State, a: Action)
    requires !a.Commit?
    ensures Step(s, a).history == s.history
  {
  }

  // ---- why a copy may be stale ----

  predicate Stale(s: State, k: Key, c: Copy) {
    c.ver < Latest(s, k)
  }

  predicate Genuine(s: State, k: Key, c: Copy) {
    && c.ver <= Latest(s, k) && c.value == History(s, k)[c.ver]
    && (c.raced ==> c.ver < Latest(s, k))
  }

  /** A writer of a newer version has not deleted the key from Redis yet. */
  ghost predicate BeforeDelete(s: State, k: Key, n: nat) {
    exists w {:trigger s.writers[w]} ::
      w in s.writers && s.writers[w].progress == Committed && Newer(s.writers[w].vers, k, n)
  }

  /** A writer of a newer version has not published its delete yet. */
  ghost predicate BeforePublish(s: State, k: Key, n: nat) {
    exists w {:trigger s.writers[w]} ::
      w in s.writers && s.writers[w].progress != Announced && Newer(s.writers[w].vers, k, n)
  }

  /** A delete of a newer version is on its way to this process. */
  ghost predicate Undelivered(s: State, p: Proc, k: Key, n: nat) {
    p in s.channels && exists i :: 0 <= i < |s.channels[p]| && Newer(s.channels[p][i], k, n)
  }

  /** A Redis delete of a newer version failed, and no later delete has made up for it. */
  ghost predicate Undeleted(s: State, k: Key, n: nat) {
    exists v: nat {:trigger (k, v) in s.undeleted} :: (k, v) in s.undeleted && n < v
  }

  /** This process did not get the message about a newer version, and has kept its entry since. */
  ghost predicate Unheard(s: State, p: Proc, k: Key, n: nat) {
    exists v: nat {:trigger (p, k, v) in s.missed} :: (p, k, v) in s.missed && n < v
  }

  ghost predicate RedisExcuse(s: State, k: Key, c: Copy) {
    c.raced || BeforeDelete(s, k, c.ver) || Undeleted(s, k, c.ver)
  }

  ghost predicate LocalExcuse(s: State, p: Proc, k: Key, c: Copy) {
    || c.raced
    || BeforePublish(s, k, c.ver)
    || Undelivered(s, p, k, c.ver)
    || Unheard(s, p, k, c.ver)
    || Undeleted(s, k, c.ver)
  }

  // ---- the invariant, place by place ----

  ghost predicate RedisOk(s: State, k: Key) {
    k in s.redis ==> Genuine(s, k, s.redis[k]) && (Stale(s, k, s.redis[k]) ==> RedisExcuse(s, k, s.redis[k]))
  }

  ghost predicate LocalOk(s: State, p: Proc, k: Key) {
    (p, k) in s.local ==>
      && p in s.channels
      && match s.local[(p, k)]
         case Filling(t) => t in s.tokens
         case Filled(c) => Genuine(s, k, c) && (Stale(s, k, c) ==> LocalExcuse(s, p, k, c))
  }

  ghost predicate FillOk(s: State, t: Token) {
    t in s.fills ==>
      var f := s.fills[t];
      && t in s.tokens
      && f.proc in s.channels
      && (f.stage.Loaded? || f.stage.Ready? ==>
            var c := f.stage.copy;
            && Genuine(s, f.key, c)
            && (f.stage.Loaded? && Stale(s, f.key, c) ==> RedisExcuse(s, f.key, c))
            && ((f.proc, f.key) in s.local && s.local[(f.proc, f.key)] == Filling(t) && Stale(s, f.key, c)
                ==> LocalExcuse(s, f.proc, f.key, c)))
  }

  /** No version is announced, in flight, failed or lost that was not committed. */
  ghost predicate VersionsOk(s: State, k: Key) {
    && (forall w {:trigger s.writers[w]} :: w in s.writers && k in s.writers[w].vers
          ==> s.writers[w].vers[k] <= Latest(s, k))
    && (forall p, i {:trigger s.channels[p][i]} :: p in s.channels && 0 <= i < |s.channels[p]| && k in s.channels[p][i]
          ==> s.channels[p][i][k] <= Latest(s, k))
    && (forall v: nat {:trigger (k, v) in s.undeleted} :: (k, v) in s.undeleted ==> v <= Latest(s, k))
    && (forall p, v: nat {:trigger (p, k, v) in s.missed} :: (p, k, v) in s.missed ==> v <= Latest(s, k))
  }

  ghost predicate Inv(s: State) {
    && (forall k {:trigger RedisOk(s, k)} :: RedisOk(s, k))
    && (forall p, k {:trigger LocalOk(s, p, k)} :: LocalOk(s, p, k))
    && (forall t {:trigger FillOk(s, t)} :: FillOk(s, t))
    && (forall k {:trigger VersionsOk(s, k)} :: VersionsOk(s, k))
  }

  // ---- how the excuses move ----

  /** The history of a key never loses a version, and grows only in a commit of that key,
      whose writer then excuses every older copy. */
  lemma HistoryGrows(s: State, a: Action, k: Key)
    ensures var r := Step(s, a); History(s, k) <= History(r, k)
    ensures var r := Step(s, a); History(s, k) != History(r, k) ==>
      && Latest(r, k) == Latest(s, k) + 1
      && a.Commit? && a.w in r.writers && r.writers[a.w].progress == Committed
      && k in r.writers[a.w].vers && r.writers[a.w].vers[k] == Latest(r, k)
  {
  }

  lemma GenuineStays(s: State, a: Action, k: Key, c: Copy)
    requires Genuine(s, k, c)
    ensures Genuine(Step(s, a), k, c)
    ensures Stale(s, k, c) ==> Stale(Step(s, a), k, c)
  {
    HistoryGrows(s, a, k);
  }

  predicate Deletes(s: State, a: Action, k: Key, n: nat) {
    && a.RedisDelete? && a.ok
    && a.w in s.writers && s.writers[a.w].progress == Committed && Newer(s.writers[a.w].vers, k, n)
  }

  /** This process begins a new entry of this key. */
  predicate Begins(s: State, a: Action, p: Proc, k: Key) {
    && a.Ask? && a.p == p && a.k == k
    && a.t !in s.tokens && p in s.channels && !((p, k) in s.local && s.local[(p, k)].Filling?)
  }

  /** A failed delete stays so until a newer one succeeds. */
  lemma UndeletedMoves(s: State, a: Action, k: Key, n: nat)
    requires Undeleted(s, k, n)
    ensures Undeleted(Step(s, a), k, n) || Deletes(s, a, k, n)
  {
    var v: nat :| (k, v) in s.undeleted && n < v;
    if !Deletes(s, a, k, n) {
      assert (k, v) in Step(s, a).undeleted;
    }
  }

  /** A missed message counts until the process begins a new entry. */
  lemma MissedMoves(s: State, a: Action, p: Proc, k: Key, n: nat)
    requires Unheard(s, p, k, n)
    ensures Unheard(Step(s, a), p, k, n) || Begins(s, a, p, k)
  {
    var v: nat :| (p, k, v) in s.missed && n < v;
    if !Begins(s, a, p, k) {
      assert (p, k, v) in Step(s, a).missed;
    }
  }

  /** The steps of one writer after its commit. */
  predicate IsOwnStep(a: Action, w: nat) {
    (a.RedisDelete? || a.Publish? || a.DropOwn?) && a.w == w
  }

  lemma OtherWriterStays(s: State, a: Action, w: nat)
    requires w in s.writers && !IsOwnStep(a, w)
    ensures w in Step(s, a).writers && Step(s, a).writers[w] == s.writers[w]
  {
    if !IsWriterStep(a) {
      WritersStay(s, a);
    }
  }

  predicate IsWriterStep(a: Action) {
    a.Commit? || a.RedisDelete? || a.Publish? || a.DropOwn?
  }

  lemma WritersStay(s: State, a: Action)
    requires !IsWriterStep(a)
    ensures Step(s, a).writers == s.writers
  {
  }

  /** A writer's versions are fixed by its commit, and it leaves only when it is through. */
  lemma WriterMoves(s: State, a: Action, w: nat)
    requires w in s.writers
    ensures var r := Step(s, a);
      if w in r.writers then
        && r.writers[w].vers == s.writers[w].vers
        && r.writers[w].progress ==
             if a.RedisDelete? && a.w == w && s.writers[w].progress == Committed then Deleted
             else if a.Publish? && a.w == w && s.writers[w].progress == Deleted then Announced
             else s.writers[w].progress
      else s.writers[w].progress == Announced
  {
    if !IsOwnStep(a, w) {
      OtherWriterStays(s, a, w);
    } else if a.DropOwn? {
    } else if a.Publish? {
    } else {
      assert a.RedisDelete?;
    }
  }

  /** A pending Redis delete stays pending, is done now, or fails now. */
  lemma BeforeDeleteMoves(s: State, a: Action, k: Key, n: nat)
    requires BeforeDelete(s, k, n)
    ensures var r := Step(s, a);
      || BeforeDelete(r, k, n)
      || Undeleted(r, k, n)
      || Deletes(s, a, k, n)
  {
    var w :| w in s.writers && s.writers[w].progress == Committed && Newer(s.writers[w].vers, k, n);
    WriterMoves(s, a, w);
    if a.RedisDelete? && a.w == w && !a.ok {
      assert (k, s.writers[w].vers[k]) in Step(s, a).undeleted;
    }
  }

  /** An unpublished delete stays so, is missed by everybody now, or is now on its way to everybody. */
  lemma BeforePublishMoves(s: State, a: Action, p: Proc, k: Key, n: nat)
    requires BeforePublish(s, k, n) && p in s.channels
    ensures var r := Step(s, a); BeforePublish(r, k, n) || Unheard(r, p, k, n) || Undelivered(r, p, k, n)
  {
    var w :| w in s.writers && s.writers[w].progress != Announced && Newer(s.writers[w].vers, k, n);
    WriterMoves(s, a, w);
    if a.Publish? && a.w == w && s.writers[w].progress == Deleted {
      if a.ok {
        ChannelMoves(s, a, p);
        assert Step(s, a).channels[p][|s.channels[p]|] == s.writers[w].vers;
      } else {
        assert (p, k, s.writers[w].vers[k]) in Step(s, a).missed;
      }
    }
  }

  /** This step takes the first message out of the channel of p. */
  predicate Taken(s: State, a: Action, p: Proc) {
    (a.Deliver? || a.Lose?) && a.p == p && p in s.channels && s.channels[p] != []
  }

  /** A channel only loses its first message or gains what a writer publishes. */
  lemma ChannelMoves(s: State, a: Action, p: Proc)
    requires p in s.channels
    ensures p in Step(s, a).channels
    ensures Step(s, a).channels[p] ==
      if Taken(s, a, p) then s.channels[p][1..]
      else if a.Publish? && a.ok && a.w in s.writers && s.writers[a.w].progress == Deleted
      then s.channels[p] + [s.writers[a.w].vers]
      else s.channels[p]
  {
  }

  /** A delete on its way to a process stays so, is missed by it now, or is delivered now and drops the entry. */
  lemma UndeliveredMoves(s: State, a: Action, p: Proc, k: Key, n: nat)
    requires Undelivered(s, p, k, n)
    ensures var r := Step(s, a); Undelivered(r, p, k, n) || Unheard(r, p, k, n) || (a.Deliver? && (p, k) !in r.local)
  {
    var i :| 0 <= i < |s.channels[p]| && Newer(s.channels[p][i], k, n);
    ChannelMoves(s, a, p);
    if Taken(s, a, p) && i == 0 {
      TakenIsMissedOrApplied(s, a, p, k, n);
    } else {
      var j := if Taken(s, a, p) then i - 1 else i;
      assert Step(s, a).channels[p][j] == s.channels[p][i];
    }
  }

  lemma TakenIsMissedOrApplied(s: State, a: Action, p: Proc, k: Key, n: nat)
    requires Taken(s, a, p) && Newer(s.channels[p][0], k, n)
    ensures Unheard(Step(s, a), p, k, n) || (a.Deliver? && (p, k) !in Step(s, a).local)
  {
    if a.Lose? {
      assert (p, k, s.channels[p][0][k]) in Step(s, a).missed;
    }
  }

  /** The excuse of a local copy lasts as long as the copy can. */
  lemma LocalExcuseMoves(s: State, a: Action, p: Proc, k: Key, c: Copy)
    requires LocalExcuse(s, p, k, c) && p in s.channels
    ensures LocalExcuse(Step(s, a), p, k, c) || (a.Deliver? && (p, k) !in Step(s, a).local) || Begins(s, a, p, k)
  {
    if BeforePublish(s, k, c.ver) {
      BeforePublishMoves(s, a, p, k, c.ver);
    } else if Undelivered(s, p, k, c.ver) {
      UndeliveredMoves(s, a, p, k, c.ver);
    } else if Unheard(s, p, k, c.ver) {
      MissedMoves(s, a, p, k, c.ver);
    } else if Undeleted(s, k, c.ver) {
      UndeletedMoves(s, a, k, c.ver);
    }
  }

  lemma RedisExcuseMoves(s: State, a: Action, k: Key, c: Copy)
    requires RedisExcuse(s, k, c)
    ensures RedisExcuse(Step(s, a), k, c) || Deletes(s, a, k, c.ver)
  {
    if BeforeDelete(s, k, c.ver) {
      BeforeDeleteMoves(s, a, k, c.ver);
    } else if Undeleted(s, k, c.ver) {
      UndeletedMoves(s, a, k, c.ver);
    }
  }

  /** A copy that this very step made stale has the committing writer as its excuse. */
  lemma FreshlyStale(s: State, a: Action, p: Proc, k: Key, c: Copy)
    requires Genuine(s, k, c) && !Stale(s, k, c) && Stale(Step(s, a), k, c)
    ensures RedisExcuse(Step(s, a), k, c) && LocalExcuse(Step(s, a), p, k, c)
  {
    HistoryGrows(s, a, k);
    var r := Step(s, a);
    assert r.writers[a.w].progress == Committed && Newer(r.writers[a.w].vers, k, c.ver);
  }

  /** An excuse that covers Redis covers every process. */
  lemma RedisExcuseIsLocal(s: State, p: Proc, k: Key, c: Copy)
    requires RedisExcuse(s, k, c)
    ensures LocalExcuse(s, p, k, c)
  {
    if BeforeDelete(s, k, c.ver) {
      var w :| w in s.writers && s.writers[w].progress == Committed && Newer(s.writers[w].vers, k, c.ver);
      assert s.writers[w].progress != Announced;
    }
  }
}
