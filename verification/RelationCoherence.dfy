/** Coherence of the list cache over every interleaving. */
module RelationCoherence {
  import opened RelationProtocol

  lemma RedisCopyStays(s: State, a: Action, k: Key, c: Copy)
    requires Genuine(s, k, c) && (Stale(s, k, c) ==> RedisExcuse(s, k, c))
    ensures Genuine(Step(s, a), k, c)
    ensures Stale(Step(s, a), k, c) ==> RedisExcuse(Step(s, a), k, c) || Deletes(s, a, k, c.ver)
  {
    GenuineStays(s, a, k, c);
    if Stale(s, k, c) {
      RedisExcuseMoves(s, a, k, c);
    } else if Stale(Step(s, a), k, c) {
      FreshlyStale(s, a, 0, k, c);
    }
  }

  lemma LocalCopyStays(s: State, a: Action, p: Proc, k: Key, c: Copy)
    requires Genuine(s, k, c) && (Stale(s, k, c) ==> LocalExcuse(s, p, k, c)) && p in s.channels
    ensures Genuine(Step(s, a), k, c)
    ensures Stale(Step(s, a), k, c) ==> 
      LocalExcuse(Step(s, a), p, k, c) || (a.Deliver? && (p, k) !in Step(s, a).local) || Begins(s, a, p, k)
  {
    GenuineStays(s, a, k, c);
    if Stale(s, k, c) {
      LocalExcuseMoves(s, a, p, k, c);
    } else if Stale(Step(s, a), k, c) {
      FreshlyStale(s, a, p, k, c);
    }
  }

  lemma StepKeepsRedis(s: State, a: Action, k: Key)
    requires Inv(s)
    ensures RedisOk(Step(s, a), k)
  {
    assert RedisOk(s, k);
    var r := Step(s, a);
    if k in r.redis {
      if a.StoreRedis? && a.t in s.fills && s.fills[a.t].stage.Loaded? && a.ok && s.fills[a.t].key == k {
        assert FillOk(s, a.t);
        RedisCopyStays(s, a, k, s.fills[a.t].stage.copy);
      } else {
        RedisCopyStays(s, a, k, s.redis[k]);
      }
    }
  }

  lemma TokensAndProcsStay(s: State, a: Action)
    ensures s.tokens <= Step(s, a).tokens && s.channels.Keys == Step(s, a).channels.Keys
  {
  }

  lemma StepKeepsLocal(s: State, a: Action, p: Proc, k: Key)
    requires Inv(s)
    ensures LocalOk(Step(s, a), p, k)
  {
    assert LocalOk(s, p, k);
    TokensAndProcsStay(s, a);
    var r := Step(s, a);
    if (p, k) in r.local {
      SlotMoves(s, a, p, k);
      if r.local[(p, k)].Filling? {
      } else if (p, k) in s.local && s.local[(p, k)] == r.local[(p, k)] {
        LocalCopyStays(s, a, p, k, s.local[(p, k)].copy);
      } else {
        assert FillOk(s, a.t);
        LocalCopyStays(s, a, p, k, s.fills[a.t].stage.copy);
      }
    }
  }

  /** An entry is the one of before, a new placeholder, or what the fill of its placeholder brought. */
  lemma SlotMoves(s: State, a: Action, p: Proc, k: Key)
    requires (p, k) in Step(s, a).local
    ensures var slot := Step(s, a).local[(p, k)];
      || ((p, k) in s.local && slot == s.local[(p, k)])
      || (a.Ask? && Begins(s, a, p, k) && slot == Filling(a.t) && a.t in Step(s, a).tokens)
      || (a.Finish? && a.t in s.fills && s.fills[a.t].proc == p && s.fills[a.t].key == k && s.fills[a.t].stage.Ready?
          && (p, k) in s.local && s.local[(p, k)] == Filling(a.t) && slot == Filled(s.fills[a.t].stage.copy))
    ensures Begins(s, a, p, k) ==> Step(s, a).local[(p, k)].Filling?
  {
  }

  /** The entry of this fill's process and key is still its placeholder: nobody dropped it. */
  predicate Awaited(s: State, t: Token, f: Fill) {
    (f.proc, f.key) in s.local && s.local[(f.proc, f.key)] == Filling(t)
  }

  /** What FillOk says of a fill that holds a copy. */
  ghost predicate Holds(s: State, t: Token, f: Fill, c: Copy, loaded: bool) {
    && Genuine(s, f.key, c)
    && (loaded && Stale(s, f.key, c) ==> RedisExcuse(s, f.key, c))
    && (Awaited(s, t, f) && Stale(s, f.key, c) ==> LocalExcuse(s, f.proc, f.key, c))
  }

  /** No step makes a dropped placeholder reappear. */
  lemma AwaitedBefore(s: State, a: Action, t: Token, f: Fill)
    requires t in s.tokens && Awaited(Step(s, a), t, f)
    ensures Awaited(s, t, f)
  {
  }

  lemma HeldCopyStays(s: State, a: Action, t: Token, f: Fill, c: Copy, loaded: bool)
    requires t in s.tokens && f.proc in s.channels && Holds(s, t, f, c, loaded)
    requires loaded ==> !Deletes(s, a, f.key, c.ver)
    ensures Holds(Step(s, a), t, f, c, loaded)
  {
    var r := Step(s, a);
    GenuineStays(s, a, f.key, c);
    if loaded {
      RedisCopyStays(s, a, f.key, c);
    }
    if Awaited(r, t, f) {
      AwaitedBefore(s, a, t, f);
      LocalCopyStays(s, a, f.proc, f.key, c);
    }
  }

  /** A fill that a newer delete catches is marked, and the mark is its excuse. */
  lemma CaughtCopy(s: State, a: Action, t: Token, f: Fill, c: Copy)
    requires Genuine(s, f.key, c) && VersionsOk(s, f.key) && Deletes(s, a, f.key, c.ver)
    ensures Holds(Step(s, a), t, f, c.(raced := true), true)
  {
    GenuineStays(s, a, f.key, c);
    assert s.writers[a.w].vers[f.key] <= Latest(s, f.key);
    HistoryGrows(s, a, f.key);
  }

  lemma ReadCopy(s: State, a: Action, t: Token)
    requires Inv(s) && a == ReadRedis(t, true) && t in s.fills && s.fills[t].stage == Asked && s.fills[t].key in s.redis
    ensures Holds(Step(s, a), t, s.fills[t], s.redis[s.fills[t].key], false)
  {
    var f := s.fills[t];
    assert FillOk(s, t) && RedisOk(s, f.key);
    var c := s.redis[f.key];
    if Stale(s, f.key, c) {
      RedisExcuseIsLocal(s, f.proc, f.key, c);
    }
    HeldCopyStays(s, a, t, f, c, false);
  }

  predicate IsFillStep(a: Action, t: Token) {
    (a.Ask? || a.ReadRedis? || a.ReadMysql? || a.StoreRedis? || a.Finish? || a.GiveUp?) && a.t == t
  }

  lemma OtherFillStays(s: State, a: Action, t: Token)
    requires t in s.fills && !IsFillStep(a, t) && !a.RedisDelete?
    ensures t in Step(s, a).fills && Step(s, a).fills[t] == s.fills[t]
  {
  }

  lemma ReadsMove(s: State, a: Action, t: Token)
    requires t in s.fills && t in Step(s, a).fills && (a.ReadRedis? || a.ReadMysql?) && a.t == t
    ensures var f, g := s.fills[t], Step(s, a).fills[t];
      && g.proc == f.proc && g.key == f.key
      && match f.stage
         case Asked => g.stage == Asked || g.stage == Missed
           || (a == ReadRedis(t, true) && f.key in s.redis && g.stage == Ready(s.redis[f.key]))
         case Missed => g.stage == Missed
           || (a == ReadMysql(t) && g.stage == Loaded(Copy(Truth(s, f.key), Latest(s, f.key), false)))
         case _ => g.stage == f.stage
  {
  }

  lemma StoreMoves(s: State, a: Action, t: Token)
    requires t in s.fills && a.StoreRedis? && a.t == t
    ensures t in Step(s, a).fills
    ensures var f, g := s.fills[t], Step(s, a).fills[t];
      g == if f.stage.Loaded? then f.(stage := Ready(f.stage.copy)) else f
  {
  }

  lemma EndsKeepOrRemove(s: State, a: Action, t: Token)
    requires t in s.fills && t in Step(s, a).fills && IsFillStep(a, t) && (a.Ask? ==> t in s.tokens)
    requires !a.ReadRedis? && !a.ReadMysql? && !a.StoreRedis?
    ensures Step(s, a).fills[t] == s.fills[t]
  {
  }

  /** What one step can do to a fill that is under way. */
  lemma FillMoves(s: State, a: Action, t: Token)
    requires t in s.fills && t in Step(s, a).fills && (a.Ask? && a.t == t ==> t in s.tokens)
    ensures var f, g := s.fills[t], Step(s, a).fills[t];
      && g.proc == f.proc && g.key == f.key
      && match f.stage
         case Asked => g.stage == Asked || g.stage == Missed
           || (a == ReadRedis(t, true) && f.key in s.redis && g.stage == Ready(s.redis[f.key]))
         case Missed => g.stage == Missed
           || (a == ReadMysql(t) && g.stage == Loaded(Copy(Truth(s, f.key), Latest(s, f.key), false)))
         case Loaded(c) =>
           if Deletes(s, a, f.key, c.ver) then g.stage == Loaded(c.(raced := true))
           else g.stage == Loaded(c) || g.stage == Ready(c)
         case Ready(c) => g.stage == Ready(c)
  {
    if a.RedisDelete? {
    } else if IsFillStep(a, t) {
      if a.ReadRedis? || a.ReadMysql? {
        ReadsMove(s, a, t);
      } else if a.StoreRedis? {
        StoreMoves(s, a, t);
      } else {
        EndsKeepOrRemove(s, a, t);
      }
    } else {
      OtherFillStays(s, a, t);
    }
  }

  /** FillOk of a later state, from what is known of its copy. */
  lemma HeldFillIsOk(r: State, t: Token, f: Fill, loaded: bool)
    requires t in r.fills && r.fills[t].proc == f.proc && r.fills[t].key == f.key
    requires t in r.tokens && f.proc in r.channels
    requires r.fills[t].stage.Ready? || (loaded && r.fills[t].stage.Loaded?)
    requires Holds(r, t, f, r.fills[t].stage.copy, loaded)
    ensures FillOk(r, t)
  {
  }

  lemma HeldFillStays(s: State, a: Action, t: Token)
    requires Inv(s) && t in s.fills && (s.fills[t].stage.Loaded? || s.fills[t].stage.Ready?) && t in Step(s, a).fills
    ensures FillOk(Step(s, a), t)
  {
    var f := s.fills[t];
    var c, loaded := f.stage.copy, f.stage.Loaded?;
    assert FillOk(s, t);
    FillMoves(s, a, t);
    TokensAndProcsStay(s, a);
    if loaded && Deletes(s, a, f.key, c.ver) {
      assert VersionsOk(s, f.key);
      CaughtCopy(s, a, t, f, c);
    } else {
      HeldCopyStays(s, a, t, f, c, loaded);
    }
    HeldFillIsOk(Step(s, a), t, f, loaded);
  }

  lemma EmptyFillStays(s: State, a: Action, t: Token)
    requires Inv(s) && t in s.fills && t in Step(s, a).fills
    requires s.fills[t].stage == Asked || s.fills[t].stage == Missed
    ensures FillOk(Step(s, a), t)
  {
    var f, g := s.fills[t], Step(s, a).fills[t];
    assert FillOk(s, t);
    FillMoves(s, a, t);
    TokensAndProcsStay(s, a);
    if g.stage.Ready? {
      ReadCopy(s, a, t);
      HeldFillIsOk(Step(s, a), t, f, false);
    } else if g.stage.Loaded? {
      HeldCopyStays(s, a, t, f, Copy(Truth(s, f.key), Latest(s, f.key), false), true);
      HeldFillIsOk(Step(s, a), t, f, true);
    }
  }

  lemma FillBegins(s: State, a: Action, t: Token)
    requires t in Step(s, a).fills && t !in s.fills
    ensures Step(s, a).fills[t].stage == Asked && t in Step(s, a).tokens
    ensures Step(s, a).fills[t].proc in Step(s, a).channels
  {
  }

  lemma StepKeepsFill(s: State, a: Action, t: Token)
    requires Inv(s)
    ensures FillOk(Step(s, a), t)
  {
    if t !in Step(s, a).fills {
    } else if t !in s.fills {
      FillBegins(s, a, t);
    } else {
      if s.fills[t].stage.Loaded? || s.fills[t].stage.Ready? {
        HeldFillStays(s, a, t);
      } else {
        EmptyFillStays(s, a, t);
      }
    }
  }

  lemma WriterBegins(s: State, a: Action, w: nat)
    requires w !in s.writers && w in Step(s, a).writers
    ensures a.Commit? && a.w == w && Step(s, a).writers[w].vers == map k | k in a.puts :: |History(s, k)|
  {
    if !a.Commit? {
      OnlyCommitsAddWriters(s, a, w);
    }
  }

  lemma OnlyCommitsAddWriters(s: State, a: Action, w: nat)
    requires !a.Commit? && w !in s.writers
    ensures w !in Step(s, a).writers
  {
    if !IsWriterStep(a) {
      WritersStay(s, a);
    }
  }

  lemma WriterVersionsStay(s: State, a: Action, k: Key, w: nat)
    requires VersionsOk(s, k) && w in Step(s, a).writers && k in Step(s, a).writers[w].vers
    ensures Step(s, a).writers[w].vers[k] <= Latest(Step(s, a), k)
  {
    if w in s.writers {
      LatestGrows(s, a, k);
      WriterMoves(s, a, w);
    } else {
      WriterBegins(s, a, w);
      CommitWrites(s, a, k);
    }
  }

  lemma CommitWrites(s: State, a: Action, k: Key)
    requires a.Commit? && a.w !in s.writers && a.p in s.channels && k in a.puts
    ensures Latest(Step(s, a), k) == |History(s, k)|
  {
  }

  /** A message of a channel was there before, or is what a writer publishes in this step. */
  lemma MessageMoves(s: State, a: Action, p: Proc, i: nat) returns (j: nat)
    requires p in Step(s, a).channels && i < |Step(s, a).channels[p]|
    ensures p in s.channels
    ensures if j < |s.channels[p]| then Step(s, a).channels[p][i] == s.channels[p][j]
            else a.Publish? && a.w in s.writers && Step(s, a).channels[p][i] == s.writers[a.w].vers
  {
    TokensAndProcsStay(s, a);
    ChannelMoves(s, a, p);
    j := if Taken(s, a, p) then i + 1 else i;
  }

  lemma LatestGrows(s: State, a: Action, k: Key)
    ensures Latest(s, k) <= Latest(Step(s, a), k)
  {
    HistoryGrows(s, a, k);
  }

  lemma MessageVersionsStay(s: State, a: Action, k: Key, p: Proc, i: nat)
    requires VersionsOk(s, k) && p in Step(s, a).channels
    requires i < |Step(s, a).channels[p]| && k in Step(s, a).channels[p][i]
    ensures Step(s, a).channels[p][i][k] <= Latest(Step(s, a), k)
  {
    LatestGrows(s, a, k);
    var j := MessageMoves(s, a, p, i);
    if j < |s.channels[p]| {
      assert k in s.channels[p][j];
    } else {
      assert k in s.writers[a.w].vers;
    }
  }

  lemma FailedVersionsStay(s: State, a: Action, k: Key, v: nat)
    requires VersionsOk(s, k) && (k, v) in Step(s, a).undeleted
    ensures v <= Latest(Step(s, a), k)
  {
    LatestGrows(s, a, k);
    if (k, v) !in s.undeleted {
      assert s.writers[a.w].vers[k] == v;
    }
  }

  lemma MissedVersionsStay(s: State, a: Action, p: Proc, k: Key, v: nat)
    requires VersionsOk(s, k) && (p, k, v) in Step(s, a).missed
    ensures v <= Latest(Step(s, a), k)
  {
    LatestGrows(s, a, k);
    if (p, k, v) !in s.missed {
      if a.Lose? {
        assert s.channels[a.p][0][k] == v;
      } else {
        assert s.writers[a.w].vers[k] == v;
      }
    }
  }

  lemma StepKeepsVersions(s: State, a: Action, k: Key)
    requires Inv(s)
    ensures VersionsOk(Step(s, a), k)
  {
    assert VersionsOk(s, k);
    var r := Step(s, a);
    forall w | w in r.writers && k in r.writers[w].vers ensures r.writers[w].vers[k] <= Latest(r, k) {
      WriterVersionsStay(s, a, k, w);
    }
    forall p, i | p in r.channels && 0 <= i < |r.channels[p]| && k in r.channels[p][i]
      ensures r.channels[p][i][k] <= Latest(r, k)
    {
      MessageVersionsStay(s, a, k, p, i);
    }
    forall v: nat | (k, v) in r.undeleted ensures v <= Latest(r, k) {
      FailedVersionsStay(s, a, k, v);
    }
    forall p, v: nat | (p, k, v) in r.missed ensures v <= Latest(r, k) {
      MissedVersionsStay(s, a, p, k, v);
    }
  }

  lemma StepKeepsInv(s: State, a: Action)
    requires Inv(s)
    ensures Inv(Step(s, a))
  {
    var r := Step(s, a);
    forall k ensures RedisOk(r, k) { StepKeepsRedis(s, a, k); }
    forall p, k ensures LocalOk(r, p, k) { StepKeepsLocal(s, a, p, k); }
    forall t ensures FillOk(r, t) { StepKeepsFill(s, a, t); }
    forall k ensures VersionsOk(r, k) { StepKeepsVersions(s, a, k); }
  }

  lemma StartIsOk(procs: set<Proc>)
    ensures Inv(Start(procs))
  {
    var s := Start(procs);
    forall k ensures RedisOk(s, k) {}
    forall p, k ensures LocalOk(s, p, k) {}
    forall t ensures FillOk(s, t) {}
    forall k ensures VersionsOk(s, k) {}
  }

  lemma {:induction false} RunKeepsInv(s: State, actions: seq<Action>)
    requires Inv(s)
    ensures Inv(Run(s, actions))
    decreases |actions|
  {
    if actions != [] {
      StepKeepsInv(s, actions[0]);
      RunKeepsInv(Step(s, actions[0]), actions[1..]);
    }
  }

  /** A placeholder belongs to a fill that is under way for its process and key. */
  ghost predicate Tended(s: State, p: Proc, k: Key) {
    (p, k) in s.local && s.local[(p, k)].Filling? ==>
      var t := s.local[(p, k)].token;
      t in s.fills && s.fills[t].proc == p && s.fills[t].key == k
  }

  lemma StepKeepsTended(s: State, a: Action, p: Proc, k: Key)
    requires Inv(s) && Tended(s, p, k)
    ensures Tended(Step(s, a), p, k)
  {
    var r := Step(s, a);
    if (p, k) in r.local && r.local[(p, k)].Filling? {
      SlotMoves(s, a, p, k);
      if (p, k) in s.local && r.local[(p, k)] == s.local[(p, k)] {
        var t := s.local[(p, k)].token;
        assert FillOk(s, t);
        FillStays(s, a, t);
      }
    }
  }

  /** A fill ends only by its own step, which also takes its placeholder away. */
  lemma FillStays(s: State, a: Action, t: Token)
    requires t in s.fills && t in s.tokens && Awaited(s, t, s.fills[t])
    ensures Awaited(Step(s, a), t, s.fills[t]) ==>
      t in Step(s, a).fills && Step(s, a).fills[t].proc == s.fills[t].proc && Step(s, a).fills[t].key == s.fills[t].key
  {
    if !IsFillStep(a, t) && !a.RedisDelete? {
      OtherFillStays(s, a, t);
    }
  }

  lemma {:induction false} RunKeepsTended(s: State, actions: seq<Action>, p: Proc, k: Key)
    requires Inv(s) && Tended(s, p, k)
    ensures Tended(Run(s, actions), p, k)
    decreases |actions|
  {
    if actions != [] {
      StepKeepsInv(s, actions[0]);
      StepKeepsTended(s, actions[0], p, k);
      RunKeepsTended(Step(s, actions[0]), actions[1..], p, k);
    }
  }

  // ---- the theorems ----

  /** No process is left with a placeholder that nobody will ever replace or remove. */
  lemma {:induction false} PlaceholdersAreTended(procs: set<Proc>, actions: seq<Action>, p: Proc, k: Key)
    ensures Tended(Run(Start(procs), actions), p, k)
  {
    StartIsOk(procs);
    RunKeepsTended(Start(procs), actions, p, k);
  }

  lemma ExcusesMeanStale(s: State, p: Proc, k: Key, c: Copy)
    requires VersionsOk(s, k) && Genuine(s, k, c) && LocalExcuse(s, p, k, c)
    ensures Stale(s, k, c)
  {
    if BeforePublish(s, k, c.ver) {
      var w :| w in s.writers && s.writers[w].progress != Announced && Newer(s.writers[w].vers, k, c.ver);
    } else if Undelivered(s, p, k, c.ver) {
      var i :| 0 <= i < |s.channels[p]| && Newer(s.channels[p][i], k, c.ver);
    } else if Unheard(s, p, k, c.ver) {
      var v: nat :| (p, k, v) in s.missed && c.ver < v;
    } else if Undeleted(s, k, c.ver) {
      var v: nat :| (k, v) in s.undeleted && c.ver < v;
    }
  }

  /** In every reachable state a local entry differs in version from MySQL exactly when a writer
      of a newer version has not published yet, its message is still on its way to this process
      or was missed by this process since it began the entry, a Redis delete of it failed and no
      later one made up for that, or the entry descends from a fill that a newer Redis delete
      overtook between its MySQL read and its Redis store. Otherwise it holds MySQL's value. */
  lemma {:induction false} LocalEntryCoherence(procs: set<Proc>, actions: seq<Action>, p: Proc, k: Key)
    requires var s := Run(Start(procs), actions); (p, k) in s.local && s.local[(p, k)].Filled?
    ensures var s := Run(Start(procs), actions); var c := s.local[(p, k)].copy;
      && (c.ver != Latest(s, k) <==> LocalExcuse(s, p, k, c))
      && (!LocalExcuse(s, p, k, c) ==> c.value == Truth(s, k))
  {
    StartIsOk(procs);
    RunKeepsInv(Start(procs), actions);
    var s := Run(Start(procs), actions);
    var c := s.local[(p, k)].copy;
    assert LocalOk(s, p, k) && VersionsOk(s, k);
    if LocalExcuse(s, p, k, c) {
      ExcusesMeanStale(s, p, k, c);
    }
  }

  /** The same for the shared layer, where publications and messages play no part: only a Redis
      delete still to come, or one that failed, or such a fill can be the cause. */
  lemma {:induction false} RedisEntryCoherence(procs: set<Proc>, actions: seq<Action>, k: Key)
    requires k in Run(Start(procs), actions).redis
    ensures var s := Run(Start(procs), actions); var c := s.redis[k];
      && (c.ver != Latest(s, k) <==> RedisExcuse(s, k, c))
      && (!RedisExcuse(s, k, c) ==> c.value == Truth(s, k))
  {
    StartIsOk(procs);
    RunKeepsInv(Start(procs), actions);
    var s := Run(Start(procs), actions);
    var c := s.redis[k];
    assert RedisOk(s, k) && VersionsOk(s, k);
    if RedisExcuse(s, k, c) {
      RedisExcuseIsLocal(s, 0, k, c);
      ExcusesMeanStale(s, 0, k, c);
    }
  }

  /** Nobody is writing this key, no Redis delete of it is left undone, and what this process has
      cached of it waits for no message and has missed none. */
  ghost predicate Quiet(s: State, p: Proc, k: Key) {
    && (forall w {:trigger s.writers[w]} :: w in s.writers ==> k !in s.writers[w].vers)
    && (forall v: nat {:trigger (k, v) in s.undeleted} :: (k, v) !in s.undeleted)
    && ((p, k) in s.local && p in s.channels ==>
          && (forall i {:trigger s.channels[p][i]} :: 0 <= i < |s.channels[p]| ==> k !in s.channels[p][i])
          && (forall v: nat {:trigger (p, k, v) in s.missed} :: (p, k, v) !in s.missed))
  }

  /** What an undisturbed read of this process returns: local, then Redis, then MySQL. */
  function ReadNow(s: State, p: Proc, k: Key): Copy {
    if (p, k) in s.local && s.local[(p, k)].Filled? then s.local[(p, k)].copy
    else if k in s.redis then s.redis[k]
    else Copy(Truth(s, k), Latest(s, k), false)
  }

  /** For a quiet key, a read of this process is stale exactly when it serves a raced copy,
      whatever is going on around other keys and in other processes. */
  lemma {:induction false} QuietReadsAreTrueUnlessRaced(procs: set<Proc>, actions: seq<Action>, p: Proc, k: Key)
    requires Quiet(Run(Start(procs), actions), p, k)
    ensures var s := Run(Start(procs), actions); var c := ReadNow(s, p, k);
      && (c.ver == Latest(s, k) <==> !c.raced)
      && (!c.raced ==> c.value == Truth(s, k))
  {
    StartIsOk(procs);
    RunKeepsInv(Start(procs), actions);
    var s := Run(Start(procs), actions);
    if (p, k) in s.local && s.local[(p, k)].Filled? {
      assert LocalOk(s, p, k);
    } else if k in s.redis {
      assert RedisOk(s, k);
    }
  }

  ghost predicate Catches(s: State, a: Action, t: Token)
    requires t in s.fills
  {
    s.fills[t].stage.Loaded? && Deletes(s, a, s.fills[t].key, s.fills[t].stage.copy.ver)
  }

  /** This step is a Redis delete that overtakes some fill of the key between its MySQL read and
      its store. */
  ghost predicate Overtakes(s: State, a: Action, k: Key) {
    exists t {:trigger s.fills[t]} :: t in s.fills && s.fills[t].key == k && Catches(s, a, t)
  }

  predicate CleanSlot(s: State, p: Proc, k: Key) {
    (p, k) in s.local && s.local[(p, k)].Filled? ==> !s.local[(p, k)].copy.raced
  }

  predicate CleanRedis(s: State, k: Key) {
    k in s.redis ==> !s.redis[k].raced
  }

  predicate CleanFill(s: State, t: Token, k: Key) {
    t in s.fills && s.fills[t].key == k ==>
      (s.fills[t].stage.Loaded? || s.fills[t].stage.Ready? ==> !s.fills[t].stage.copy.raced)
  }

  /** No copy of this key, wherever it is, has been overtaken. */
  ghost predicate Unraced(s: State, k: Key) {
    && CleanRedis(s, k)
    && (forall p {:trigger CleanSlot(s, p, k)} :: CleanSlot(s, p, k))
    && (forall t {:trigger CleanFill(s, t, k)} :: CleanFill(s, t, k))
  }

  lemma RedisStaysClean(s: State, a: Action, k: Key)
    requires Unraced(s, k)
    ensures CleanRedis(Step(s, a), k)
  {
    if a.StoreRedis? {
      assert CleanFill(s, a.t, k);
    }
  }

  lemma SlotStaysClean(s: State, a: Action, p: Proc, k: Key)
    requires Unraced(s, k)
    ensures CleanSlot(Step(s, a), p, k)
  {
    assert CleanSlot(s, p, k);
    if a.Finish? {
      assert CleanFill(s, a.t, k);
    }
  }

  lemma FillStaysClean(s: State, a: Action, t: Token, k: Key)
    requires Unraced(s, k) && !Overtakes(s, a, k)
    ensures CleanFill(Step(s, a), t, k)
  {
    assert CleanFill(s, t, k);
    if t in s.fills && t in Step(s, a).fills && (a.Ask? && a.t == t ==> t in s.tokens) {
      FillMoves(s, a, t);
      if s.fills[t].key == k {
        assert !Catches(s, a, t);
      }
    } else if t !in s.fills && t in Step(s, a).fills {
      FillBegins(s, a, t);
    }
  }

  lemma StepStaysUnraced(s: State, a: Action, k: Key)
    requires Unraced(s, k) && !Overtakes(s, a, k)
    ensures Unraced(Step(s, a), k)
  {
    var r := Step(s, a);
    RedisStaysClean(s, a, k);
    forall p ensures CleanSlot(r, p, k) {
      SlotStaysClean(s, a, p, k);
    }
    forall t ensures CleanFill(r, t, k) {
      FillStaysClean(s, a, t, k);
    }
  }

  ghost predicate NoOvertaking(s: State, actions: seq<Action>, k: Key)
    decreases |actions|
  {
    actions == [] || (!Overtakes(s, actions[0], k) && NoOvertaking(Step(s, actions[0]), actions[1..], k))
  }

  lemma {:induction false} RunStaysUnraced(s: State, actions: seq<Action>, k: Key)
    requires Unraced(s, k) && NoOvertaking(s, actions, k)
    ensures Unraced(Run(s, actions), k)
    decreases |actions|
  {
    if actions != [] {
      StepStaysUnraced(s, actions[0], k);
      RunStaysUnraced(Step(s, actions[0]), actions[1..], k);
    }
  }

  /** Without that one overlap on the key, any process reads what MySQL holds as soon as the key is
      quiet for it. */
  lemma {:induction false} QuietReadsWithoutOvertaking(procs: set<Proc>, actions: seq<Action>, p: Proc, k: Key)
    requires Quiet(Run(Start(procs), actions), p, k) && NoOvertaking(Start(procs), actions, k)
    ensures var s := Run(Start(procs), actions); ReadNow(s, p, k).value == Truth(s, k)
  {
    QuietReadsAreTrueUnlessRaced(procs, actions, p, k);
    RunStaysUnraced(Start(procs), actions, k);
    var s := Run(Start(procs), actions);
    assert CleanRedis(s, k) && CleanSlot(s, p, k);
  }
}
