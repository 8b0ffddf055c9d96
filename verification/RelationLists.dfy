/** One process's list cache as the code runs it: local layer, Redis, then MySQL. Each method
    mirrors its effect on the concrete maps as an uninterrupted run of the shared protocol. */
module RelationLists {
  import opened Wrappers
  import opened RelationProtocol
  import opened RelationCoherence

  function FriendIDsKey(owner: string): Key { "suim:relation:friend-ids:" + owner }
  function BlackIDsKey(owner: string): Key { "suim:relation:black-ids:" + owner }
  function VersionKey(owner: string): Key { "suim:relation:friend-ver:" + owner }

  datatype Stats = Stats(localHit: nat, localMiss: nat, redisHit: nat, mysqlLoad: nat) {
    /** Every lookup that the local layer did not answer was answered by exactly one of the others. */
    predicate Adds() {
      localMiss == redisHit + mysqlLoad
    }
  }

  /** Lists of different kinds or owners have different keys, so that one map can hold them all. */
  lemma ListKeysApart(a: string, b: string)
    ensures FriendIDsKey(a) == FriendIDsKey(b) ==> a == b
    ensures BlackIDsKey(a) == BlackIDsKey(b) ==> a == b
    ensures VersionKey(a) == VersionKey(b) ==> a == b
    ensures FriendIDsKey(a) != BlackIDsKey(b) && FriendIDsKey(a) != VersionKey(b) && BlackIDsKey(a) != VersionKey(b)
  {
    assert FriendIDsKey(a)[25..] == a && FriendIDsKey(b)[25..] == b;
    assert BlackIDsKey(a)[24..] == a && BlackIDsKey(b)[24..] == b;
    assert VersionKey(a)[25..] == a && VersionKey(b)[25..] == b;
    assert FriendIDsKey(a)[14] == 'f' && BlackIDsKey(b)[14] == 'b' && BlackIDsKey(a)[14] == 'b';
    assert FriendIDsKey(a)[21] == 'i' && VersionKey(b)[21] == 'v' && VersionKey(b)[14] == 'f';
  }

  /** A concrete map holds the values of these copies and no other key. */
  ghost predicate SameRedis(redis: map<Key, Value>, s: State, k: Key) {
    (k in redis <==> k in s.redis) && (k in redis ==> redis[k] == s.redis[k].value)
  }

  ghost predicate SameLocal(local: map<Key, Value>, s: State, me: Proc, k: Key) {
    && (k in local <==> (me, k) in s.local && s.local[(me, k)].Filled?)
    && (k in local ==> local[k] == s.local[(me, k)].copy.value)
  }

  ghost predicate SameMaps(redis: map<Key, Value>, local: map<Key, Value>, s: State, me: Proc) {
    && (forall k {:trigger SameRedis(redis, s, k)} :: SameRedis(redis, s, k))
    && (forall k {:trigger SameLocal(local, s, me, k)} :: SameLocal(local, s, me, k))
  }

  lemma DropMirrors(redis: map<Key, Value>, local: map<Key, Value>, s: State, me: Proc, r: State, keys: set<Key>)
    requires SameMaps(redis, local, s, me) && r.redis == s.redis && r.local == Without(s.local, me, keys)
    ensures SameMaps(redis, local - keys, r, me)
  {
    forall k ensures SameRedis(redis, r, k) { assert SameRedis(redis, s, k); }
    forall k ensures SameLocal(local - keys, r, me, k) { assert SameLocal(local, s, me, k); }
  }

  lemma RedisMirrors(redis: map<Key, Value>, local: map<Key, Value>, s: State, me: Proc, r: State,
                     redis': map<Key, Value>)
    requires SameMaps(redis, local, s, me) && r.local == s.local
    requires forall k {:trigger SameRedis(redis', r, k)} :: SameRedis(redis', r, k)
    ensures SameMaps(redis', local, r, me)
  {
    forall k ensures SameLocal(local, r, me, k) { assert SameLocal(local, s, me, k); }
  }

  lemma LocalMirrors(redis: map<Key, Value>, local: map<Key, Value>, s: State, me: Proc, r: State,
                     local': map<Key, Value>)
    requires SameMaps(redis, local, s, me) && r.redis == s.redis
    requires forall k {:trigger SameLocal(local', r, me, k)} :: SameLocal(local', r, me, k)
    ensures SameMaps(redis, local', r, me)
  {
    forall k ensures SameRedis(redis, r, k) { assert SameRedis(redis, s, k); }
  }

  /** Changing one local slot to a placeholder, to nothing or to a finished copy. */
  lemma SlotMirrors(redis: map<Key, Value>, local: map<Key, Value>, s: State, me: Proc, r: State,
                    key: Key, done: Option<Copy>)
    requires SameMaps(redis, local, s, me) && r.redis == s.redis && key !in local
    requires r.local - {(me, key)} == s.local - {(me, key)}
    requires if done.Some? then (me, key) in r.local && r.local[(me, key)] == Filled(done.value)
             else (me, key) in r.local ==> r.local[(me, key)].Filling?
    ensures SameMaps(redis, if done.Some? then local[key := done.value.value] else local, r, me)
  {
    var local' := if done.Some? then local[key := done.value.value] else local;
    forall k ensures SameLocal(local', r, me, k) {
      assert SameLocal(local, s, me, k);
      if k != key {
        assert (me, k) in r.local <==> (me, k) in r.local - {(me, key)};
        assert (me, k) in s.local <==> (me, k) in s.local - {(me, key)};
      }
    }
    LocalMirrors(redis, local, s, me, r, local');
  }

  /** Storing one copy in Redis. */
  lemma StoreMirrors(redis: map<Key, Value>, local: map<Key, Value>, s: State, me: Proc, r: State, key: Key, c: Copy)
    requires SameMaps(redis, local, s, me) && r.local == s.local && r.redis == s.redis[key := c]
    ensures SameMaps(redis[key := c.value], local, r, me)
  {
    var redis' := redis[key := c.value];
    forall k ensures SameRedis(redis', r, k) { assert SameRedis(redis, s, k); }
    RedisMirrors(redis, local, s, me, r, redis');
  }

  /** Deleting keys from Redis. */
  lemma ForgetMirrors(redis: map<Key, Value>, local: map<Key, Value>, s: State, me: Proc, r: State, keys: set<Key>)
    requires SameMaps(redis, local, s, me) && r.local == s.local && r.redis == s.redis - keys
    ensures SameMaps(redis - keys, local, r, me)
  {
    forall k ensures SameRedis(redis - keys, r, k) { assert SameRedis(redis, s, k); }
    RedisMirrors(redis, local, s, me, r, redis - keys);
  }

  lemma SameLayersMirror(redis: map<Key, Value>, local: map<Key, Value>, s: State, me: Proc, r: State)
    requires SameMaps(redis, local, s, me) && r.local == s.local && r.redis == s.redis
    ensures SameMaps(redis, local, r, me)
  {
    forall k ensures SameRedis(redis, r, k) { assert SameRedis(redis, s, k); }
    RedisMirrors(redis, local, s, me, r, redis);
  }

  lemma RunLast(s: State, steps: seq<Action>, a: Action)
    ensures Run(s, steps + [a]) == Step(Run(s, steps), a)
    decreases |steps|
  {
    if steps == [] {
      assert steps + [a] == [a];
      assert Run(s, [a]) == Run(Step(s, a), [a][1..]);
    } else {
      assert (steps + [a])[1..] == steps[1..] + [a];
      RunLast(Step(s, steps[0]), steps[1..], a);
    }
  }

  class Lists {
    const me: Proc
    var redis: map<Key, Value>
    var local: map<Key, Value>
    var stats: Stats
    ghost const procs: set<Proc>
    ghost var s: State
    ghost var trace: seq<Action>

    constructor (me: Proc, procs: set<Proc>)
      requires me in procs
      ensures this.me == me && s == Start(procs) && Mirrors() && stats == Stats(0, 0, 0, 0)
    {
      this.me, redis, local, stats := me, map[], map[], Stats(0, 0, 0, 0);
      this.procs, s, trace := procs, Start(procs), [];
      new;
      forall k ensures SameRedis(redis, s, k) {}
      forall k ensures SameLocal(local, s, me, k) {}
    }

    /** The concrete maps are the layers of a reachable protocol state. */
    ghost predicate Mirrors()
      reads this
    {
      me in s.channels && SameMaps(redis, local, s, me) && s == Run(Start(procs), trace)
    }

    /** The protocol takes one step. */
    ghost method Take(a: Action)
      requires s == Run(Start(procs), trace) && me in s.channels
      modifies this`s, this`trace
      ensures s == Step(old(s), a) && trace == old(trace) + [a]
      ensures s == Run(Start(procs), trace) && me in s.channels
    {
      RunLast(Start(procs), trace, a);
      TokensAndProcsStay(s, a);
      s, trace := Step(s, a), trace + [a];
    }

    /** A step of another process or of a key's expiry, seen here through Redis only. */
    method Elsewhere(ghost a: Action, redis': map<Key, Value>)
      requires Mirrors()
      requires forall k {:trigger SameRedis(redis', Step(s, a), k)} :: SameRedis(redis', Step(s, a), k)
      requires forall k {:trigger SameLocal(local, Step(s, a), me, k)} :: SameLocal(local, Step(s, a), me, k)
      modifies this
      ensures Mirrors() && s == Step(old(s), a) && redis == redis' && local == old(local) && stats == old(stats)
    {
      Take(a);
      redis := redis';
    }

    /** FriendIDs and BlackIDs: a local hit touches nothing; a lookup that finds the fill of another
        one under way waits until that has brought its value or failed, and counts as a hit; any
        other asks Redis and then MySQL and fills both layers. An undisturbed read returns what
        ReadNow says this state serves. */
    method Get(key: Key, waited: Option<Option<Value>>, truth: Option<Value>, redisUp: bool, storeOk: bool,
               ghost t: Token)
      returns (r: Option<Value>)
      requires Mirrors() && t !in s.tokens
      requires waited.Some? <==> Underway(key)
      requires waited.Some? && waited.value.Some? ==> Brings(s.local[(me, key)].token, waited.value.value)
      requires truth.Some? ==> truth.value == Truth(s, key)
      modifies this
      ensures Mirrors()
      ensures waited.None? && redisUp && truth.Some? ==> r == Some(ReadNow(old(s), me, key).value)
      ensures r.Some? <==>
        if waited.Some? then waited.value.Some? else key in old(local) || (redisUp && key in old(redis)) || truth.Some?
      ensures waited.None? ==> r == if key in old(local) then Some(old(local)[key])
                                    else if redisUp && key in old(redis) then Some(old(redis)[key])
                                    else truth
      ensures waited.None? ==> local == if r.Some? then old(local)[key := r.value] else old(local)
      ensures waited.None? ==>
        redis == if key !in old(local) && !(redisUp && key in old(redis)) && truth.Some? && storeOk
                 then old(redis)[key := Truth(old(s), key)] else old(redis)
      ensures waited.Some? ==> r == waited.value && redis == old(redis)
      ensures waited.Some? ==> local == if r.Some? then old(local)[key := r.value] else old(local)
      ensures stats == if waited.Some? || key in old(local) then old(stats).(localHit := old(stats.localHit) + 1)
                       else if redisUp && key in old(redis)
                       then old(stats).(localMiss := old(stats.localMiss) + 1, redisHit := old(stats.redisHit) + 1)
                       else old(stats).(localMiss := old(stats.localMiss) + 1, mysqlLoad := old(stats.mysqlLoad) + 1)
      ensures old(stats.Adds()) ==> stats.Adds()
    {
      assert SameLocal(local, s, me, key) && SameRedis(redis, s, key);
      if waited.Some? {
        stats := stats.(localHit := stats.localHit + 1);
        PlaceholdersAreTended(procs, trace, me, key);
        Complete(key, waited.value, s.local[(me, key)].token);
        return waited.value;
      }
      if key in local {
        stats := stats.(localHit := stats.localHit + 1);
        return Some(local[key]);
      }
      ghost var was := s;
      Take(Ask(t, me, key));
      SlotMirrors(redis, local, was, me, s, key, None);
      r := CachedIDs(key, truth, redisUp, storeOk, t);
      stats := stats.(localMiss := stats.localMiss + 1);
    }

    /** The placeholder of some fill stands in for this key. */
    ghost predicate Underway(key: Key)
      reads this
    {
      (me, key) in s.local && s.local[(me, key)].Filling?
    }

    /** The fill with this token is about to end with this value. */
    ghost predicate Brings(t: Token, value: Value)
      reads this
    {
      t in s.fills && s.fills[t].stage.Ready? && s.fills[t].stage.copy.value == value
    }

    /** The end of the fill whose placeholder stands in for this key, with a value or an error. */
    method Complete(key: Key, value: Option<Value>, ghost t: Token)
      requires Mirrors() && key !in local && (value.Some? ==> Brings(t, value.value))
      requires t in s.fills && s.fills[t].proc == me && s.fills[t].key == key
      requires (me, key) in s.local && s.local[(me, key)] == Filling(t)
      modifies this`local, this`s, this`trace
      ensures Mirrors() && local == if value.Some? then old(local)[key := value.value] else old(local)
    {
      if value.Some? {
        Keep(key, value.value, t);
      } else {
        ghost var was := s;
        Take(GiveUp(t));
        SlotMirrors(redis, local, was, me, s, key, None);
      }
    }

    method CachedIDs(key: Key, truth: Option<Value>, redisUp: bool, storeOk: bool, ghost t: Token)
      returns (r: Option<Value>)
      requires Mirrors() && key !in local
      requires t in s.fills && s.fills[t] == Fill(me, key, Asked)
      requires (me, key) in s.local && s.local[(me, key)] == Filling(t)
      requires truth.Some? ==> truth.value == Truth(s, key)
      modifies this
      ensures Mirrors()
      ensures r == if redisUp && key in old(redis) then Some(old(redis)[key]) else truth
      ensures stats == if redisUp && key in old(redis) then old(stats).(redisHit := old(stats.redisHit) + 1)
                       else old(stats).(mysqlLoad := old(stats.mysqlLoad) + 1)
      ensures redis == if !(redisUp && key in old(redis)) && truth.Some? && storeOk
                       then old(redis)[key := truth.value] else old(redis)
      ensures local == if r.Some? then old(local)[key := r.value] else old(local)
    {
      assert SameRedis(redis, s, key);
      ghost var was := s;
      Take(ReadRedis(t, redisUp));
      SameLayersMirror(redis, local, was, me, s);
      if redisUp && key in redis {
        stats := stats.(redisHit := stats.redisHit + 1);
        r := Some(redis[key]);
        Keep(key, r.value, t);
      } else {
        stats := stats.(mysqlLoad := stats.mysqlLoad + 1);
        r := Fetch(key, truth, storeOk, t);
      }
    }

    /** The end of a fill: its value becomes the local entry. */
    method Keep(key: Key, ids: Value, ghost t: Token)
      requires Mirrors() && key !in local
      requires t in s.fills && s.fills[t].proc == me && s.fills[t].key == key
      requires s.fills[t].stage.Ready? && s.fills[t].stage.copy.value == ids
      requires (me, key) in s.local && s.local[(me, key)] == Filling(t)
      modifies this`local, this`s, this`trace
      ensures Mirrors() && local == old(local)[key := ids]
    {
      ghost var was := s;
      Take(Finish(t));
      SlotMirrors(redis, local, was, me, s, key, Some(was.fills[t].stage.copy));
      local := local[key := ids];
    }

    /** The miss path of CachedIDs: MySQL, then Redis, then the local entry. */
    method Fetch(key: Key, truth: Option<Value>, storeOk: bool, ghost t: Token) returns (r: Option<Value>)
      requires Mirrors() && key !in local
      requires t in s.fills && s.fills[t] == Fill(me, key, Missed)
      requires (me, key) in s.local && s.local[(me, key)] == Filling(t)
      requires truth.Some? ==> truth.value == Truth(s, key)
      modifies this`redis, this`local, this`s, this`trace
      ensures Mirrors() && r == truth
      ensures redis == if truth.Some? && storeOk then old(redis)[key := truth.value] else old(redis)
      ensures local == if r.Some? then old(local)[key := r.value] else old(local)
    {
      ghost var was := s;
      if truth.None? {
        Complete(key, None, t);
        return None;
      }
      Take(ReadMysql(t));
      SameLayersMirror(redis, local, was, me, s);
      was := s;
      Take(StoreRedis(t, storeOk));
      if storeOk {
        StoreMirrors(redis, local, was, me, s, key, was.fills[t].stage.copy);
        redis := redis[key := truth.value];
      } else {
        SameLayersMirror(redis, local, was, me, s);
      }
      Keep(key, truth.value, t);
      r := truth;
    }

    /** The drop after a commit: Redis delete first, then the publication, then this process. */
    method Drop(keys: seq<Key>, deleteOk: bool, publishOk: bool, ghost w: nat)
      requires Mirrors()
      requires keys != [] ==>
        && w in s.writers && s.writers[w].progress == Committed && s.writers[w].proc == me
        && s.writers[w].vers.Keys == set k | k in keys
      modifies this
      ensures Mirrors() && stats == old(stats)
      ensures trace == old(trace) +
        if keys == [] then [] else [RedisDelete(w, deleteOk), Publish(w, publishOk), DropOwn(w)]
      ensures local == old(local) - set k | k in keys
      ensures redis == if deleteOk then old(redis) - set k | k in keys else old(redis)
    {
      if |keys| == 0 {
        return;
      }
      DeleteKeys(keys, deleteOk, publishOk, w);
      DropLocal(keys, w);
    }

    /** A failed Redis delete is only logged: the publication still goes out after it. */
    method DeleteKeys(keys: seq<Key>, deleteOk: bool, publishOk: bool, ghost w: nat)
      requires Mirrors()
      requires w in s.writers && s.writers[w].progress == Committed && s.writers[w].proc == me
      requires s.writers[w].vers.Keys == set k | k in keys
      modifies this`redis, this`s, this`trace
      ensures Mirrors() && trace == old(trace) + [RedisDelete(w, deleteOk), Publish(w, publishOk)]
      ensures redis == if deleteOk then old(redis) - set k | k in keys else old(redis)
      ensures w in s.writers && s.writers[w] == old(s.writers[w]).(progress := Announced)
    {
      DeleteFromRedis(keys, deleteOk, w);
      Announce(publishOk, w);
    }

    method DeleteFromRedis(keys: seq<Key>, ok: bool, ghost w: nat)
      requires Mirrors()
      requires w in s.writers && s.writers[w].progress == Committed
      requires s.writers[w].vers.Keys == set k | k in keys
      modifies this`redis, this`s, this`trace
      ensures Mirrors() && trace == old(trace) + [RedisDelete(w, ok)]
      ensures redis == if ok then old(redis) - set k | k in keys else old(redis)
      ensures w in s.writers && s.writers[w] == old(s.writers[w]).(progress := Deleted)
    {
      ghost var was := s;
      Take(RedisDelete(w, ok));
      if ok {
        ForgetMirrors(redis, local, was, me, s, set k | k in keys);
        redis := redis - set k | k in keys;
      } else {
        SameLayersMirror(redis, local, was, me, s);
      }
    }

    method Announce(ok: bool, ghost w: nat)
      requires Mirrors() && w in s.writers && s.writers[w].progress == Deleted
      modifies this`s, this`trace
      ensures Mirrors() && trace == old(trace) + [Publish(w, ok)]
      ensures w in s.writers && s.writers[w] == old(s.writers[w]).(progress := Announced)
    {
      ghost var was := s;
      Take(Publish(w, ok));
      SameLayersMirror(redis, local, was, me, s);
    }

    method DropLocal(keys: seq<Key>, ghost w: nat)
      requires Mirrors()
      requires w in s.writers && s.writers[w].progress == Announced && s.writers[w].proc == me
      requires s.writers[w].vers.Keys == set k | k in keys
      modifies this`local, this`s, this`trace
      ensures Mirrors() && trace == old(trace) + [DropOwn(w)] && local == old(local) - set k | k in keys
    {
      ghost var was := s;
      Take(DropOwn(w));
      DropMirrors(redis, local, was, me, s, set k | k in keys);
      local := local - set k | k in keys;
    }

    /** DropFriends: the friend list and the version head of every owner that has a name. */
    method FriendKeys(owners: seq<string>) returns (keys: seq<Key>)
      ensures forall k :: k in keys <==> exists o <- owners :: o != "" && (k == FriendIDsKey(o) || k == VersionKey(o))
    {
      keys := [];
      for i := 0 to |owners|
        invariant forall k :: k in keys <==>
                    exists o <- owners[..i] :: o != "" && (k == FriendIDsKey(o) || k == VersionKey(o))
      {
        if owners[i] != "" {
          keys := keys + [FriendIDsKey(owners[i]), VersionKey(owners[i])];
        }
        assert owners[..i + 1] == owners[..i] + [owners[i]];
      }
      assert owners[..|owners|] == owners;
    }

    /** The local layer lets one entry go, for its age or for room; so it does with a placeholder. */
    method Evict(key: Key)
      requires Mirrors()
      modifies this
      ensures Mirrors() && trace == old(trace) + [Action.Evict(me, key)] && !Underway(key)
      ensures local == old(local) - {key} && redis == old(redis) && stats == old(stats)
    {
      ghost var was := s;
      Take(Action.Evict(me, key));
      assert s.local == Without(was.local, me, {key});
      DropMirrors(redis, local, was, me, s, {key});
      local := local - {key};
    }

    /** The time to live of one Redis entry is over. */
    method Expire(key: Key)
      requires Mirrors()
      modifies this
      ensures Mirrors() && trace == old(trace) + [RedisExpires(key)]
      ensures redis == old(redis) - {key} && local == old(local) && stats == old(stats)
    {
      ghost var was := s;
      Take(RedisExpires(key));
      ForgetMirrors(redis, local, was, me, s, {key});
      redis := redis - {key};
    }

    /** One message of the subscription, which carries the keys of a delete. */
    method OnMessage(keys: seq<Key>)
      requires Mirrors() && s.channels[me] != [] && s.channels[me][0].Keys == set k | k in keys
      modifies this
      ensures Mirrors() && s == Step(old(s), Deliver(me)) && redis == old(redis) && stats == old(stats)
      ensures local == old(local) - set k | k in keys
    {
      ghost var was := s;
      Take(Deliver(me));
      DropMirrors(redis, local, was, me, s, set k | k in keys);
      if |keys| > 0 {
        local := local - set k | k in keys;
      } else {
        assert local - (set k | k in keys) == local;
      }
    }
  }
}
