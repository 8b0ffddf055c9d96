/** The presence service over the shared store: one update packs its vector, runs the
    script, reads the reply and publishes a real change. */
module PresenceStatus {
  import opened Wrappers
  import opened Redis
  import opened ScoreIndex
  import opened PresencePayload
  import opened Presence
  import D = Decimal

  predicate FitsClock(issued: nat) {
    issued / 1000 + EXPIRE <= D.MAX_INT64
  }

  ghost predicate IsPlatform(m: string) {
    exists id: D.int32 :: m == D.Format(id)
  }

  /** A presence key lives at least until the second its last platform expires, less the time by
      which a client clock may be ahead of the store's, and at most one full time to live from
      now; its members are printed platform ids. */
  ghost predicate Sound(now: nat, items: Store, key: string, skew: nat) {
    key in items ==>
      && items[key].value.ZSet? && items[key].value.scores != map[]
      && items[key].deadline.Some? && items[key].deadline.value <= DeadlineIn(now, EXPIRE)
      && forall m <- items[key].value.scores ::
           items[key].value.scores[m] * 1000 <= items[key].deadline.value + skew && IsPlatform(m)
  }

  /** No platform is lost to the expiry of its key before its own score, less that skew. */
  lemma KeyOutlivesMembers(now: nat, items: Store, key: string, m: string, later: nat, skew: nat)
    requires Sound(now, items, key, skew) && m in ScoresOf(items, key)
    requires later + skew < ScoresOf(items, key)[m] * 1000
    ensures items[key].LiveAt(later)
  {
  }

  /** A reader and an update at the same second disagree on a member exactly when that
      second is its score: the reader still shows it, the update already drops it. */
  lemma BoundarySecond(z: Scores, now: int, m: string)
    requires m in z
    ensures (m in AtLeast(z, now) && m !in Kept(z, now, {})) <==> z[m] == now
    ensures m in Kept(z, now, {}) ==> m in AtLeast(z, now)
  {
  }

  /** A reader in the second of an update sees exactly what it stored, and so what it published. */
  lemma UpdateIsReadWhole(z: Scores, t: int, offline: set<string>, online: set<string>)
    ensures var r := Updated(z, t, t + EXPIRE, offline, online); AtLeast(r, t) == r.Keys
  {
    var r := Updated(z, t, t + EXPIRE, offline, online);
    forall m | m in r ensures m in AtLeast(r, t) {
      UpdatedMembers(z, t, t + EXPIRE, offline, online, m);
    }
  }

  function Vector(now: nat, offline: seq<D.int32>, online: seq<D.int32>): seq<string> {
    [D.Format(EXPIRE), D.Format(now), D.Format(now + EXPIRE), D.Format(|offline|)] + Texts(offline) + Texts(online)
  }

  lemma HeaderReads(argv: seq<string>, now: nat, n: nat)
    requires now + EXPIRE <= D.MAX_INT64 && n <= D.MAX_INT32 && 4 + n <= |argv|
    requires argv[0] == D.Format(EXPIRE) && argv[1] == D.Format(now)
    requires argv[2] == D.Format(now + EXPIRE) && argv[3] == D.Format(n)
    ensures ReadHeader(argv) == Some(Header(EXPIRE, now, now + EXPIRE, n))
  {
    D.AtoiFormat(EXPIRE);
    D.AtoiFormat(now);
    D.AtoiFormat(now + EXPIRE);
    D.AtoiFormat(n);
  }

  lemma ListsRead(argv: seq<string>, h: Header, head: seq<string>, offline: seq<string>, online: seq<string>)
    requires |head| == 4 && h.n == |offline| && argv == head + offline + online
    ensures OfflineOf(argv, h) == Elements(offline) && OnlineOf(argv, h) == Elements(online)
  {
    assert argv[4..4 + h.n] == offline;
    assert argv[4 + h.n..] == online;
  }

  /** The header and the two lists come back out of the flat vector. */
  lemma VectorReads(now: nat, offline: seq<D.int32>, online: seq<D.int32>)
    requires now + EXPIRE <= D.MAX_INT64 && |offline| <= D.MAX_INT32
    ensures var argv := Vector(now, offline, online); var h := Header(EXPIRE, now, now + EXPIRE, |offline|);
      && ReadHeader(argv) == Some(h)
      && OfflineOf(argv, h) == Elements(Texts(offline))
      && OnlineOf(argv, h) == Elements(Texts(online))
  {
    var argv, h := Vector(now, offline, online), Header(EXPIRE, now, now + EXPIRE, |offline|);
    var head := [D.Format(EXPIRE), D.Format(now), D.Format(now + EXPIRE), D.Format(|offline|)];
    ListsRead(argv, h, head, Texts(offline), Texts(online));
    HeaderReads(argv, now, |offline|);
  }

  method Pack(now: nat, offline: seq<D.int32>, online: seq<D.int32>) returns (argv: seq<string>)
    ensures argv == Vector(now, offline, online)
  {
    argv := [D.Format(EXPIRE), D.Format(now), D.Format(now + EXPIRE), D.Format(|offline|)];
    ghost var head := argv;
    for i := 0 to |offline|
      invariant argv == head + Texts(offline[..i])
    {
      TextsAppend(offline[..i], offline[i]);
      assert offline[..i] + [offline[i]] == offline[..i + 1];
      argv := argv + [D.Format(offline[i])];
    }
    assert offline[..|offline|] == offline;
    for i := 0 to |online|
      invariant argv == head + Texts(offline) + Texts(online[..i])
    {
      TextsAppend(online[..i], online[i]);
      assert online[..i] + [online[i]] == online[..i + 1];
      argv := argv + [D.Format(online[i])];
    }
    assert online[..|online|] == online;
  }

  lemma {:induction false} PlatformsAreTexts(members: seq<string>) returns (ids: seq<D.int32>)
    requires forall m <- members :: IsPlatform(m)
    ensures Texts(ids) == members
    decreases |members|
  {
    ids := [];
    if members != [] {
      var front, last := members[..|members| - 1], members[|members| - 1];
      assert members == front + [last];
      ids := PlatformsAreTexts(front);
      assert last in members && IsPlatform(last);
      var id: D.int32 :| last == D.Format(id);
      TextsAppend(ids, id);
      ids := ids + [id];
    }
  }

  /** Atoi over printed platform ids, as Set and Get run it over what the store returns. */
  method ReadBack(members: seq<string>) returns (ids: seq<D.int32>)
    requires forall m <- members :: IsPlatform(m)
    ensures Texts(ids) == members
  {
    ghost var meant := PlatformsAreTexts(members);
    NumbersOfTexts(meant);
    var parsed := ParseAll(members);
    ids := parsed.value;
  }

  lemma KeysApart(a: string, b: string)
    ensures Key(a) == Key(b) ==> a == b
  {
    assert Key(a)[|PREFIX|..] == a && Key(b)[|PREFIX|..] == b;
  }

  /** An update leaves its key sound and every other key as it was. */
  lemma UpdateIsSound(now: nat, before: Store, after: Store, key: string, t: nat,
                      offline: seq<D.int32>, online: seq<D.int32>, skew: nat)
    requires Sound(now, before, key, skew) && t * 1000 <= now + skew
    requires Holding(after, before, key,
      Updated(ScoresOf(before, key), t, t + EXPIRE, Elements(Texts(offline)), Elements(Texts(online))))
    requires key in after ==> after[key].deadline == Some(DeadlineIn(now, EXPIRE))
    ensures Sound(now, after, key, skew)
  {
    if key in after {
      var z := ScoresOf(before, key);
      forall m | m in after[key].value.scores
        ensures after[key].value.scores[m] * 1000 <= after[key].deadline.value + skew && IsPlatform(m)
      {
        if m in Texts(online) {
          var i :| 0 <= i < |online| && m == D.Format(online[i]);
        } else {
          assert m in z;
        }
      }
    }
  }

  /** The time to live is half an hour, in the script's seconds and the store's milliseconds. */
  lemma HalfHour(now: nat, t: int)
    ensures DeadlineIn(now, EXPIRE) == now + 1_800_000 && t + EXPIRE == t + 1800
  {
  }

  lemma ReplyTells(flag: bool, changed: bool, z: Scores, fields: seq<string>)
    requires Replies(flag, z, fields) && Replies(changed, z, fields)
    ensures changed == flag && (flag ==> Enumerates(z, fields[..|fields| - 1]))
  {
  }

  /** What an update makes of these scores, and whether it counts as a change. */
  function Outcome(z: Scores, offline: seq<D.int32>, online: seq<D.int32>, t: nat): (Scores, bool) {
    var off, on := Elements(Texts(offline)), Elements(Texts(online));
    (Updated(z, t, t + 1800, off, on), Changed(z, t, off, on))
  }

  class Status {
    const rdb: Server
    ghost const skew: nat

    constructor (rdb: Server, ghost skew: nat)
      requires rdb.items == map[]
      ensures this.rdb == rdb && this.skew == skew && Valid()
    {
      this.rdb, this.skew := rdb, skew;
    }

    ghost predicate Valid()
      reads this, rdb
    {
      forall user {:trigger Sound(rdb.now, rdb.items, Key(user), skew)} :: Sound(rdb.now, rdb.items, Key(user), skew)
    }

    method Clock(to: nat)
      requires Valid() && rdb.now <= to
      modifies rdb
      ensures Valid() && rdb.now == to && rdb.published == old(rdb.published)
      ensures rdb.items == map k | k in old(rdb.items) && old(rdb.items)[k].LiveAt(to) :: old(rdb.items)[k]
    {
      ghost var was, items := rdb.now, rdb.items;
      rdb.Advance(to);
      forall user ensures Sound(rdb.now, rdb.items, Key(user), skew) {
        assert Sound(was, items, Key(user), skew);
      }
    }

    /** One update, issued at a client's clock at most `skew` ahead of the store's. The user's set becomes
        the two-list update; a payload of all its members is published exactly on a change. */
    method Set(user: string, online: seq<D.int32>, offline: seq<D.int32>, issued: nat)
      returns (changed: bool, ids: seq<D.int32>)
      requires Valid() && issued <= rdb.now + skew && FitsClock(issued) && |offline| <= D.MAX_INT32
      modifies rdb
      ensures Valid() && rdb.now == old(rdb.now)
      ensures
        if user == "" then rdb.items == old(rdb.items) && rdb.published == old(rdb.published) && !changed && ids == []
        else
        var (r, flag) := Outcome(ScoresOf(old(rdb.items), Key(user)), offline, online, issued / 1000);
        && Holding(rdb.items, old(rdb.items), Key(user), r)
        && (Key(user) in rdb.items ==> rdb.items[Key(user)].deadline == Some(rdb.now + 1_800_000))
        && changed == flag
        && (changed ==>
              && Enumerates(r, Texts(ids))
              && rdb.published == old(rdb.published) + [(CHANNEL, Payload(ids, user))])
        && (!changed ==> ids == [] && rdb.published == old(rdb.published))
    {
      if user == "" {
        return false, [];
      }
      changed, ids := SetAt(user, online, offline, issued / 1000);
    }

    /** The same for a named user, at the clock in seconds. */
    method SetAt(user: string, online: seq<D.int32>, offline: seq<D.int32>, t: nat)
      returns (changed: bool, ids: seq<D.int32>)
      requires Valid() && t * 1000 <= rdb.now + skew && t + EXPIRE <= D.MAX_INT64 && |offline| <= D.MAX_INT32
      modifies rdb
      ensures Valid() && rdb.now == old(rdb.now)
      ensures
        var (r, flag) := Outcome(ScoresOf(old(rdb.items), Key(user)), offline, online, t);
        && Holding(rdb.items, old(rdb.items), Key(user), r)
        && (Key(user) in rdb.items ==> rdb.items[Key(user)].deadline == Some(rdb.now + 1_800_000))
        && changed == flag
        && (changed ==>
              && Enumerates(r, Texts(ids))
              && rdb.published == old(rdb.published) + [(CHANNEL, Payload(ids, user))])
        && (!changed ==> ids == [] && rdb.published == old(rdb.published))
    {
      ghost var z := ScoresOf(rdb.items, Key(user));
      ghost var off, on := Elements(Texts(offline)), Elements(Texts(online));
      var fields := Update(user, online, offline, t);
      HalfHour(rdb.now, t);
      ghost var r := Updated(z, t, t + 1800, off, on);
      changed, ids := Announce(user, fields);
      assert Holding(rdb.items, old(rdb.items), Key(user), r);
      ReplyTells(Changed(z, t, off, on), changed, r, fields);
    }

    /** The script of one update, on the vector packed for it. */
    method Update(user: string, online: seq<D.int32>, offline: seq<D.int32>, t: nat) returns (fields: seq<string>)
      requires Valid() && t * 1000 <= rdb.now + skew && t + EXPIRE <= D.MAX_INT64 && |offline| <= D.MAX_INT32
      modifies rdb`items
      ensures Valid()
      ensures
        var z := ScoresOf(old(rdb.items), Key(user));
        var off, on := Elements(Texts(offline)), Elements(Texts(online));
        var r := Updated(z, t, t + EXPIRE, off, on);
        && Holding(rdb.items, old(rdb.items), Key(user), r)
        && ScoresOf(rdb.items, Key(user)) == r
        && (Key(user) in rdb.items ==> rdb.items[Key(user)].deadline == Some(DeadlineIn(rdb.now, EXPIRE)))
        && Replies(Changed(z, t, off, on), r, fields)
    {
      var argv := Pack(t, offline, online);
      VectorReads(t, offline, online);
      assert Sound(rdb.now, rdb.items, Key(user), skew);
      ghost var items, z := rdb.items, ScoresOf(rdb.items, Key(user));
      fields := SetScript(rdb, Key(user), argv, z);
      UpdateIsSound(rdb.now, items, rdb.items, Key(user), t, offline, online, skew);
      StillValid(items, user);
    }

    /** Reads a reply of the script and publishes the members it lists after a change. */
    method Announce(user: string, fields: seq<string>) returns (changed: bool, ids: seq<D.int32>)
      requires Valid()
      requires
        || Replies(true, ScoresOf(rdb.items, Key(user)), fields)
        || Replies(false, ScoresOf(rdb.items, Key(user)), fields)
      modifies rdb`published
      ensures Valid()
      ensures Replies(changed, ScoresOf(rdb.items, Key(user)), fields)
      ensures changed ==> Texts(ids) == fields[..|fields| - 1]
      ensures changed ==> rdb.published == old(rdb.published) + [(CHANNEL, Payload(ids, user))]
      ensures !changed ==> ids == [] && rdb.published == old(rdb.published)
    {
      if |fields| == 0 || fields[|fields| - 1] == "0" {
        return false, [];
      }
      var raw := fields[..|fields| - 1];
      AllPlatforms(user, raw);
      ids := ReadBack(raw);
      rdb.Publish(CHANNEL, Join(raw + [user]));
      return true, ids;
    }

    lemma AllPlatforms(user: string, raw: seq<string>)
      requires Valid() && forall m <- raw :: m in ScoresOf(rdb.items, Key(user))
      ensures forall m <- raw :: IsPlatform(m)
    {
      assert Sound(rdb.now, rdb.items, Key(user), skew);
    }

    lemma StillValid(before: Store, user: string)
      requires forall u {:trigger Sound(rdb.now, before, Key(u), skew)} :: Sound(rdb.now, before, Key(u), skew)
      requires rdb.items - {Key(user)} == before - {Key(user)} && Sound(rdb.now, rdb.items, Key(user), skew)
      ensures Valid()
    {
      forall u ensures Sound(rdb.now, rdb.items, Key(u), skew) {
        KeysApart(u, user);
        assert Sound(rdb.now, before, Key(u), skew);
        if u != user {
          assert Key(u) in before - {Key(user)} <==> Key(u) in before;
          assert Key(u) in rdb.items - {Key(user)} <==> Key(u) in rdb.items;
        }
      }
    }

    /** The platforms of a user that a reader sees now. */
    method Get(user: string) returns (ids: seq<D.int32>)
      requires Valid()
      ensures user == "" ==> ids == []
      ensures user != "" ==> Elements(Texts(ids)) == AtLeast(ScoresOf(rdb.items, Key(user)), rdb.now / 1000)
      ensures user != "" ==> var z := ScoresOf(rdb.items, Key(user));
        forall i, j :: 0 <= i < j < |ids| ==> Listed(z, D.Format(ids[i]), D.Format(ids[j]))
    {
      if user == "" {
        return [];
      }
      ghost var z := ScoresOf(rdb.items, Key(user));
      assert Sound(rdb.now, rdb.items, Key(user), skew);
      var raw := rdb.ZRangeFrom(Key(user), rdb.now / 1000);
      AllPlatforms(user, raw);
      EveryAtLeast(z, raw, rdb.now / 1000);
      ids := ReadBack(raw);
      forall i, j | 0 <= i < j < |ids| ensures Listed(z, D.Format(ids[i]), D.Format(ids[j])) {
        assert Texts(ids)[i] == raw[i] && Texts(ids)[j] == raw[j];
      }
    }
  }

  /** The first of two listed members expires no later than the second, and is not the same. */
  predicate Listed(z: Scores, m: string, n: string) {
    m in z && n in z && m != n && z[m] <= z[n]
  }

  lemma EveryAtLeast(z: Scores, raw: seq<string>, now: int)
    requires Picks(z, AtLeast(z, now), |z.Keys|, raw)
    ensures Elements(raw) == AtLeast(z, now)
  {
    DistinctCount(raw);
    var gap := AtLeast(z, now) - Elements(raw);
    SubsetSize(AtLeast(z, now), z.Keys);
    assert |gap| == |AtLeast(z, now)| - |Elements(raw)|;
    assert gap == {} && AtLeast(z, now) == Elements(raw) + gap;
  }
}
