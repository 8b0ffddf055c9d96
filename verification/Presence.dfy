/** Online platforms of a user: one sorted set per user, updated by a script that takes a
    flat argument vector, with changes published to every gateway. */
module Presence {
  import opened Wrappers
  import opened Redis
  import opened ScoreIndex
  import D = Decimal

  const PREFIX := "suim:online:"
  const CHANNEL := "suim:online:change"
  const EXPIRE: nat := 1800

  function Key(user: string): string { PREFIX + user }

  function Elements(members: seq<string>): set<string> {
    set m | m in members
  }

  /** What the first phase leaves: members that are not due and not going offline. */
  function Kept(z: Scores, now: int, offline: set<string>): Scores {
    map m | m in z && now < z[m] && m !in offline :: z[m]
  }

  /** The two-list meaning of an update: going online wins over going offline, an online
      platform gets the new score, and every other survivor keeps its own. */
  function Updated(z: Scores, now: int, score: int, offline: set<string>, online: set<string>): Scores {
    map m | m in Kept(z, now, offline).Keys + online :: if m in online then score else z[m]
  }

  /** The change flag: the first phase removed a member or the second one added one. */
  predicate Changed(z: Scores, now: int, offline: set<string>, online: set<string>) {
    || (exists m <- z :: z[m] <= now || m in offline)
    || (exists m <- online :: m !in z || z[m] <= now || m in offline)
  }

  /** If the stored set differs from before, the flag is set. */
  lemma ChangeIsFlagged(z: Scores, now: int, score: int, offline: set<string>, online: set<string>)
    ensures Updated(z, now, score, offline, online).Keys != z.Keys ==> Changed(z, now, offline, online)
  {
  }

  /** The flag is set although the set is the same only when a member was dropped, because
      it was due or named offline, and put back by the same update. */
  lemma FlagWithoutChange(z: Scores, now: int, score: int, offline: set<string>, online: set<string>)
    requires Changed(z, now, offline, online)
    ensures Updated(z, now, score, offline, online).Keys == z.Keys <==>
      && online <= z.Keys
      && (forall m <- z :: z[m] <= now || m in offline ==> m in online)
  {
  }

  /** Every surviving member is still ahead of the clock, offline platforms are gone unless
      they are also online, online platforms carry the new score, the others their own. */
  lemma UpdatedMembers(z: Scores, now: int, score: int, offline: set<string>, online: set<string>, m: string)
    requires now < score
    ensures var r := Updated(z, now, score, offline, online);
      && (m in r ==> now < r[m])
      && (m in online ==> m in r && r[m] == score)
      && (m in offline && m !in online ==> m !in r)
      && (m !in online && m !in offline ==> (m in r <==> m in z && now < z[m]) && (m in r ==> r[m] == z[m]))
  {
  }

  /** The flat store with this key holding exactly these scores, all other keys as before. */
  ghost predicate Holding(items: Store, before: Store, key: string, z: Scores) {
    && (key in items <==> z != map[])
    && (key in items ==> items[key].value == ZSet(z))
    && items - {key} == before - {key}
  }

  lemma HoldingReads(items: Store, before: Store, key: string, z: Scores)
    requires Holding(items, before, key, z)
    ensures HoldsScores(items, key) && ScoresOf(items, key) == z
    ensures forall y: Scores :: Holding(WithScores(items, key, y), before, key, y)
  {
    forall y: Scores ensures Holding(WithScores(items, key, y), before, key, y) {
      var after := WithScores(items, key, y);
      assert after - {key} == items - {key};
    }
  }

  lemma CountsTellChange(larger: Scores, smaller: Scores)
    requires smaller.Keys <= larger.Keys
    ensures |smaller.Keys| == |larger.Keys| <==> smaller.Keys == larger.Keys
  {
    var gap := larger.Keys - smaller.Keys;
    assert larger.Keys == smaller.Keys + gap;
    assert |larger.Keys| == |smaller.Keys| + |gap|;
  }

  /** The header of the vector: time to live, clock, score, number of offline platforms. */
  datatype Header = Header(seconds: nat, now: int, score: int, n: nat)

  /** The header as tonumber reads it; a vector too short for its own count has none. */
  function ReadHeader(argv: seq<string>): Option<Header> {
    if |argv| < 4 then None
    else
      var seconds, now, score, n := D.Atoi(argv[0]), D.Atoi(argv[1]), D.Atoi(argv[2]), D.Atoi(argv[3]);
      if seconds.None? || now.None? || score.None? || n.None? then None
      else if seconds.value < 0 || n.value < 0 || |argv| < 4 + n.value then None
      else Some(Header(seconds.value, now.value, score.value, n.value))
  }

  function OfflineOf(argv: seq<string>, h: Header): set<string>
    requires 4 + h.n <= |argv|
  {
    Elements(argv[4..4 + h.n])
  }

  function OnlineOf(argv: seq<string>, h: Header): set<string>
    requires 4 + h.n <= |argv|
  {
    Elements(argv[4 + h.n..])
  }

  /** First phase, second loop of the script: remove the n platforms after the header. */
  method RemoveOffline(rdb: Server, key: string, argv: seq<string>, h: Header, ghost before: Store, ghost z: Scores)
    requires 4 + h.n <= |argv| && Holding(rdb.items, before, key, z)
    modifies rdb`items
    ensures Holding(rdb.items, before, key, z - OfflineOf(argv, h))
  {
    ghost var y := z;
    assert y == z - Elements(argv[4..4]);
    for i := 4 to h.n + 4
      invariant Holding(rdb.items, before, key, y) && y == z - Elements(argv[4..i])
    {
      HoldingReads(rdb.items, before, key, y);
      rdb.ZRem(key, argv[i]);
      y := y - {argv[i]};
      assert argv[4..i + 1] == argv[4..i] + [argv[i]];
    }
    assert argv[4..4 + h.n] == argv[4..h.n + 4];
  }

  function WithOnline(z: Scores, score: int, online: set<string>): Scores {
    map m | m in z.Keys + online :: if m in online then score else z[m]
  }

  lemma WithOneMore(z: Scores, score: int, online: seq<string>, m: string)
    ensures WithOnline(z, score, Elements(online + [m])) == WithOnline(z, score, Elements(online))[m := score]
  {
    assert Elements(online + [m]) == Elements(online) + {m};
  }

  /** Second phase: add every platform after those. */
  method AddOnline(rdb: Server, key: string, argv: seq<string>, h: Header, ghost before: Store, ghost z: Scores)
    requires 4 + h.n <= |argv| && Holding(rdb.items, before, key, z)
    modifies rdb`items
    ensures Holding(rdb.items, before, key, WithOnline(z, h.score, OnlineOf(argv, h)))
  {
    var n, score := h.n, h.score;
    ghost var y := z;
    assert y == WithOnline(z, score, Elements(argv[4 + n..4 + n]));
    for i := 4 + n to |argv|
      invariant Holding(rdb.items, before, key, y) && y == WithOnline(z, score, Elements(argv[4 + n..i]))
    {
      HoldingReads(rdb.items, before, key, y);
      rdb.ZAdd(key, score, argv[i]);
      y := y[argv[i] := score];
      WithOneMore(z, score, argv[4 + n..i], argv[i]);
      assert argv[4 + n..i + 1] == argv[4 + n..i] + [argv[i]];
    }
    assert argv[4 + n..|argv|] == argv[4 + n..];
  }

  lemma PhasesMeetSpec(z: Scores, now: int, score: int, offline: set<string>, online: set<string>)
    ensures z - Overdue(z, now) - offline == Kept(z, now, offline)
    ensures WithOnline(Kept(z, now, offline), score, online) == Updated(z, now, score, offline, online)
  {
  }

  /** The counts before, between and after the phases tell the change flag. */
  lemma CountsMeetFlag(z: Scores, now: int, score: int, offline: set<string>, online: set<string>)
    ensures var kept := Kept(z, now, offline);
      (|z.Keys| != |kept.Keys| || |kept.Keys| != |WithOnline(kept, score, online).Keys|)
      <==> Changed(z, now, offline, online)
  {
    var kept := Kept(z, now, offline);
    var all := WithOnline(kept, score, online);
    CountsTellChange(z, kept);
    CountsTellChange(all, kept);
    assert kept.Keys != z.Keys <==> exists m <- z :: z[m] <= now || m in offline;
    assert all.Keys != kept.Keys <==> exists m <- online :: m !in z || z[m] <= now || m in offline by {
      if m :| m in online && (m !in z || z[m] <= now || m in offline) {
        assert m in all.Keys && m !in kept.Keys;
      }
    }
  }

  method CountMembers(rdb: Server, key: string, ghost before: Store, ghost z: Scores) returns (n: nat)
    requires Holding(rdb.items, before, key, z)
    ensures n == |z.Keys|
  {
    HoldingReads(rdb.items, before, key, z);
    n := rdb.ZCard(key);
  }

  /** First phase, first step: remove every member whose score is reached. */
  method RemoveDue(rdb: Server, key: string, now: int, ghost before: Store, ghost z: Scores)
    requires Holding(rdb.items, before, key, z)
    modifies rdb`items
    ensures Holding(rdb.items, before, key, z - Overdue(z, now))
  {
    HoldingReads(rdb.items, before, key, z);
    rdb.ZRemUpTo(key, now);
  }

  /** The end of the script: an empty set is no key, any other gets the full time to live. */
  method Settle(rdb: Server, key: string, left: nat, seconds: nat, ghost before: Store, ghost z: Scores)
    requires Holding(rdb.items, before, key, z) && left == |z.Keys|
    modifies rdb`items
    ensures Holding(rdb.items, before, key, z)
    ensures key in rdb.items ==> rdb.items[key].deadline == Some(DeadlineIn(rdb.now, seconds))
  {
    if left == 0 {
      assert z == map[];
      rdb.Del({key});
    } else {
      ghost var was := rdb.items;
      rdb.Expire(key, seconds);
      assert rdb.items - {key} == was - {key};
    }
  }

  method Reply(rdb: Server, key: string, changed: bool, ghost before: Store, ghost z: Scores)
    returns (fields: seq<string>)
    requires Holding(rdb.items, before, key, z)
    ensures Replies(changed, z, fields)
  {
    if changed {
      HoldingReads(rdb.items, before, key, z);
      var members := rdb.ZRangeAll(key);
      fields := members + ["1"];
      assert fields[..|fields| - 1] == members;
    } else {
      fields := ["0"];
    }
  }

  /** The reply lists the members and then "1" after a change, and is "0" otherwise. */
  ghost predicate Replies(changed: bool, z: Scores, fields: seq<string>) {
    if changed
    then fields != [] && fields[|fields| - 1] == "1" && Enumerates(z, fields[..|fields| - 1])
    else fields == ["0"]
  }

  /** What the script promises: the set under this key is the two-list update of what it was,
      the key lives for the full time to live from now, every other key is untouched, and the
      reply follows the change flag. */
  ghost predicate Performs(now: nat, before: Store, after: Store, key: string, argv: seq<string>, h: Header,
                           z: Scores, fields: seq<string>)
    requires 4 + h.n <= |argv|
  {
    var r := Updated(z, h.now, h.score, OfflineOf(argv, h), OnlineOf(argv, h));
    && Holding(after, before, key, r)
    && (key in after ==> after[key].deadline == Some(DeadlineIn(now, h.seconds)))
    && Replies(Changed(z, h.now, OfflineOf(argv, h), OnlineOf(argv, h)), r, fields)
  }

  /** The script after its header is read. */
  method SetPhases(rdb: Server, key: string, argv: seq<string>, h: Header, ghost z: Scores)
    returns (fields: seq<string>)
    requires 4 + h.n <= |argv| && Holding(rdb.items, rdb.items, key, z)
    modifies rdb`items
    ensures Performs(rdb.now, old(rdb.items), rdb.items, key, argv, h, z, fields)
  {
    ghost var start, due := rdb.items, z - Overdue(z, h.now);
    ghost var kept := due - OfflineOf(argv, h);
    ghost var r := WithOnline(kept, h.score, OnlineOf(argv, h));
    var before := CountMembers(rdb, key, start, z);
    RemoveDue(rdb, key, h.now, start, z);
    RemoveOffline(rdb, key, argv, h, start, due);
    var removed := CountMembers(rdb, key, start, kept);
    AddOnline(rdb, key, argv, h, start, kept);
    var left := CountMembers(rdb, key, start, r);
    Settle(rdb, key, left, h.seconds, start, r);
    var changed := before != removed || removed != left;
    fields := Reply(rdb, key, changed, start, r);
    PerformsFrom(rdb.now, start, rdb.items, key, argv, h, z, kept, r, fields, changed);
  }

  lemma PerformsFrom(now: nat, before: Store, after: Store, key: string, argv: seq<string>, h: Header, z: Scores,
                     kept: Scores, r: Scores, fields: seq<string>, changed: bool)
    requires 4 + h.n <= |argv|
    requires kept == z - Overdue(z, h.now) - OfflineOf(argv, h)
    requires r == WithOnline(kept, h.score, OnlineOf(argv, h))
    requires Holding(after, before, key, r)
    requires key in after ==> after[key].deadline == Some(DeadlineIn(now, h.seconds))
    requires Replies(changed, r, fields)
    requires changed <==> |z.Keys| != |kept.Keys| || |kept.Keys| != |r.Keys|
    ensures Performs(now, before, after, key, argv, h, z, fields)
  {
    PhasesMeetSpec(z, h.now, h.score, OfflineOf(argv, h), OnlineOf(argv, h));
    CountsMeetFlag(z, h.now, h.score, OfflineOf(argv, h), OnlineOf(argv, h));
  }

  /** The whole script on the flat vector of texts. */
  method SetScript(rdb: Server, key: string, argv: seq<string>, ghost z: Scores) returns (fields: seq<string>)
    requires ReadHeader(argv).Some? && Holding(rdb.items, rdb.items, key, z)
    modifies rdb`items
    ensures Performs(rdb.now, old(rdb.items), rdb.items, key, argv, ReadHeader(argv).value, z, fields)
  {
    var h := ReadHeader(argv).value;
    fields := SetPhases(rdb, key, argv, h, z);
  }
}
