/** What one user's platforms look like over any run of updates and of the clock: one sorted set
    under one expiring key, read at any time, against a lease per platform. */
module PresenceLeases {
  import opened Wrappers
  import opened Redis
  import opened ScoreIndex
  import opened Presence

  /** The user's set and the deadline of its key; without a key the deadline is 0. */
  datatype Shelf = Shelf(now: nat, scores: Scores, deadline: nat)

  datatype Action =
    | Clock(to: nat)
    | Update(issued: nat, offline: set<string>, online: set<string>)

  const START := Shelf(0, map[], 0)

  /** The store's clock never runs back, and no client's clock is more than `skew` ahead of it. */
  function Step(s: Shelf, a: Action, skew: nat): Shelf {
    match a
    case Clock(to) =>
      if to < s.now then s
      else if s.deadline <= to then Shelf(to, map[], 0)
      else s.(now := to)
    case Update(issued, offline, online) =>
      if s.now + skew < issued then s
      else
        var r := Updated(s.scores, issued / 1000, issued / 1000 + EXPIRE, offline, online);
        Shelf(s.now, r, if r == map[] then 0 else DeadlineIn(s.now, EXPIRE))
  }

  function Run(actions: seq<Action>, skew: nat): Shelf {
    if actions == [] then START else Step(Run(actions[..|actions| - 1], skew), actions[|actions| - 1], skew)
  }

  /** The lease of one platform: 30 minutes from its last online update, given up by an offline
      update, and by any update issued once it has run out. Keys and their expiry play no part. */
  function Lease(actions: seq<Action>, m: string, skew: nat): Option<int> {
    if actions == [] then None
    else
      var early, a := actions[..|actions| - 1], actions[|actions| - 1];
      var held := Lease(early, m, skew);
      if a.Clock? || Run(early, skew).now + skew < a.issued then held
      else if m in a.online then Some(a.issued / 1000 + 1800)
      else if m in a.offline || (held.Some? && held.value <= a.issued / 1000) then None
      else held
  }

  /** Scores are leases, none exceeds the key deadline by more than the skew, that deadline is at
      most 30 minutes off, and a lease that still runs is stored. */
  ghost predicate Agrees(s: Shelf, m: string, lease: Option<int>, skew: nat) {
    && s.deadline <= DeadlineIn(s.now, EXPIRE)
    && (m in s.scores ==> lease == Some(s.scores[m]) && s.scores[m] * 1000 <= s.deadline + skew)
    && (lease.Some? && s.now + skew < lease.value * 1000 ==> m in s.scores)
  }

  lemma {:induction false} LeasesAreKept(actions: seq<Action>, m: string, skew: nat)
    ensures Agrees(Run(actions, skew), m, Lease(actions, m, skew), skew)
  {
    if actions != [] {
      LeasesAreKept(actions[..|actions| - 1], m, skew);
    }
  }

  /** What a reader sees: every score from the current second on. */
  function Shown(s: Shelf): set<string> {
    AtLeast(s.scores, s.now / 1000)
  }

  /** Over every run a reader sees a platform as long as its lease runs, less the time by which a
      client's clock may be ahead, and never once the second in which it ends is over. With clocks
      that agree, key expiry takes nobody away early; and nothing lingers. */
  lemma {:induction false} ReadersSeeLeases(actions: seq<Action>, m: string, skew: nat)
    ensures var s, lease := Run(actions, skew), Lease(actions, m, skew);
      && (lease.None? ==> m !in Shown(s))
      && (lease.Some? && s.now + skew < lease.value * 1000 ==> m in Shown(s))
      && (lease.Some? && lease.value * 1000 + 1000 <= s.now ==> m !in Shown(s))
  {
    LeasesAreKept(actions, m, skew);
  }

  /** The skew does cost time: after an update that leaves the clock alone, the key lasts as long as
      the lease it gives exactly when the client's second had begun at the store. */
  lemma LeaseLastsUnlessClientIsAhead(s: Shelf, issued: nat, offline: set<string>, online: set<string>,
                                      m: string, skew: nat)
    requires issued <= s.now + skew && m in online
    ensures var r := Step(s, Update(issued, offline, online), skew);
      && m in r.scores
      && ((forall to: nat :: r.now <= to < r.scores[m] * 1000 ==> m in Shown(Step(r, Clock(to), skew)))
          <==> issued / 1000 * 1000 <= s.now)
  {
    var r := Step(s, Update(issued, offline, online), skew);
    assert r.deadline == DeadlineIn(s.now, EXPIRE);
    if s.now < issued / 1000 * 1000 {
      assert m !in Shown(Step(r, Clock(r.deadline), skew));
    }
  }

  /** The shelf of one key of the flat store. */
  function ShelfOf(now: nat, items: Store, key: string): Shelf {
    var z := ScoresOf(items, key);
    Shelf(now, z, if key in items && z != map[] && items[key].deadline.Some? then items[key].deadline.value else 0)
  }

  /** What an update promises of the store is one step of the shelf. */
  lemma UpdateIsStep(now: nat, before: Store, after: Store, key: string, issued: nat, skew: nat,
                     offline: set<string>, online: set<string>)
    requires issued <= now + skew
    requires var t := issued / 1000;
      Holding(after, before, key, Updated(ScoresOf(before, key), t, t + EXPIRE, offline, online))
    requires key in after ==> after[key].deadline == Some(DeadlineIn(now, EXPIRE))
    ensures ShelfOf(now, after, key) == Step(ShelfOf(now, before, key), Update(issued, offline, online), skew)
  {
    var t := issued / 1000;
    HoldingReads(after, before, key, Updated(ScoresOf(before, key), t, t + EXPIRE, offline, online));
  }

  /** Key expiry in the store is the clock step of the shelf. */
  lemma ExpiryIsStep(now: nat, items: Store, key: string, to: nat, skew: nat)
    requires now <= to
    requires key in items ==> items[key].value.ZSet? && items[key].value.scores != map[] && items[key].deadline.Some?
    ensures ShelfOf(to, map k | k in items && items[k].LiveAt(to) :: items[k], key)
         == Step(ShelfOf(now, items, key), Clock(to), skew)
  {
    var after := map k | k in items && items[k].LiveAt(to) :: items[k];
    if key in items {
      assert key in after <==> to < items[key].deadline.value;
    }
  }
}
