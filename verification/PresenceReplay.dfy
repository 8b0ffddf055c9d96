/** A gateway that keeps the last payload it read, over any run of updates and key expiries. */
module PresenceReplay {
  import opened Redis
  import opened Wrappers
  import opened ScoreIndex
  import opened PresencePayload
  import opened Presence
  import D = Decimal

  /** The stored set, what the gateway shows, and whether the key expired silently under it. */
  datatype Feed = Feed(stored: Scores, shown: set<D.int32>, lapsed: bool)

  datatype Action =
    | Update(now: int, offline: seq<D.int32>, online: seq<D.int32>, order: seq<D.int32>)
    | KeyExpires

  const START := Feed(map[], {}, false)

  function ShownTexts(shown: set<D.int32>): set<string> {
    set id | id in shown :: D.Format(id)
  }

  /** What a gateway shows for the user after this payload: a payload it cannot read, or
      reads as another user's, leaves it as it was. */
  function Applied(user: string, payload: string, shown: set<D.int32>): set<D.int32> {
    match Parsed(payload)
    case Some((u, ids)) => if u == user then set id | id in ids else shown
    case None => shown
  }

  function After(z: Scores, a: Action): Scores
    requires a.Update?
  {
    Updated(z, a.now, a.now + EXPIRE, Elements(Texts(a.offline)), Elements(Texts(a.online)))
  }

  /** One update with its in-order delivery, or the silent expiry of the key. The order is the one
      in which the store listed the members after a change; an impossible order is no step. */
  ghost function Step(user: string, f: Feed, a: Action): Feed {
    match a
    case KeyExpires => Feed(map[], f.shown, f.lapsed || (f.stored != map[] && f.shown != {}))
    case Update(now, offline, online, order) =>
      var r := After(f.stored, a);
      if !Changed(f.stored, now, Elements(Texts(offline)), Elements(Texts(online))) then Feed(r, f.shown, f.lapsed)
      else if !Enumerates(r, Texts(order)) then f
      else Feed(r, Applied(user, Payload(order, user), f.shown), false)
  }

  ghost function Run(user: string, actions: seq<Action>): Feed {
    if actions == [] then START
    else Step(user, Run(user, actions[..|actions| - 1]), actions[|actions| - 1])
  }

  ghost predicate InStep(f: Feed) {
    && (ShownTexts(f.shown) == f.stored.Keys <==> !f.lapsed)
    && (f.lapsed ==> f.stored == map[] && f.shown != {})
  }

  lemma ElementsAreShown(ids: seq<D.int32>)
    ensures ShownTexts(set id | id in ids) == Elements(Texts(ids))
  {
    var shown := set id | id in ids;
    forall t ensures t in ShownTexts(shown) <==> t in Elements(Texts(ids)) {
      if t in ShownTexts(shown) {
        var id :| id in shown && t == D.Format(id);
        var i :| 0 <= i < |ids| && ids[i] == id;
        assert Texts(ids)[i] == t;
      }
      if t in Texts(ids) {
        var i :| 0 <= i < |ids| && Texts(ids)[i] == t;
        assert ids[i] in shown;
      }
    }
  }

  lemma UpdateKeepsInStep(user: string, f: Feed, a: Action)
    requires user != "" && Clean(user) && InStep(f) && a.Update?
    ensures InStep(Step(user, f, a))
  {
    var r := After(f.stored, a);
    var off, on := Elements(Texts(a.offline)), Elements(Texts(a.online));
    if !Changed(f.stored, a.now, off, on) {
      ChangeIsFlagged(f.stored, a.now, a.now + EXPIRE, off, on);
      assert r.Keys == f.stored.Keys;
      assert f.lapsed ==> r.Keys == {};
    } else if Enumerates(r, Texts(a.order)) {
      PayloadRoundTrip(a.order, user);
      ElementsAreShown(a.order);
      assert Elements(Texts(a.order)) == r.Keys;
    }
  }

  lemma ExpiryKeepsInStep(user: string, f: Feed)
    requires InStep(f)
    ensures InStep(Step(user, f, KeyExpires))
  {
    if f.shown != {} {
      var id :| id in f.shown;
      assert D.Format(id) in ShownTexts(f.shown);
    } else {
      assert ShownTexts(f.shown) == {};
    }
  }

  /** At every point of every run the gateway shows exactly the stored platforms, unless the
      key has expired with platforms on it and no change was published since; then it shows
      platforms of an empty set. */
  lemma {:induction false} GatewayShowsStoredSet(user: string, actions: seq<Action>)
    requires user != "" && Clean(user)
    ensures InStep(Run(user, actions))
  {
    if actions == [] {
      assert ShownTexts({}) == {};
    } else {
      var before, a := actions[..|actions| - 1], actions[|actions| - 1];
      GatewayShowsStoredSet(user, before);
      if a.Update? {
        UpdateKeepsInStep(user, Run(user, before), a);
      } else {
        ExpiryKeepsInStep(user, Run(user, before));
      }
    }
  }

  // ---- the steps are those of the store and its channel ----

  /** What a gateway shows after these messages of the store's channels, in their order. */
  function Heard(user: string, news: seq<(string, string)>, shown: set<D.int32>): set<D.int32>
    decreases |news|
  {
    if news == [] then shown
    else Heard(user, news[1..], if news[0].0 == CHANNEL then Applied(user, news[0].1, shown) else shown)
  }

  /** What an update of a user promises of the store and its channel is one step of that user's
      feed: of the set, and of what a gateway shows that hears every message. */
  lemma UpdateIsStep(user: string, f: Feed, before: Store, after: Store, published: seq<(string, string)>,
                     news: seq<(string, string)>, t: int, offline: seq<D.int32>, online: seq<D.int32>,
                     changed: bool, ids: seq<D.int32>)
    requires f.stored == ScoresOf(before, Key(user))
    requires var off, on := Elements(Texts(offline)), Elements(Texts(online));
      var r := Updated(f.stored, t, t + EXPIRE, off, on);
      && Holding(after, before, Key(user), r)
      && changed == Changed(f.stored, t, off, on)
      && (changed ==> Enumerates(r, Texts(ids)) && published + news == published + [(CHANNEL, Payload(ids, user))])
      && (!changed ==> published + news == published)
    ensures var g := Step(user, f, Update(t, offline, online, ids));
      g.stored == ScoresOf(after, Key(user)) && g.shown == Heard(user, news, f.shown)
  {
    var off, on := Elements(Texts(offline)), Elements(Texts(online));
    HoldingReads(after, before, Key(user), Updated(f.stored, t, t + EXPIRE, off, on));
    assert news == (published + news)[|published|..];
    if changed {
      assert news == [(CHANNEL, Payload(ids, user))] && news[1..] == [];
    }
  }

  /** Expiry of the key in the store is the other step, and it says nothing on the channel. */
  lemma ExpiryIsStep(user: string, f: Feed, items: Store, to: nat)
    requires f.stored == ScoresOf(items, Key(user))
    ensures var after := map k | k in items && items[k].LiveAt(to) :: items[k];
      ScoresOf(after, Key(user)) ==
        if Key(user) in items && !items[Key(user)].LiveAt(to) then Step(user, f, KeyExpires).stored else f.stored
  {
  }

  /** A message is taken in exactly when it comes on the channel, ends with this user and has nothing but
      numbers before it; then the platforms shown are the low 32 bits of those, and otherwise they stay. */
  lemma MessageIsHeard(user: string, channel: string, payload: string, shown: set<D.int32>)
    requires user != ""
    ensures var parts, now := Split(payload), Heard(user, [(channel, payload)], shown);
      var n := |parts| - 1;
      if channel == "suim:online:change" && parts[n] == user && forall i :: 0 <= i < n ==> D.Atoi(parts[i]).Some?
      then forall id: D.int32 :: id in now <==> exists i :: 0 <= i < n && ReadAs(parts[i], id)
      else now == shown
  {
    HeardOnce(user, channel, payload, shown);
    PayloadIsRead(payload);
    var parts, n := Split(payload), |Split(payload)| - 1;
    if channel == CHANNEL && Parsed(payload).Some? && parts[n] == user {
      AppliedNumbers(parts[..n], Parsed(payload).value.1);
    }
  }

  lemma HeardOnce(user: string, channel: string, payload: string, shown: set<D.int32>)
    ensures Heard(user, [(channel, payload)], shown) ==
      if channel == CHANNEL then Applied(user, payload, shown) else shown
  {
    assert [(channel, payload)][1..] == [];
  }

  lemma AppliedNumbers(parts: seq<string>, ids: seq<D.int32>)
    requires |parts| == |ids| && forall i :: 0 <= i < |ids| ==> ReadAs(parts[i], ids[i])
    ensures forall id: D.int32 :: id in ids <==> exists i :: 0 <= i < |parts| && ReadAs(parts[i], id)
  {
    forall id: D.int32 ensures id in ids <==> exists i :: 0 <= i < |parts| && ReadAs(parts[i], id) {
      if id in ids {
        var i :| 0 <= i < |ids| && ids[i] == id;
        assert ReadAs(parts[i], id);
      }
      if i :| 0 <= i < |parts| && ReadAs(parts[i], id) {
        ReadOneWay(parts[i], id, ids[i]);
      }
    }
  }

  lemma ReadOneWay(part: string, x: D.int32, y: D.int32)
    requires ReadAs(part, x) && ReadAs(part, y)
    ensures x == y
  {
  }

  /** What other users are told of changes nothing here. */
  lemma OthersAreNotHeard(user: string, other: string, ids: seq<D.int32>, shown: set<D.int32>)
    requires user != other && other != "" && Clean(other)
    ensures Heard(user, [(CHANNEL, Payload(ids, other))], shown) == shown
  {
    PayloadRoundTrip(ids, other);
    assert [(CHANNEL, Payload(ids, other))][1..] == [];
  }
}
