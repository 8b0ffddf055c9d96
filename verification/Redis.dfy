/** The part of a Redis server that the scripts use: one flat store of named items,
    some with a deadline, updated in place by single commands. */
module Redis {
  import opened Wrappers
  import opened ScoreIndex
  import opened Decimal

  datatype Value =
    | Text(text: string)
    | Hash(fields: map<string, string>)
    | ZSet(scores: Scores)

  datatype Item = Item(value: Value, deadline: Option<nat>) {
    predicate LiveAt(now: nat) {
      deadline.Some? ==> now < deadline.value
    }
  }

  type Store = map<string, Item>

  /** The deadline of a key whose time to live is set at this instant: milliseconds. */
  function DeadlineIn(now: nat, seconds: nat): nat {
    now + seconds * 1000
  }

  function HashOf(items: Store, key: string): map<string, string> {
    if key in items && items[key].value.Hash? then items[key].value.fields else map[]
  }

  function ScoresOf(items: Store, key: string): Scores {
    if key in items && items[key].value.ZSet? then items[key].value.scores else map[]
  }

  function DeadlineOf(items: Store, key: string): Option<nat> {
    if key in items then items[key].deadline else None
  }

  /** Writing an aggregate keeps the deadline of its key; an empty sorted set is no key at all. */
  function WithScores(items: Store, key: string, z: Scores): Store {
    if z == map[] then items - {key} else items[key := Item(ZSet(z), DeadlineOf(items, key))]
  }

  /** A command on a key of another type is an error the callers below never cause. */
  predicate HoldsHash(items: Store, key: string) {
    key in items ==> items[key].value.Hash?
  }

  predicate HoldsScores(items: Store, key: string) {
    key in items ==> items[key].value.ZSet?
  }

  class Server {
    var now: nat
    var items: Store
    var published: seq<(string, string)>

    constructor ()
      ensures now == 0 && items == map[] && published == []
    {
      now, items, published := 0, map[], [];
    }

    /** Time passes and every item whose deadline is reached disappears. */
    method Advance(to: nat)
      requires now <= to
      modifies this`now, this`items
      ensures now == to
      ensures items == map k | k in old(items) && old(items)[k].LiveAt(to) :: old(items)[k]
    {
      now := to;
      items := map k | k in items && items[k].LiveAt(to) :: items[k];
    }

    /** SET key text EX seconds NX */
    method SetNx(key: string, text: string, seconds: nat) returns (ok: bool)
      modifies this`items
      ensures ok <==> key !in old(items)
      ensures items == if ok then old(items)[key := Item(Text(text), Some(DeadlineIn(now, seconds)))] else old(items)
    {
      ok := key !in items;
      if ok {
        items := items[key := Item(Text(text), Some(DeadlineIn(now, seconds)))];
      }
    }

    method Del(keys: set<string>)
      modifies this`items
      ensures items == old(items) - keys
    {
      items := items - keys;
    }

    method Expire(key: string, seconds: nat)
      modifies this`items
      ensures items == if key in old(items)
                       then old(items)[key := old(items)[key].(deadline := Some(DeadlineIn(now, seconds)))]
                       else old(items)
    {
      if key in items {
        items := items[key := items[key].(deadline := Some(DeadlineIn(now, seconds)))];
      }
    }

    method HGet(key: string, field: string) returns (text: Option<string>)
      requires HoldsHash(items, key)
      ensures text == if field in HashOf(items, key) then Some(HashOf(items, key)[field]) else None
    {
      var h := HashOf(items, key);
      text := if field in h then Some(h[field]) else None;
    }

    method HSet(key: string, fields: map<string, string>)
      requires HoldsHash(items, key) && fields != map[]
      modifies this`items
      ensures items == old(items)[key := Item(Hash(HashOf(old(items), key) + fields), DeadlineOf(old(items), key))]
    {
      items := items[key := Item(Hash(HashOf(items, key) + fields), DeadlineOf(items, key))];
    }

    method ZAdd(key: string, score: int, member: string)
      requires HoldsScores(items, key)
      modifies this`items
      ensures items == WithScores(old(items), key, ScoresOf(old(items), key)[member := score])
    {
      items := WithScores(items, key, ScoresOf(items, key)[member := score]);
    }

    method ZRem(key: string, member: string)
      requires HoldsScores(items, key)
      modifies this`items
      ensures items == WithScores(old(items), key, ScoresOf(old(items), key) - {member})
    {
      items := WithScores(items, key, ScoresOf(items, key) - {member});
    }

    method ZRemUpTo(key: string, max: int)
      requires HoldsScores(items, key)
      modifies this`items
      ensures items == WithScores(old(items), key, ScoresOf(old(items), key) - Overdue(ScoresOf(old(items), key), max))
    {
      items := WithScores(items, key, ScoresOf(items, key) - Overdue(ScoresOf(items, key), max));
    }

    method ZCard(key: string) returns (n: nat)
      requires HoldsScores(items, key)
      ensures n == |ScoresOf(items, key).Keys|
    {
      n := |ScoresOf(items, key).Keys|;
    }

    /** ZRANGEBYSCORE key -inf max LIMIT 0 count; a bound that is no number is an error. */
    method ZRangeUpTo(key: string, max: string, count: nat) returns (ids: Option<seq<string>>)
      requires HoldsScores(items, key)
      ensures ids.Some? <==> Atoi(max).Some?
      ensures ids.Some? ==> Range(ScoresOf(items, key), Atoi(max).value, count, ids.value)
    {
      if Atoi(max) == None {
        return None;
      }
      var z := ScoresOf(items, key);
      var found := Lowest(z, Overdue(z, Atoi(max).value), count);
      ids := Some(found);
    }

    /** ZRANGE key 0 -1 */
    method ZRangeAll(key: string) returns (ids: seq<string>)
      requires HoldsScores(items, key)
      ensures Enumerates(ScoresOf(items, key), ids)
    {
      var z := ScoresOf(items, key);
      ids := Lowest(z, z.Keys, |z.Keys|);
      PicksAll(z, ids);
    }

    /** ZRANGEBYSCORE key min +inf */
    method ZRangeFrom(key: string, min: int) returns (ids: seq<string>)
      requires HoldsScores(items, key)
      ensures var z := ScoresOf(items, key); Picks(z, AtLeast(z, min), |z.Keys|, ids)
    {
      var z := ScoresOf(items, key);
      ids := Lowest(z, AtLeast(z, min), |z.Keys|);
    }

    method Publish(channel: string, body: string)
      modifies this`published
      ensures published == old(published) + [(channel, body)]
    {
      published := published + [(channel, body)];
    }
  }
}
