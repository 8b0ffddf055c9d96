/** Friend and block checks cached inside a calling process, each result tied to both users'
    list keys. */
module PairCache {
  import opened Joins
  import opened Wrappers
  import opened LinkTable
  import opened LinkedCache
  import L = RelationLists

  datatype Kind = Friend | Black

  datatype Pair = Pair(left: bool, right: bool)

  function Prefix(kind: Kind): string {
    if kind == Friend then "is-friend:" else "is-black:"
  }

  function PairKey(kind: Kind, a: string, b: string): string {
    Prefix(kind) + Joined(':', a, b)
  }

  function ListKey(kind: Kind, user: string): string {
    if kind == Friend then L.FriendIDsKey(user) else L.BlackIDsKey(user)
  }

  /** What a result depends on: the lists of both users. */
  function Links(kind: Kind, a: string, b: string): set<string> {
    {ListKey(kind, a), ListKey(kind, b)}
  }

  /** The keys a delete message can carry. */
  ghost predicate IsListKey(k: string) {
    exists o :: k == L.FriendIDsKey(o) || k == L.BlackIDsKey(o) || k == L.VersionKey(o)
  }

  predicate Clean(user: string) {
    ':' !in user
  }

  /** For any users: two checks of one kind share a result key exactly when they are the same check,
      or their ids overlap across a colon. */
  lemma PairKeysAgree(kind: Kind, a: string, b: string, c: string, d: string)
    ensures PairKey(kind, a, b) == PairKey(kind, c, d) <==>
      || (a == c && b == d)
      || (exists w :: Overlaps(':', a, b, c, d, w) || Overlaps(':', c, d, a, b, w))
  {
    AfterPrefix(kind, a, b);
    AfterPrefix(kind, c, d);
    JoinsAgree(':', a, b, c, d);
  }

  lemma AfterPrefix(kind: Kind, a: string, b: string)
    ensures PairKey(kind, a, b)[|Prefix(kind)|..] == Joined(':', a, b)
  {
  }

  /** Pairs of users without ':' never share a result key. */
  lemma PairKeysApart(kind: Kind, a: string, b: string, c: string, d: string)
    requires Clean(a) && Clean(c) && PairKey(kind, a, b) == PairKey(kind, c, d)
    ensures a == c && b == d
  {
    AfterPrefix(kind, a, b);
    AfterPrefix(kind, c, d);
    CleanJoinsAgree(':', a, b, c, d);
  }

  /** The text of the keys, from which no friend result and block result share one. */
  lemma KindsApart(a: string, b: string, c: string, d: string)
    ensures PairKey(Friend, a, b) == "is-friend:" + a + ":" + b
    ensures PairKey(Black, a, b) == "is-black:" + a + ":" + b
    ensures PairKey(Friend, a, b) != PairKey(Black, c, d)
  {
    assert PairKey(Friend, a, b)[3] == 'f' && PairKey(Black, c, d)[3] == 'b';
  }

  lemma PairKeysDiffer(kind: Kind, a: string, b: string, c: string, d: string)
    requires Clean(a) && Clean(c) && (a, b) != (c, d)
    ensures PairKey(kind, a, b) != PairKey(kind, c, d)
  {
    if PairKey(kind, a, b) == PairKey(kind, c, d) { PairKeysApart(kind, a, b, c, d); }
  }

  lemma ResultsAreNoLinks(kind: Kind, a: string, b: string, x: string, y: string)
    ensures PairKey(kind, a, b) !in Links(kind, x, y)
  {
    PairKeyIsNoListKey(kind, a, b);
    assert IsListKey(ListKey(kind, x)) && IsListKey(ListKey(kind, y));
  }

  lemma PairKeyIsNoListKey(kind: Kind, a: string, b: string)
    ensures !IsListKey(PairKey(kind, a, b))
  {
    assert PairKey(kind, a, b)[0] == 'i';
    forall o ensures L.FriendIDsKey(o)[0] == 's' && L.BlackIDsKey(o)[0] == 's' && L.VersionKey(o)[0] == 's' {
    }
  }

  /** With ':' in a user id two different pairs do share a key, whatever the ids around it. */
  lemma ColonMakesPairsCollide(kind: Kind, a: string, b: string, c: string)
    ensures PairKey(kind, Joined(':', a, b), c) == PairKey(kind, a, Joined(':', b, c))
    ensures (Joined(':', a, b), c) != (a, Joined(':', b, c))
  {
    Regroup(':', a, b, c);
    assert |Joined(':', a, b)| > |a|;
  }

  lemma NoLinks(kind: Kind, u: string, v: string, a: string, b: string, c: string, x: string, y: string)
    ensures PairKey(kind, u, v) !in Links(kind, a, b) + Links(kind, a, c) + Links(kind, x, y)
  {
    ResultsAreNoLinks(kind, u, v, a, b);
    ResultsAreNoLinks(kind, u, v, a, c);
    ResultsAreNoLinks(kind, u, v, x, y);
  }

  /** What the eviction of one result can do to another: two checks of a user, a third check that
      evicts the first one, and a delete of that user's list leave the second result cached until
      the goroutine of the eviction has run. */
  lemma SecondCheckOutlivesDelete(kind: Kind, a: string, b: string, c: string, x: string, y: string)
    requires Clean(a) && Clean(b) && Clean(c) && Clean(x) && Clean(y)
    requires b != c && (x, y) != (a, b) && (x, y) != (a, c)
    ensures var p, q, r := PairKey(kind, a, b), PairKey(kind, a, c), PairKey(kind, x, y);
      var one := Begun(EMPTY, p, Links(kind, a, b), None);
      var three := Begun(Begun(one, q, Links(kind, a, c), None), r, Links(kind, x, y), Some(p));
      var end := Deleted(three, ListKey(kind, a));
      q in end.local && q in end.owed
  {
    var p, q, r := PairKey(kind, a, b), PairKey(kind, a, c), PairKey(kind, x, y);
    PairKeysDiffer(kind, a, b, a, c);
    PairKeysDiffer(kind, x, y, a, b);
    PairKeysDiffer(kind, x, y, a, c);
    var all := Links(kind, a, b) + Links(kind, a, c) + Links(kind, x, y);
    assert {p, q, r} !! all by {
      NoLinks(kind, a, b, a, b, c, x, y);
      NoLinks(kind, a, c, a, b, c, x, y);
      NoLinks(kind, x, y, a, b, c, x, y);
    }
    EvictionOutrunsDeleteFromStart(p, q, r, ListKey(kind, a), ListKey(kind, b), ListKey(kind, c), Links(kind, x, y));
  }

  /** A key that was looked up is the result of two clean users and depends on both their lists. */
  ghost predicate Entry(kind: Kind, deps: Deps, p: string) {
    p in deps ==> exists a, b :: IsResult(kind, a, b, p) && deps[p] == Links(kind, a, b)
  }

  predicate IsResult(kind: Kind, a: string, b: string, p: string) {
    Clean(a) && Clean(b) && p == PairKey(kind, a, b)
  }

  ghost predicate Entries(kind: Kind, deps: Deps) {
    forall p {:trigger Entry(kind, deps, p)} :: Entry(kind, deps, p)
  }

  /** Results depend on list keys, and those are no results. */
  lemma EntriesAreSeparate(kind: Kind, deps: Deps)
    requires Entries(kind, deps)
    ensures Separate(deps)
  {
    forall p, d | p in deps && d in deps[p] ensures d !in deps {
      assert Entry(kind, deps, p) && Entry(kind, deps, d);
      var a, b :| IsResult(kind, a, b, p) && deps[p] == Links(kind, a, b);
      if d in deps {
        var x, y :| IsResult(kind, x, y, d) && deps[d] == Links(kind, x, y);
        ResultsAreNoLinks(kind, x, y, a, b);
      }
    }
  }

  lemma EntryOf(kind: Kind, deps: Deps, a: string, b: string)
    requires Entries(kind, deps) && Clean(a) && Clean(b) && PairKey(kind, a, b) in deps
    ensures deps[PairKey(kind, a, b)] == Links(kind, a, b)
  {
    var p := PairKey(kind, a, b);
    assert Entry(kind, deps, p);
    var c, d :| IsResult(kind, c, d, p) && deps[p] == Links(kind, c, d);
    PairKeysApart(kind, a, b, c, d);
  }

  lemma MoreEntries(kind: Kind, deps: Deps, a: string, b: string)
    requires Entries(kind, deps) && Clean(a) && Clean(b)
    ensures Entries(kind, deps[PairKey(kind, a, b) := Links(kind, a, b)])
  {
    var key := PairKey(kind, a, b);
    var more := deps[key := Links(kind, a, b)];
    forall p ensures Entry(kind, more, p) {
      assert Entry(kind, deps, p);
      assert IsResult(kind, a, b, key);
    }
  }

  lemma ListKeysAreNoResults(kind: Kind, deps: Deps, keys: seq<string>)
    requires Entries(kind, deps) && forall k <- keys :: IsListKey(k)
    ensures forall k <- keys :: k !in deps
  {
    forall k | k in keys ensures k !in deps {
      assert Entry(kind, deps, k);
      if k in deps {
        var c, d :| IsResult(kind, c, d, k) && deps[k] == Links(kind, c, d);
        PairKeyIsNoListKey(kind, c, d);
      }
    }
  }

  class Results {
    const kind: Kind
    const cache: Cache<Pair>

    constructor (kind: Kind)
      ensures this.kind == kind && fresh(cache) && fresh(cache.link)
      ensures Valid() && cache.local == map[] && cache.pending == [] && cache.opening == map[]
    {
      this.kind := kind;
      cache := new Cache();
      new;
      forall p ensures Entry(kind, cache.deps, p) {}
    }

    ghost predicate Valid()
      reads this, cache, cache.link
    {
      cache.Valid() && Entries(kind, cache.deps)
    }

    /** A lookup that misses or has expired: placeholder and possible eviction. */
    method Open(a: string, b: string, token: nat, victim: Option<string>)
      requires Valid() && Clean(a) && Clean(b) && (victim.Some? ==> victim.value != PairKey(kind, a, b))
      requires token !in cache.opening
      modifies cache, cache.link
      ensures Valid() && PairKey(kind, a, b) in cache.local && cache.local[PairKey(kind, a, b)] == Slot(token, None)
      ensures cache.View() == Inserted(old(cache.View()), PairKey(kind, a, b), victim)
      ensures cache.opening == old(cache.opening)[token := PairKey(kind, a, b)]
    {
      Prepare(a, b);
      cache.Insert(PairKey(kind, a, b), Links(kind, a, b), token, victim);
    }

    lemma Prepare(a: string, b: string)
      requires Valid() && Clean(a) && Clean(b)
      ensures var p, want := PairKey(kind, a, b), Links(kind, a, b);
        && Separate(cache.deps[p := want]) && Entries(kind, cache.deps[p := want])
        && (p in cache.deps ==> cache.deps[p] == want)
    {
      MoreEntries(kind, cache.deps, a, b);
      EntriesAreSeparate(kind, cache.deps[PairKey(kind, a, b) := Links(kind, a, b)]);
      if PairKey(kind, a, b) in cache.deps { EntryOf(kind, cache.deps, a, b); }
    }

    /** The lookup ties its result to both list keys and goes on to ask the relation service. */
    method Bind(a: string, b: string, token: nat)
      requires Valid() && Clean(a) && Clean(b) && token in cache.opening && cache.opening[token] == PairKey(kind, a, b)
      modifies cache, cache.link
      ensures Valid() && cache.local == old(cache.local) && cache.opening == old(cache.opening) - {token}
      ensures var p := PairKey(kind, a, b);
        var own := p in cache.local && cache.local[p].token == token;
        cache.View() == Bound(old(cache.View()), p, Links(kind, a, b), own)
    {
      var links := [ListKey(kind, a), ListKey(kind, b)];
      assert (set l | l in links) == Links(kind, a, b);
      EntryOf(kind, cache.deps, a, b);
      cache.Tie(token, links);
    }

    /** A lookup that misses, with nothing between its two halves. */
    method Miss(a: string, b: string, token: nat, victim: Option<string>)
      requires Valid() && Clean(a) && Clean(b) && (victim.Some? ==> victim.value != PairKey(kind, a, b))
      requires token !in cache.opening
      modifies cache, cache.link
      ensures Valid() && PairKey(kind, a, b) in cache.local && cache.local[PairKey(kind, a, b)] == Slot(token, None)
      ensures cache.View() == Begun(old(cache.View()), PairKey(kind, a, b), Links(kind, a, b), victim)
    {
      Open(a, b, token, victim);
      Bind(a, b, token);
    }

    /** A check whose result is cached and finished is answered from it; any other has to be made. */
    method Hit(a: string, b: string) returns (r: Option<(bool, bool)>)
      ensures var p := PairKey(kind, a, b);
        r == if p in cache.local && cache.local[p].value.Some?
             then Some((cache.local[p].value.value.left, cache.local[p].value.value.right)) else None
    {
      var p := PairKey(kind, a, b);
      if p !in cache.local || cache.local[p].value.None? {
        return None;
      }
      var got := cache.local[p].value.value;
      return Some((got.left, got.right));
    }

    /** The answer of the relation service arrives, to a lookup that has tied its result. */
    method Answer(a: string, b: string, token: nat, inUser1: bool, inUser2: bool)
      requires Valid() && token !in cache.opening
      modifies cache
      ensures Valid() && cache.View() == old(cache.View())
      ensures var p := PairKey(kind, a, b);
        cache.local == if p in old(cache.local) && old(cache.local)[p].token == token
                       then old(cache.local)[p := Slot(token, Some(Pair(inUser1, inUser2)))] else old(cache.local)
    {
      cache.Finish(PairKey(kind, a, b), token, Pair(inUser1, inUser2));
    }

    method RunGoroutine(i: nat)
      requires Valid() && i < |cache.pending|
      modifies cache, cache.link
      ensures Valid() && cache.local == old(cache.local) - (old(cache.pending)[i].keys - {old(cache.pending)[i].src})
    {
      cache.RunBatch(i);
    }

    /** A delete message involves this check if it carries the list key of one of its users. */
    predicate Involves(keys: seq<string>, a: string, b: string) {
      if kind == Friend then L.FriendIDsKey(a) in keys || L.FriendIDsKey(b) in keys
      else L.BlackIDsKey(a) in keys || L.BlackIDsKey(b) in keys
    }

    /** A delete message is applied. Of the results that involve a user of the message, in either
        position, exactly those are left that have no ties in the table; and each of these is
        either owed to the goroutine of an earlier eviction, or the placeholder of a lookup that
        has not asked the relation service yet. In general a result is left exactly when the link
        table reaches it from none of the keys. */
    method DropLocal(keys: seq<string>)
      requires Valid() && forall k <- keys :: IsListKey(k)
      modifies cache, cache.link
      ensures Valid()
      ensures forall a, b {:trigger PairKey(kind, a, b)} :: Clean(a) && Clean(b) && Involves(keys, a, b) ==>
        var p := PairKey(kind, a, b);
        p in old(cache.local) ==>
          && (p in cache.local <==> Neighbours(old(cache.link.data), p) == {})
          && (p in cache.local ==> p in Owed(old(cache.pending)) || Unasked(p))
      ensures forall p :: p in cache.local <==>
                p in old(cache.local) && forall k <- keys :: p !in Component(old(cache.link.data), k)
      ensures forall p <- cache.local :: cache.local[p] == old(cache.local)[p]
    {
      ghost var s, deps := cache.View(), cache.deps;
      ListKeysAreNoResults(kind, deps, keys);
      forall x | x in keys ensures x !in s.local { assert Anchored(s, deps, x); }
      forall a, b {:trigger PairKey(kind, a, b)} | Clean(a) && Clean(b) && Involves(keys, a, b)
        && PairKey(kind, a, b) in s.local
        ensures var p := PairKey(kind, a, b);
          && (p in DeletedAll(s, keys).local <==> Neighbours(s.data, p) == {})
          && (p in DeletedAll(s, keys).local ==> p in s.owed || p in s.raw)
      {
        assert Anchored(s, deps, PairKey(kind, a, b));
        EntryOf(kind, deps, a, b);
        var k := if ListKey(kind, a) in keys then ListKey(kind, a) else ListKey(kind, b);
        DeleteDropsDependents(s, deps, keys, k, PairKey(kind, a, b));
      }
      forall p
        ensures p in DeletedAll(s, keys).local <==> p in s.local && forall k <- keys :: p !in Component(s.data, k)
      {
        DeleteDropsTheReachable(s, keys, p);
      }
      cache.Del(keys);
      assert cache.local.Keys == DeletedAll(s, keys).local;
    }

    /** A placeholder whose lookup is still to tie it, and then to ask. */
    ghost predicate Unasked(p: string)
      reads this, cache
    {
      IsRaw(cache.local, cache.opening, p) && cache.local[p].value.None?
    }
  }
}
