/** A process-local cache whose entries are tied together: deleting a key deletes every entry
    tied to it, and an eviction hands the entries tied to its victim to a later goroutine. */
module LinkedCache {
  import opened Wrappers
  import opened LinkTable

  /** What a goroutine started by an eviction still has to delete. */
  datatype Batch = Batch(src: string, keys: set<string>)

  function Owed(pending: seq<Batch>): set<string> {
    set b, k | b in pending && k in b.keys && k != b.src :: k
  }

  lemma OwedGrows(pending: seq<Batch>, b: Batch)
    ensures Owed(pending + [b]) == Owed(pending) + (b.keys - {b.src})
  {
    assert b in pending + [b];
  }

  /** The cached keys, the link table, the keys owed to goroutines not run yet, and the cached keys
      whose lookup has put in a placeholder but not tied it yet. */
  datatype State = State(local: set<string>, data: Table, owed: set<string>, raw: set<string>)

  const EMPTY := State({}, map[], {}, {})

  ghost function Evicted(s: State, key: string): State {
    if key in s.local then
      var c := Component(s.data, key);
      State(s.local - {key}, s.data - c, s.owed + (c - {key}), s.raw - {key})
    else s
  }

  /** One deleted key. When the key itself is cached its own eviction takes the links first, so
      the tied entries are left to a goroutine; otherwise they are deleted at once. */
  ghost function Deleted(s: State, key: string): State {
    if key in s.local then Evicted(s, key)
    else
      var c := Component(s.data, key);
      State(s.local - c, s.data - c, s.owed, s.raw - c)
  }

  ghost function DeletedAll(s: State, keys: seq<string>): State
    decreases |keys|
  {
    if keys == [] then s else DeletedAll(Deleted(s, keys[0]), keys[1..])
  }

  /** A placeholder goes in, and may push out one victim. */
  ghost function Inserted(s: State, key: string, victim: Option<string>): State {
    var put := s.(local := s.local + {key}, raw := s.raw + {key});
    if victim.Some? then Evicted(put, victim.value) else put
  }

  /** The lookup of a key ties it, whether or not its own placeholder is still there. */
  ghost function Bound(s: State, key: string, links: set<string>, own: bool): State {
    s.(data := Tied(s.data, key, links), raw := if own then s.raw - {key} else s.raw)
  }

  /** A lookup that misses, with nothing in between. */
  ghost function Begun(s: State, key: string, links: set<string>, victim: Option<string>): State {
    Bound(Inserted(s, key, victim), key, links, true)
  }

  type Deps = map<string, set<string>>

  /** Keys that are looked up are never themselves what others depend on. */
  ghost predicate Separate(deps: Deps) {
    forall p, d {:trigger p in deps, d in deps} :: p in deps && d in deps[p] ==> d !in deps
  }

  /** Every link of the table stands for a dependency. */
  ghost predicate Meant(t: Table, deps: Deps, x: string, y: string) {
    y in Neighbours(t, x) ==> (x in deps && y in deps[x]) || (y in deps && x in deps[y])
  }

  /** A key that is looked up has all its ties or none. */
  ghost predicate Whole(t: Table, deps: Deps, p: string) {
    p in deps ==> Neighbours(t, p) == {} || deps[p] <= Neighbours(t, p)
  }

  ghost predicate Bonds(t: Table, deps: Deps) {
    && Symmetric(t)
    && (forall x, y {:trigger Meant(t, deps, x, y)} :: Meant(t, deps, x, y))
    && (forall p {:trigger Whole(t, deps, p)} :: Whole(t, deps, p))
  }

  /** A cached entry that should have ties and has none is owed to a goroutine or has not been tied yet. */
  ghost predicate Anchored(s: State, deps: Deps, p: string) {
    p in s.local ==> p in deps && (Neighbours(s.data, p) == {} && deps[p] != {} ==> p in s.owed || p in s.raw)
  }

  ghost predicate Orderly(s: State, deps: Deps) {
    && Separate(deps)
    && Bonds(s.data, deps)
    && (forall p {:trigger Anchored(s, deps, p)} :: Anchored(s, deps, p))
  }

  // ---- every operation keeps this order ----

  lemma CuttingKeepsBonds(t: Table, deps: Deps, k: string)
    requires Bonds(t, deps)
    ensures Bonds(t - Component(t, k), deps)
  {
    var r := t - Component(t, k);
    CuttingKeepsSymmetry(t, k);
    forall x, y ensures Meant(r, deps, x, y) {
      OthersKeepLinks(t, k, x);
      assert Meant(t, deps, x, y);
    }
    forall p ensures Whole(r, deps, p) {
      OthersKeepLinks(t, k, p);
      assert Whole(t, deps, p);
    }
  }

  lemma TyingKeepsBonds(t: Table, deps: Deps, key: string)
    requires Bonds(t, deps) && Separate(deps) && key in deps
    ensures Bonds(Tied(t, key, deps[key]), deps)
  {
    var r := Tied(t, key, deps[key]);
    TyingKeepsSymmetry(t, key, deps[key]);
    forall x, y ensures Meant(r, deps, x, y) {
      TyingAdds(t, key, deps[key], x);
      assert Meant(t, deps, x, y);
    }
    forall p ensures Whole(r, deps, p) {
      TyingAdds(t, key, deps[key], p);
      assert Whole(t, deps, p);
      assert p in deps ==> p !in deps[key];
    }
  }

  lemma EvictedStaysOrderly(s: State, deps: Deps, key: string)
    requires Orderly(s, deps)
    ensures Orderly(Evicted(s, key), deps)
  {
    if key in s.local {
      CuttingKeepsBonds(s.data, deps, key);
      forall p ensures Anchored(Evicted(s, key), deps, p) {
        assert Anchored(s, deps, p);
        OthersKeepLinks(s.data, key, p);
      }
    }
  }

  lemma DeletedStaysOrderly(s: State, deps: Deps, key: string)
    requires Orderly(s, deps)
    ensures Orderly(Deleted(s, key), deps)
    ensures Deleted(s, key).local <= s.local
  {
    if key in s.local {
      EvictedStaysOrderly(s, deps, key);
    } else {
      CuttingKeepsBonds(s.data, deps, key);
      forall p ensures Anchored(Deleted(s, key), deps, p) {
        assert Anchored(s, deps, p);
        OthersKeepLinks(s.data, key, p);
      }
    }
  }

  lemma {:induction false} DeletedAllStaysOrderly(s: State, deps: Deps, keys: seq<string>)
    requires Orderly(s, deps)
    ensures Orderly(DeletedAll(s, keys), deps)
    ensures DeletedAll(s, keys).local <= s.local
    decreases |keys|
  {
    if keys != [] {
      DeletedStaysOrderly(s, deps, keys[0]);
      DeletedAllStaysOrderly(Deleted(s, keys[0]), deps, keys[1..]);
    }
  }

  /** A key that is new to the cache has no ties yet. */
  lemma MoreDepsKeepBonds(t: Table, deps: Deps, key: string, want: set<string>)
    requires Bonds(t, deps) && Separate(deps[key := want]) && (key in deps ==> deps[key] == want)
    ensures Bonds(t, deps[key := want])
  {
    var more := deps[key := want];
    if key in deps {
      assert more == deps;
    } else {
      forall x, y ensures Meant(t, more, x, y) { assert Meant(t, deps, x, y); }
      forall p ensures Whole(t, more, p) {
        assert Whole(t, deps, p);
        if p == key {
          forall y ensures y !in Neighbours(t, key) {
            assert Meant(t, deps, key, y);
            assert key in more;
            assert y in deps ==> y in more && more[y] == deps[y] && key !in more[y];
          }
        }
      }
    }
  }

  lemma InsertedStaysOrderly(s: State, deps: Deps, key: string, want: set<string>, victim: Option<string>)
    requires Orderly(s, deps) && Separate(deps[key := want]) && (key in deps ==> deps[key] == want)
    ensures Orderly(Inserted(s, key, victim), deps[key := want])
  {
    var more, put := deps[key := want], s.(local := s.local + {key}, raw := s.raw + {key});
    MoreDepsKeepBonds(s.data, deps, key, want);
    forall p ensures Anchored(put, more, p) { assert Anchored(s, deps, p); }
    if victim.Some? { EvictedStaysOrderly(put, more, victim.value); }
  }

  lemma BoundStaysOrderly(s: State, deps: Deps, key: string, own: bool)
    requires Orderly(s, deps) && key in deps
    ensures Orderly(Bound(s, key, deps[key], own), deps)
  {
    TyingKeepsBonds(s.data, deps, key);
    forall p ensures Anchored(Bound(s, key, deps[key], own), deps, p) {
      assert Anchored(s, deps, p);
      TyingAdds(s.data, key, deps[key], p);
    }
  }

  // ---- what a delete leaves ----

  /** After a delete of keys that are not cached themselves, an entry that depends on one of them is
      left exactly when it has no ties, and then its deletion is owed to a goroutine or its lookup
      has not come to fetch anything yet. */
  lemma DeleteDropsDependents(s: State, deps: Deps, keys: seq<string>, k: string, p: string)
    requires Orderly(s, deps) && k in keys && forall x <- keys :: x !in s.local
    requires p in s.local && p in deps && k in deps[p]
    ensures p in DeletedAll(s, keys).local <==> Neighbours(s.data, p) == {}
    ensures p in DeletedAll(s, keys).local ==> p in s.owed || p in s.raw
  {
    assert Anchored(s, deps, p) && Whole(s.data, deps, p);
    DeleteDropsTheReachable(s, keys, p);
    if Neighbours(s.data, p) == {} {
      forall x | x in keys ensures p !in Component(s.data, x) {
        UnlinkedIsOutside(s.data, x, p);
      }
    } else {
      ComponentIsClosed(s.data, k);
      assert p in Neighbours(s.data, k);
    }
  }

  /** Exactly what such a delete drops: every entry that can be reached from one of the keys. */
  lemma {:induction false} DeleteDropsTheReachable(s: State, keys: seq<string>, p: string)
    requires forall x <- keys :: x !in s.local
    ensures p in DeletedAll(s, keys).local <==> p in s.local && forall k <- keys :: p !in Component(s.data, k)
    decreases |keys|
  {
    if keys != [] {
      var r := Deleted(s, keys[0]);
      assert forall x <- keys[1..] :: x in keys;
      DeleteDropsTheReachable(r, keys[1..], p);
      forall k | k in keys[1..] && p !in Component(s.data, keys[0])
        ensures p in Component(r.data, k) <==> p in Component(s.data, k)
      {
        ComponentWithout(s.data, keys[0], k);
        var gone := Component(s.data, keys[0]);
        assert p in gone + Component(r.data, k) <==> p in gone + Component(s.data, k);
      }
      assert forall k <- keys :: k == keys[0] || k in keys[1..];
    }
  }

  /** The qualification is needed, whatever the keys: when two entries share a key, evicting one
      and then deleting the key leaves the other cached until the goroutine has run. */
  lemma EvictionOutrunsDelete(s: State, p: string, q: string, k: string)
    requires p in s.local && q in s.local && p != q && k !in s.local
    requires k in Neighbours(s.data, p) && q in Neighbours(s.data, k)
    ensures var r := Deleted(Evicted(s, p), k); q in r.local && q in r.owed
  {
    ComponentIsClosed(s.data, p);
    OthersKeepLinks(s.data, p, k);
    LonelyComponent(s.data - Component(s.data, p), k);
  }

  /** Two misses that share a link leave what EvictionOutrunsDelete starts from, unless the second
      one pushes out something tied to the first: the link ties both entries, and they it. */
  lemma MissesShareTheirLink(s: State, p: string, ps: set<string>, v: Option<string>,
                             q: string, qs: set<string>, u: Option<string>, k: string)
    requires k in ps && k in qs && p != q && k !in s.local + {p, q}
    requires (v.Some? ==> v.value != p) && (u.Some? ==> u.value != q)
    requires u.Some? ==> p !in Component(Begun(s, p, ps, v).data, u.value)
    ensures var r := Begun(Begun(s, p, ps, v), q, qs, u);
      p in r.local && q in r.local && k !in r.local && k in Neighbours(r.data, p) && q in Neighbours(r.data, k)
  {
  }

  /** The state is reached from an empty cache: two lookups that share a key, an eviction of the
      first entry by a third lookup, and a delete of the shared key leave the second entry cached. */
  lemma EvictionOutrunsDeleteFromStart(p: string, q: string, r: string,
                                      k: string, i: string, j: string, rs: set<string>)
    requires p != q && q != r && r != p && {p, q, r} !! {k, i, j} + rs
    ensures var three := Begun(TwoEntries(p, q, k, i, j), r, rs, Some(p));
      var end := Deleted(three, k);
      q in end.local && q in end.owed
  {
    var two := TwoEntries(p, q, k, i, j);
    TwoEntriesAreOne(p, q, k, i, j);
    assert Inserted(two, r, Some(p)).data == map[];
    var three := Begun(two, r, rs, Some(p));
    assert three.data == Tied(map[], r, rs);
    UnlinkedIsOutside(three.data, k, q);
  }

  /** Two entries that share one of their two links, as lookups on an empty cache leave them. */
  ghost function TwoEntries(p: string, q: string, k: string, i: string, j: string): State {
    Begun(Begun(EMPTY, p, {k, i}, None), q, {k, j}, None)
  }

  lemma TwoEntriesAreOne(p: string, q: string, k: string, i: string, j: string)
    requires p != q && {p, q} !! {k, i, j}
    ensures TwoEntries(p, q, k, i, j).local == {p, q}
    ensures TwoEntries(p, q, k, i, j).data.Keys <= Component(TwoEntries(p, q, k, i, j).data, p)
    ensures q in Component(TwoEntries(p, q, k, i, j).data, p)
  {
    var first, t := Tied(map[], p, {k, i}), TwoEntries(p, q, k, i, j).data;
    ComponentIsClosed(t, p);
    assert first.Keys == {p, k, i} && t.Keys == {p, k, i, q, j};
    assert k in Neighbours(t, p) && i in Neighbours(t, p);
    assert q in Neighbours(t, k) && j in Neighbours(t, q);
  }

  /** A lookup that misses again ties its entry again, so a delete drops it at once, whatever an
      older eviction still owes. */
  lemma RefetchedEntryIsDropped(s: State, key: string, links: set<string>, victim: Option<string>, k: string)
    requires k in links && k !in s.local + {key} && (victim.Some? ==> victim.value != key)
    ensures key in Begun(s, key, links, victim).local
    ensures key !in Deleted(Begun(s, key, links, victim), k).local
  {
    var r := Begun(s, key, links, victim);
    TyingAdds(Inserted(s, key, victim).data, key, links, k);
    ComponentIsClosed(r.data, k);
  }

  /** One cached slot: the fill that made it, and its value once that fill is done. */
  datatype Slot<V> = Slot(token: nat, value: Option<V>)

  /** The lookup that put this entry in has not tied it yet. */
  predicate IsRaw<V>(local: map<string, Slot<V>>, opening: map<nat, string>, p: string) {
    p in local && local[p].token in opening && opening[local[p].token] == p
  }

  class Cache<V> {
    const link: Link
    var local: map<string, Slot<V>>
    var pending: seq<Batch>
    var opening: map<nat, string>
    ghost var deps: Deps

    constructor ()
      ensures fresh(link) && local == map[] && pending == [] && opening == map[] && deps == map[] && Valid()
    {
      link := new Link();
      local, pending, opening, deps := map[], [], map[], map[];
      new;
      forall x, y ensures Meant(link.data, deps, x, y) {}
      forall p ensures Whole(link.data, deps, p) {}
      forall p ensures Anchored(View(), deps, p) {}
    }

    ghost function View(): State
      reads this, link
    {
      State(local.Keys, link.data, Owed(pending), set p | p in local && IsRaw(local, opening, p))
    }

    /** The table and the entries are in order, and what is not tied yet has not been fetched. */
    ghost predicate Valid()
      reads this, link
    {
      && Orderly(View(), deps)
      && (forall p {:trigger local[p]} :: IsRaw(local, opening, p) ==> local[p].value.None?)
      && (forall t <- opening :: opening[t] in deps)
    }

    /** The eviction callback: takes everything tied to the key out of the table and starts a
        goroutine for it. The entry itself is already gone. */
    method OnEvict(key: string)
      modifies this`pending, link
      ensures link.data == old(link.data) - Component(old(link.data), key)
      ensures Owed(pending) == Owed(old(pending)) + (Component(old(link.data), key) - {key})
      ensures old(pending) <= pending
    {
      var lks := link.Del(key);
      ComponentIsClosed(old(link.data), key);
      OwedGrows(pending, Batch(key, lks));
      if |lks| > 0 {
        pending := pending + [Batch(key, lks)];
      }
    }

    /** Removing one entry runs the callback exactly when the entry was there. */
    method LocalDel(key: string)
      modifies this`local, this`pending, link
      ensures local == old(local) - {key} && View() == Evicted(old(View()), key) && old(pending) <= pending
    {
      ghost var s := View();
      if key in local {
        local := local - {key};
        OnEvict(key);
      }
      assert local.Keys == s.local - {key} && View().raw == s.raw - {key};
    }

    method DelOne(key: string)
      modifies this`local, this`pending, link
      ensures View() == Deleted(old(View()), key)
      ensures forall k <- local :: k in old(local) && local[k] == old(local)[k]
    {
      ghost var s := View();
      LocalDel(key);
      ghost var mid := View();
      OthersKeepLinks(s.data, key, key);
      ComponentIsClosed(s.data, key);
      if key in s.local {
        LonelyComponent(mid.data, key);
      }
      var gone := link.Del(key);
      DelEach(gone);
      assert View().raw == mid.raw - gone;
    }

    /** The loop over what the table returned: these keys have no links any more, so each
        removal is the end of it. */
    method DelEach(gone: set<string>)
      requires gone !! link.data.Keys
      modifies this`local, this`pending, link
      ensures local == old(local) - gone && link.data == old(link.data) && Owed(pending) == Owed(old(pending))
    {
      ghost var t := link.data;
      var rest := gone;
      while rest != {}
        invariant rest <= gone && link.data == t && Owed(pending) == Owed(old(pending))
        invariant local == old(local) - (gone - rest)
        decreases rest
      {
        var lk :| lk in rest;
        LonelyComponent(t, lk);
        assert t - {lk} == t;
        LocalDel(lk);
        rest := rest - {lk};
      }
    }

    method Del(keys: seq<string>)
      requires Valid()
      modifies this`local, this`pending, link
      ensures Valid() && View() == DeletedAll(old(View()), keys)
      ensures forall k <- local :: k in old(local) && local[k] == old(local)[k]
    {
      DeletedAllStaysOrderly(View(), deps, keys);
      ghost var goal := DeletedAll(View(), keys);
      var i := 0;
      while i < |keys|
        invariant 0 <= i <= |keys| && DeletedAll(View(), keys[i..]) == goal
        invariant forall k <- local :: k in old(local) && local[k] == old(local)[k]
      {
        assert keys[i..][1..] == keys[i + 1..];
        DelOne(keys[i]);
        i := i + 1;
      }
    }

    /** A goroutine started by an eviction runs: the entries it was handed are gone after it. */
    method RunBatch(i: nat)
      requires Valid() && i < |pending|
      modifies this`local, this`pending, link
      ensures Valid() && local == old(local) - (old(pending)[i].keys - {old(pending)[i].src})
      ensures old(pending)[..i] + old(pending)[i + 1..] <= pending
    {
      var batch := pending[i];
      var rest := batch.keys - {batch.src};
      while rest != {}
        invariant rest <= batch.keys - {batch.src} && Orderly(View(), deps)
        invariant local == old(local) - (batch.keys - {batch.src} - rest) && old(pending) <= pending
        decreases rest
      {
        var k :| k in rest;
        EvictedStaysOrderly(View(), deps, k);
        LocalDel(k);
        rest := rest - {k};
      }
      ghost var s := View();
      OwedWithout(pending, i);
      pending := pending[..i] + pending[i + 1..];
      assert View() == s.(owed := Owed(pending));
      forall p ensures Anchored(View(), deps, p) {
        assert Anchored(s, deps, p);
      }
    }

    /** The first half of a lookup that misses: the new entry, and the one that it may push out. */
    method Insert(key: string, ghost links: set<string>, token: nat, victim: Option<string>)
      requires Valid() && (victim.Some? ==> victim.value != key) && token !in opening
      requires Separate(deps[key := links]) && (key in deps ==> deps[key] == links)
      modifies this, link
      ensures Valid() && key in local && local[key] == Slot(token, None)
      ensures View() == Inserted(old(View()), key, victim)
      ensures deps == old(deps)[key := links] && opening == old(opening)[token := key]
    {
      InsertedStaysOrderly(View(), deps, key, links, victim);
      Put(key, links, token);
      if victim.Some? {
        LocalDel(victim.value);
      }
    }

    method Put(key: string, ghost links: set<string>, token: nat)
      requires token !in opening
      modifies this`local, this`opening, this`deps
      ensures local == old(local)[key := Slot(token, None)] && opening == old(opening)[token := key]
      ensures deps == old(deps)[key := links]
      ensures var s := old(View()); View() == s.(local := s.local + {key}, raw := s.raw + {key})
    {
      ghost var s := View();
      opening := opening[token := key];
      local := local[key := Slot(token, None)];
      deps := deps[key := links];
      assert View().local == s.local + {key} && View().raw == s.raw + {key};
    }

    /** The second half: the lookup ties its key, whatever has become of its entry by then, and only
        now goes on to fetch. */
    method Tie(token: nat, links: seq<string>)
      requires Valid() && token in opening && deps[opening[token]] == set l | l in links
      modifies this`opening, link
      ensures Valid() && opening == old(opening) - {token}
      ensures var key := old(opening)[token];
        View() == Bound(old(View()), key, deps[key], key in local && local[key].token == token)
    {
      ghost var s, key := View(), opening[token];
      ghost var own := key in local && local[key].token == token;
      BoundStaysOrderly(s, deps, key, own);
      link.Tie(opening[token], links);
      opening := opening - {token};
      assert View().raw == if own then s.raw - {key} else s.raw;
    }

    /** A lookup that misses, with nothing in between its two halves. */
    method Begin(key: string, links: seq<string>, token: nat, victim: Option<string>)
      requires Valid() && (victim.Some? ==> victim.value != key) && token !in opening
      requires var want := set l | l in links; Separate(deps[key := want]) && (key in deps ==> deps[key] == want)
      modifies this, link
      ensures Valid() && key in local && local[key] == Slot(token, None) && opening == old(opening)
      ensures View() == Begun(old(View()), key, (set l | l in links), victim)
      ensures deps == old(deps)[key := set l | l in links]
    {
      Insert(key, (set l | l in links), token, victim);
      Tie(token, links);
      assert opening == old(opening);
    }

    /** The fetch returns, of a lookup that has tied its key: its value is kept only if its own
        placeholder is still there. */
    method Finish(key: string, token: nat, value: V)
      requires Valid() && token !in opening
      modifies this`local
      ensures Valid() && View() == old(View())
      ensures local == if key in old(local) && old(local)[key].token == token
                       then old(local)[key := Slot(token, Some(value))] else old(local)
    {
      ghost var s := View();
      if key in local && local[key].token == token {
        local := local[key := Slot(token, Some(value))];
      }
      assert local.Keys == s.local && View().raw == s.raw;
    }
  }

  lemma OwedWithout(pending: seq<Batch>, i: nat)
    requires i < |pending|
    ensures Owed(pending) == Owed(pending[..i] + pending[i + 1..]) + (pending[i].keys - {pending[i].src})
  {
    var less := pending[..i] + pending[i + 1..];
    forall b | b in pending ensures b == pending[i] || b in less {
      var j :| 0 <= j < |pending| && pending[j] == b;
      if j < i {
        assert less[j] == b;
      } else if j > i {
        assert less[j - 1] == b;
      }
    }
  }
}
