/** The table that ties cached keys to each other. Deleting a key takes away everything
    reachable from it, found with an explicit stack. */
module LinkTable {

  type Table = map<string, set<string>>

  function Neighbours(t: Table, k: string): set<string> {
    if k in t then t[k] else {}
  }

  function Nodes(t: Table): set<string> {
    t.Keys + set k, n | k in t && n in t[k] :: n
  }

  ghost predicate Closed(t: Table, s: set<string>) {
    forall k, n {:trigger k in s, n in Neighbours(t, k)} :: k in s && n in Neighbours(t, k) ==> n in s
  }

  /** x belongs to every closed set that contains k, that is, x can be reached from k. */
  ghost predicate Reached(t: Table, k: string, x: string) {
    forall s: set<string> {:trigger Closed(t, s)} :: k in s && Closed(t, s) ==> x in s
  }

  /** The least closed set around k. */
  ghost function Component(t: Table, k: string): set<string> {
    set x | x in Nodes(t) + {k} && Reached(t, k, x)
  }

  lemma NeighbourIsNode(t: Table, k: string, n: string)
    requires n in Neighbours(t, k)
    ensures n in Nodes(t)
  {
  }

  lemma ReachOn(t: Table, k: string, x: string, n: string)
    requires Reached(t, k, x) && n in Neighbours(t, x)
    ensures Reached(t, k, n)
  {
    forall s: set<string> | k in s && Closed(t, s) ensures n in s {
      assert x in s;
    }
  }

  lemma ComponentIsClosed(t: Table, k: string)
    ensures k in Component(t, k) && Closed(t, Component(t, k))
  {
    forall x, n | x in Component(t, k) && n in Neighbours(t, x) ensures n in Component(t, k) {
      ReachOn(t, k, x, n);
      NeighbourIsNode(t, x, n);
    }
  }

  /** A closed set around k whose members can all be reached from k is the component. */
  lemma IsComponent(t: Table, k: string, s: set<string>)
    requires k in s && Closed(t, s) && forall x <- s :: x in Nodes(t) + {k} && Reached(t, k, x)
    ensures s == Component(t, k)
  {
    forall x | x in Component(t, k) ensures x in s {
      assert Reached(t, k, x);
    }
  }

  /** A key without links is a component of its own. */
  lemma LonelyComponent(t: Table, k: string)
    requires Neighbours(t, k) == {}
    ensures Component(t, k) == {k}
  {
    assert Closed(t, {k});
    IsComponent(t, k, {k});
  }

  /** A key that nothing links to is in no component but its own. */
  lemma UnlinkedIsOutside(t: Table, k: string, x: string)
    requires x != k && forall y :: x !in Neighbours(t, y)
    ensures x !in Component(t, k)
  {
    ComponentIsClosed(t, k);
    assert Closed(t, Component(t, k) - {x});
  }

  /** Removing one component takes nothing from another key's component but what they share. */
  lemma ComponentWithout(t: Table, k: string, j: string)
    ensures Component(t, k) + Component(t - Component(t, k), j) == Component(t, k) + Component(t, j)
  {
    var gone := Component(t, k);
    var less := t - gone;
    ComponentIsClosed(t, k);
    ComponentIsClosed(t, j);
    ComponentIsClosed(less, j);
    assert Closed(less, Component(t, j)) by {
      forall x, n | x in Component(t, j) && n in Neighbours(less, x) ensures n in Component(t, j) {
        OthersKeepLinks(t, k, x);
      }
    }
    assert Closed(t, gone + Component(less, j)) by {
      forall x, n | x in gone + Component(less, j) && n in Neighbours(t, x) ensures n in gone + Component(less, j) {
        OthersKeepLinks(t, k, x);
      }
    }
    assert forall x <- Component(less, j) :: Reached(less, j, x);
    assert forall x <- Component(t, j) :: Reached(t, j, x);
  }

  /** Removing a component leaves the links of every other key alone. */
  lemma OthersKeepLinks(t: Table, k: string, d: string)
    ensures Neighbours(t - Component(t, k), d) == if d in Component(t, k) then {} else Neighbours(t, d)
  {
  }

  /** The table after a key was tied to these links, in both directions. */
  function Tied(t: Table, key: string, links: set<string>): Table {
    if links == {} then t
    else
      var f := t[key := Neighbours(t, key) + links];
      map k | k in f.Keys + links :: Neighbours(f, k) + if k in links then {key} else {}
  }

  /** Tying gives the key all the links and each of them the key, and changes nothing else. */
  lemma TyingAdds(t: Table, key: string, links: set<string>, k: string)
    ensures Neighbours(Tied(t, key, links), k) ==
      Neighbours(t, k) + (if k == key then links else {}) + (if k in links then {key} else {})
  {
  }

  /** Every link goes both ways. */
  ghost predicate Symmetric(t: Table) {
    forall x, y {:trigger y in Neighbours(t, x)} :: y in Neighbours(t, x) ==> x in Neighbours(t, y)
  }

  lemma TyingKeepsSymmetry(t: Table, key: string, links: set<string>)
    requires Symmetric(t)
    ensures Symmetric(Tied(t, key, links))
  {
    forall x, y | y in Neighbours(Tied(t, key, links), x) ensures x in Neighbours(Tied(t, key, links), y) {
      TyingAdds(t, key, links, x);
      TyingAdds(t, key, links, y);
    }
  }

  /** A component of a symmetric table takes its links away whole. */
  lemma CuttingKeepsSymmetry(t: Table, k: string)
    requires Symmetric(t)
    ensures Symmetric(t - Component(t, k))
  {
    var c := Component(t, k);
    ComponentIsClosed(t, k);
    forall x, y | y in Neighbours(t - c, x) ensures x in Neighbours(t - c, y) {
      OthersKeepLinks(t, k, x);
      OthersKeepLinks(t, k, y);
    }
  }

  method PushAll(stack: seq<string>, more: set<string>) returns (r: seq<string>)
    ensures forall x :: x in r <==> x in stack || x in more
  {
    r := stack;
    var rest := more;
    while rest != {}
      invariant rest <= more && forall x :: x in r <==> x in stack || x in more - rest
      decreases rest
    {
      var x :| x in rest;
      r, rest := r + [x], rest - {x};
    }
  }

  /** What the search has established: everything seen can be reached, and whatever a finished
      key links to is finished or still on the stack. */
  ghost predicate Searching(t: Table, key: string, gone: set<string>, stack: seq<string>) {
    && (key in gone || key in stack)
    && (forall x :: x in gone || x in stack ==> x in Nodes(t) + {key} && Reached(t, key, x))
    && (forall x, n {:trigger x in gone, n in Neighbours(t, x)} ::
          x in gone && n in Neighbours(t, x) ==> n in gone || n in stack)
  }

  lemma SearchStep(t: Table, key: string, gone: set<string>, stack: seq<string>, curr: string, stack': seq<string>)
    requires Searching(t, key, gone, stack + [curr]) && curr !in gone
    requires forall x :: x in stack' <==> x in stack || x in Neighbours(t, curr)
    ensures Searching(t, key, gone + {curr}, stack')
  {
    assert curr in stack + [curr];
    forall x | x in gone + {curr} || x in stack' ensures x in Nodes(t) + {key} && Reached(t, key, x) {
      if x in Neighbours(t, curr) {
        ReachOn(t, key, curr, x);
        NeighbourIsNode(t, curr, x);
      } else {
        assert x in gone || x in stack + [curr];
      }
    }
    forall x, n | x in gone + {curr} && n in Neighbours(t, x) ensures n in gone + {curr} || n in stack' {
      if x in gone {
        assert n in gone || n in stack + [curr];
      }
    }
  }

  class Link {
    var data: Table

    constructor ()
      ensures data == map[]
    {
      data := map[];
    }

    /** One locked update of one key's set. */
    method Add(key: string, links: set<string>)
      modifies this
      ensures data == old(data)[key := Neighbours(old(data), key) + links]
    {
      data := data[key := Neighbours(data, key) + links];
    }

    method Tie(key: string, links: seq<string>)
      modifies this
      ensures data == Tied(old(data), key, set l | l in links)
    {
      if |links| == 0 {
        return;
      }
      var all := set l | l in links;
      assert links[0] in all;
      Add(key, all);
      ghost var f := data;
      for i := 0 to |links|
        invariant data.Keys == f.Keys + set l | l in links[..i]
        invariant forall k <- data :: data[k] == Neighbours(f, k) + if k in links[..i] then {key} else {}
      {
        Add(links[i], {key});
        assert links[..i + 1] == links[..i] + [links[i]];
      }
      assert links[..|links|] == links;
    }

    /** Takes the set of one key out of the table. */
    method TakeOut(key: string) returns (links: set<string>)
      modifies this
      ensures links == Neighbours(old(data), key) && data == old(data) - {key}
    {
      links := Neighbours(data, key);
      data := data - {key};
    }

    /** Returns everything reachable from the key and forgets all its links. */
    method Del(key: string) returns (gone: set<string>)
      modifies this
      ensures gone == Component(old(data), key) && data == old(data) - gone
    {
      ghost var t := data;
      gone := {};
      var stack := [key];
      while stack != []
        invariant data == t - gone && Searching(t, key, gone, stack)
        decreases (Nodes(t) + {key}) - gone, |stack|
      {
        var curr, below := stack[|stack| - 1], stack[..|stack| - 1];
        assert stack == below + [curr];
        stack := below;
        if curr !in gone {
          assert curr in below + [curr];
          var next := TakeOut(curr);
          stack := PushAll(stack, next);
          SearchStep(t, key, gone, below, curr, stack);
          gone := gone + {curr};
          assert data == t - gone;
        }
      }
      assert Closed(t, gone);
      IsComponent(t, key, gone);
    }
  }
}
