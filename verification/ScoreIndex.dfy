/** Members of a sorted set and the replies of range reads over their scores. */
module ScoreIndex {

  type Scores = map<string, int>

  function Overdue(z: Scores, limit: int): set<string> {
    set c | c in z && z[c] <= limit
  }

  function AtLeast(z: Scores, min: int): set<string> {
    set c | c in z && min <= z[c]
  }

  /** The first `count` of these members by ascending score; ties come in any order. */
  ghost predicate Picks(z: Scores, due: set<string>, count: nat, ids: seq<string>) {
    && due <= z.Keys
    && (forall c <- ids :: c in due)
    && (forall i, j :: 0 <= i < j < |ids| ==> ids[i] != ids[j] && z[ids[i]] <= z[ids[j]])
    && |ids| == (if |due| <= count then |due| else count)
    && (forall c <- ids, d <- due :: d !in ids ==> z[c] <= z[d])
  }

  /** A reply of ZRANGEBYSCORE -inf limit LIMIT 0 count. */
  ghost predicate Range(z: Scores, limit: int, count: nat, ids: seq<string>) {
    Picks(z, Overdue(z, limit), count, ids)
  }

  /** A reply of ZRANGE 0 -1: every member once, by ascending score. */
  ghost predicate Enumerates(z: Scores, ids: seq<string>) {
    && (forall c :: c in ids <==> c in z)
    && (forall i, j :: 0 <= i < j < |ids| ==> ids[i] != ids[j] && z[ids[i]] <= z[ids[j]])
  }

  lemma {:induction false} LowestExists(z: Scores, rest: set<string>)
    requires rest != {} && rest <= z.Keys
    ensures exists c :: c in rest && forall d <- rest :: z[c] <= z[d]
  {
    var c :| c in rest;
    if rest != {c} {
      LowestExists(z, rest - {c});
      var m :| m in rest - {c} && forall d <- rest - {c} :: z[m] <= z[d];
      if z[m] <= z[c] {
        assert forall d <- rest :: z[m] <= z[d];
      } else {
        assert forall d <- rest :: z[c] <= z[d];
      }
    } else {
      assert forall d <- rest :: z[c] <= z[d];
    }
  }

  lemma {:induction false} DistinctCount(ids: seq<string>)
    requires forall i, j :: 0 <= i < j < |ids| ==> ids[i] != ids[j]
    ensures |set c | c in ids| == |ids|
  {
    if ids != [] {
      DistinctCount(ids[1..]);
      assert (set c | c in ids) == {ids[0]} + set c | c in ids[1..];
    }
  }

  lemma {:induction false} SubsetSize<T>(small: set<T>, large: set<T>)
    requires small <= large
    ensures |small| <= |large|
  {
    if x :| x in small {
      SubsetSize(small - {x}, large - {x});
    }
  }

  /** Takes the lowest score left, again and again, so a reply always exists. */
  method Lowest(z: Scores, due: set<string>, count: nat) returns (ids: seq<string>)
    requires due <= z.Keys
    ensures Picks(z, due, count, ids)
  {
    var rest := due;
    ids := [];
    while |ids| < count && rest != {}
      invariant forall c :: c in due <==> c in ids || c in rest
      invariant forall c <- ids :: c !in rest
      invariant forall i, j :: 0 <= i < j < |ids| ==> ids[i] != ids[j] && z[ids[i]] <= z[ids[j]]
      invariant |rest| == |due| - |ids| && |ids| <= count
      invariant forall c <- ids, d <- rest :: z[c] <= z[d]
      decreases rest
    {
      LowestExists(z, rest);
      var c :| c in rest && forall d <- rest :: z[c] <= z[d];
      ids := ids + [c];
      rest := rest - {c};
    }
  }

  /** Picking as many as there are leaves nothing out. */
  lemma PicksAll(z: Scores, ids: seq<string>)
    requires Picks(z, z.Keys, |z.Keys|, ids)
    ensures Enumerates(z, ids)
  {
    DistinctCount(ids);
    var seen := set c | c in ids;
    var gap := z.Keys - seen;
    assert |gap| == |z.Keys| - |seen|;
    assert gap == {} && z.Keys == seen + gap;
  }
}
