/** Two strings joined by a separator, and when two joins give one string. */
module Joins {

  function Joined(sep: char, x: string, y: string): string {
    x + [sep] + y
  }

  /** One string split at two separators: the longer head holds the shorter one and a middle piece. */
  predicate Overlaps(sep: char, x: string, y: string, u: string, v: string, w: string) {
    u == Joined(sep, x, w) && y == Joined(sep, w, v)
  }

  lemma Regroup(sep: char, x: string, w: string, v: string)
    ensures Joined(sep, x, Joined(sep, w, v)) == Joined(sep, Joined(sep, x, w), v)
  {
  }

  lemma ShorterHead(sep: char, x: string, y: string, u: string, v: string)
    requires |x| <= |u| && Joined(sep, x, y) == Joined(sep, u, v)
    ensures (x == u && y == v) || exists w :: Overlaps(sep, x, y, u, v, w)
  {
    var whole := Joined(sep, x, y);
    assert u == whole[..|u|] && v == whole[|u| + 1..];
    assert x == whole[..|x|] && y == whole[|x| + 1..];
    if |x| < |u| {
      var w := u[|x| + 1..];
      assert u[|x|] == whole[|x|] == sep;
      assert u == Joined(sep, x, w) && whole[|u|] == sep;
      Regroup(sep, x, w, v);
      assert y == Joined(sep, w, v);
      assert Overlaps(sep, x, y, u, v, w);
    }
  }

  /** Exactly when two joins of any strings are equal: the same parts, or parts that overlap across
      a separator. */
  lemma JoinsAgree(sep: char, x: string, y: string, u: string, v: string)
    ensures Joined(sep, x, y) == Joined(sep, u, v) <==>
      || (x == u && y == v)
      || (exists w :: Overlaps(sep, x, y, u, v, w) || Overlaps(sep, u, v, x, y, w))
  {
    if Joined(sep, x, y) == Joined(sep, u, v) {
      if |x| <= |u| { ShorterHead(sep, x, y, u, v); } else { ShorterHead(sep, u, v, x, y); }
    }
    forall w | Overlaps(sep, x, y, u, v, w) || Overlaps(sep, u, v, x, y, w)
      ensures Joined(sep, x, y) == Joined(sep, u, v)
    {
      if Overlaps(sep, x, y, u, v, w) { Regroup(sep, x, w, v); } else { Regroup(sep, u, w, y); }
    }
  }

  /** Heads without the separator never overlap. */
  lemma CleanJoinsAgree(sep: char, x: string, y: string, u: string, v: string)
    requires sep !in x && sep !in u
    ensures Joined(sep, x, y) == Joined(sep, u, v) <==> x == u && y == v
  {
    JoinsAgree(sep, x, y, u, v);
    forall w ensures !Overlaps(sep, x, y, u, v, w) && !Overlaps(sep, u, v, x, y, w) {
      assert Joined(sep, x, w)[|x|] == sep && Joined(sep, u, w)[|u|] == sep;
    }
  }
}
