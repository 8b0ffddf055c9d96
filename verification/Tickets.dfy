/** Tickets number the messages or tasks of a queue in the order they were let in. */
module Tickets {
  // The tickets 0, 1, ..., n - 1.
  function Upto(n: nat): seq<nat> {
    if n == 0 then [] else Upto(n - 1) + [n - 1]
  }

  lemma {:induction false} UptoAt(n: nat)
    ensures |Upto(n)| == n
    ensures forall i :: 0 <= i < n ==> Upto(n)[i] == i
  {
    if n > 0 { UptoAt(n - 1); }
  }

  lemma {:induction false} UptoCounts(n: nat, t: nat)
    ensures multiset(Upto(n))[t] == if t < n then 1 else 0
  {
    if n > 0 { UptoCounts(n - 1, t); }
  }

  // Two stretches that make up the tickets so far number them through.
  lemma PartsOfUpto(front: seq<nat>, back: seq<nat>, n: nat, k: nat)
    requires front + back == Upto(n)
    ensures |front| + |back| == n
    ensures k < |front| ==> front[k] == k
    ensures k < |back| ==> back[k] == |front| + k
  {
    UptoAt(n);
    var whole := front + back;
    assert k < |front| ==> front[k] == whole[k];
    assert k < |back| ==> back[k] == whole[|front| + k];
  }
}
