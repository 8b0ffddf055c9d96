/** The text of a presence change: platform ids and the user id, joined by ':'. */
module PresencePayload {
  import opened Wrappers
  import opened Decimal

  const SEPARATOR := ':'

  /** strings.Join(parts, ":") */
  function Join(parts: seq<string>): string {
    if parts == [] then ""
    else if |parts| == 1 then parts[0]
    else parts[0] + [SEPARATOR] + Join(parts[1..])
  }

  /** strings.Split(text, ":") */
  function Split(text: string): (parts: seq<string>)
    ensures parts != []
  {
    if text == "" then [""]
    else
      var rest := Split(text[1..]);
      if text[0] == SEPARATOR then [""] + rest
      else [[text[0]] + rest[0]] + rest[1..]
  }

  predicate Clean(part: string) {
    SEPARATOR !in part
  }

  /** Splitting never leaves a separator in a part. */
  lemma {:induction false} SplitIsClean(text: string)
    ensures forall p <- Split(text) :: Clean(p)
  {
    if text != "" {
      var rest := Split(text[1..]);
      SplitIsClean(text[1..]);
      assert Clean(rest[0]);
      forall p | p in Split(text) ensures Clean(p) {
        if p !in rest && text[0] != SEPARATOR {
          assert p == [text[0]] + rest[0];
        }
      }
    }
  }

  lemma {:induction false} SplitClean(part: string)
    requires Clean(part)
    ensures Split(part) == [part]
  {
    if part != "" {
      assert part[0] in part && forall c <- part[1..] :: c in part;
      SplitClean(part[1..]);
      assert [part[0]] + part[1..] == part;
    }
  }

  lemma {:induction false} SplitFirst(part: string, rest: string)
    requires Clean(part)
    ensures Split(part + [SEPARATOR] + rest) == [part] + Split(rest)
  {
    var text := part + [SEPARATOR] + rest;
    if part == "" {
      assert text[1..] == rest;
    } else {
      assert part[0] in part && forall c <- part[1..] :: c in part;
      assert text[1..] == part[1..] + [SEPARATOR] + rest;
      SplitFirst(part[1..], rest);
      assert [part[0]] + part[1..] == part;
    }
  }

  /** Split undoes Join on clean parts. */
  lemma {:induction false} SplitJoin(parts: seq<string>)
    requires parts != [] && forall p <- parts :: Clean(p)
    ensures Split(Join(parts)) == parts
  {
    if |parts| == 1 {
      SplitClean(parts[0]);
    } else {
      SplitJoin(parts[1..]);
      SplitFirst(parts[0], Join(parts[1..]));
    }
  }

  /** The conversion int32(x) of a 64-bit integer: the low 32 bits, signed. */
  function ToInt32(x: int): int32 {
    (x + 0x8000_0000) % 0x1_0000_0000 - 0x8000_0000
  }

  /** Atoi and int32() on every part, or nothing if some part is no number. */
  function Numbers(parts: seq<string>): Option<seq<int32>> {
    if parts == [] then Some([])
    else
      var rest := Numbers(parts[..|parts| - 1]);
      var last := Atoi(parts[|parts| - 1]);
      if rest.None? || last.None? then None else Some(rest.value + [ToInt32(last.value)])
  }

  function Texts(ids: seq<int32>): (texts: seq<string>)
    ensures |texts| == |ids|
  {
    seq(|ids|, i requires 0 <= i < |ids| => Format(ids[i]))
  }

  function Payload(ids: seq<int32>, user: string): string {
    Join(Texts(ids) + [user])
  }

  /** What a payload says, if it says anything. */
  function Parsed(payload: string): Option<(string, seq<int32>)> {
    var parts := Split(payload);
    var user := parts[|parts| - 1];
    var ids := Numbers(parts[..|parts| - 1]);
    if user == "" || ids.None? then None else Some((user, ids.value))
  }

  lemma Int32Survives(n: int32)
    ensures Atoi(Format(n)) == Some(n) && ToInt32(n) == n
  {
    AtoiFormat(n);
  }

  lemma NumbersAppend(parts: seq<string>, ids: seq<int32>, last: string, n: int32)
    requires Numbers(parts) == Some(ids) && Atoi(last) == Some(n) && ToInt32(n) == n
    ensures Numbers(parts + [last]) == Some(ids + [n])
  {
    assert (parts + [last])[..|parts|] == parts;
  }

  lemma {:induction false} NumbersOfTexts(ids: seq<int32>)
    ensures Numbers(Texts(ids)) == Some(ids)
    decreases |ids|
  {
    if ids != [] {
      var front, last := ids[..|ids| - 1], ids[|ids| - 1];
      assert ids == front + [last];
      NumbersOfTexts(front);
      TextsAppend(front, last);
      Int32Survives(last);
      NumbersAppend(Texts(front), front, Format(last), last);
    }
  }

  lemma TextsAppend(front: seq<int32>, last: int32)
    ensures Texts(front + [last]) == Texts(front) + [Format(last)]
  {
  }

  /** A payload is read back as it was meant, for every list of platforms, the empty one
      included, exactly when the user id is not empty and holds no ':'. */
  lemma PayloadRoundTrip(ids: seq<int32>, user: string)
    ensures Parsed(Payload(ids, user)) == Some((user, ids)) <==> user != "" && Clean(user)
  {
    var payload := Payload(ids, user);
    SplitIsClean(payload);
    if Clean(user) {
      var parts := Texts(ids) + [user];
      forall p | p in parts ensures Clean(p) {
        if p in Texts(ids) {
          var i :| 0 <= i < |ids| && p == Format(ids[i]);
          FormatHasNoColon(ids[i]);
        }
      }
      SplitJoin(parts);
      assert parts[..|parts| - 1] == Texts(ids);
      NumbersOfTexts(ids);
    }
  }

  /** A list of parts is refused exactly when some part is no number, and otherwise gives the low 32
      bits of each number, in order. */
  lemma {:induction false} NumbersAreRead(parts: seq<string>)
    ensures Numbers(parts).None? <==> exists i :: 0 <= i < |parts| && Atoi(parts[i]).None?
    ensures Numbers(parts).Some? ==> |Numbers(parts).value| == |parts|
    ensures Numbers(parts).Some? ==> forall i :: 0 <= i < |parts| ==> ReadAs(parts[i], Numbers(parts).value[i])
    decreases |parts|
  {
    if parts != [] {
      var front, last := parts[..|parts| - 1], parts[|parts| - 1];
      NumbersAreRead(front);
      assert forall i :: 0 <= i < |front| ==> front[i] == parts[i];
      if Atoi(last).Some? { LowBits(Atoi(last).value); }
      if Numbers(parts).Some? {
        var ids := Numbers(front).value;
        assert Numbers(parts).value == ids + [ToInt32(Atoi(last).value)];
        forall i | 0 <= i < |parts| ensures ReadAs(parts[i], Numbers(parts).value[i]) {
          if i < |front| { assert ReadAs(front[i], ids[i]); }
        }
      }
    }
  }

  /** The part is a number with these low 32 bits. */
  predicate ReadAs(part: string, id: int32) {
    Atoi(part).Some? && (Atoi(part).value - id) % 0x1_0000_0000 == 0
  }

  lemma LowBits(x: int)
    ensures (x - ToInt32(x)) % 0x1_0000_0000 == 0
  {
  }

  /** A payload is refused exactly when it ends in nothing or in ':', or some part before the last
      ':' is no number; otherwise the user is what follows the last ':'. */
  lemma PayloadIsRead(payload: string)
    ensures var parts := Split(payload); var n := |parts| - 1;
      && (Parsed(payload).None? <==> parts[n] == "" || exists i :: 0 <= i < n && Atoi(parts[i]).None?)
      && (Parsed(payload).Some? ==> Parsed(payload).value.0 == parts[n] && |Parsed(payload).value.1| == n)
      && (Parsed(payload).Some? ==> forall i :: 0 <= i < n ==> ReadAs(parts[i], Parsed(payload).value.1[i]))
  {
    var parts := Split(payload);
    var n := |parts| - 1;
    NumbersAreRead(parts[..n]);
    assert forall i :: 0 <= i < n ==> parts[..n][i] == parts[i];
  }

  lemma {:induction false} BadPrefix(parts: seq<string>, k: nat)
    requires k <= |parts| && Numbers(parts[..k]).None?
    ensures Numbers(parts).None?
    decreases |parts| - k
  {
    if k < |parts| {
      assert parts[..k + 1][..k] == parts[..k];
      BadPrefix(parts, k + 1);
    } else {
      assert parts[..k] == parts;
    }
  }

  /** Go's Parse, stopping at the first part that is no number. */
  method Parse(payload: string) returns (r: Option<(string, seq<int32>)>)
    ensures r == Parsed(payload)
  {
    var parts := Split(payload);
    if |parts| == 0 || parts[|parts| - 1] == "" {
      return None;
    }
    var user := parts[|parts| - 1];
    var body := parts[..|parts| - 1];
    var ids := ParseAll(body);
    r := if ids.None? then None else Some((user, ids.value));
  }

  /** The conversion loop that Parse and the readers of a sorted set share. */
  method ParseAll(body: seq<string>) returns (r: Option<seq<int32>>)
    ensures r == Numbers(body)
  {
    var ids: seq<int32> := [];
    for i := 0 to |body|
      invariant Numbers(body[..i]) == Some(ids)
    {
      NumbersPrefix(body, i);
      var id := Atoi(body[i]);
      if id.None? {
        BadPrefix(body, i + 1);
        return None;
      }
      ids := ids + [ToInt32(id.value)];
    }
    assert body[..|body|] == body;
    return Some(ids);
  }

  lemma NumbersPrefix(parts: seq<string>, i: nat)
    requires i < |parts| && Numbers(parts[..i]).Some?
    ensures Numbers(parts[..i + 1]) ==
      if Atoi(parts[i]).None? then None else Some(Numbers(parts[..i]).value + [ToInt32(Atoi(parts[i]).value)])
  {
    assert parts[..i + 1][..i] == parts[..i];
  }
}
