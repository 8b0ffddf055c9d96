/**
 * Conversation ids and queue keys (pkg/msgconv/id.go). Two messages share a queue key exactly
 * when they belong to the same place: the same kind of conversation between the same people.
 */
module ConversationId {
  import opened Joins
  import opened Wrappers

  datatype Msg = Msg(
    sendId: string,
    recvId: string,
    groupId: string,
    sessionType: int,
    options: map<string, bool>)

  const NOT_NOTIFICATION := "isNotNotification"

  // ---- The order of strings ----

  // Go's `<` on strings: byte by byte, a proper prefix first.
  predicate Less(a: string, b: string) {
    b != "" && (a == "" || a[0] < b[0] || (a[0] == b[0] && Less(a[1..], b[1..])))
  }

  lemma {:induction false} LessIsTotal(a: string, b: string)
    ensures a == b || Less(a, b) || Less(b, a)
    ensures !(Less(a, b) && Less(b, a))
    decreases |a|
  {
    if a != "" && b != "" {
      LessIsTotal(a[1..], b[1..]);
      assert a == [a[0]] + a[1..] && b == [b[0]] + b[1..];
    }
  }

  /** What Go's order means: the first byte where two strings differ decides, and a prefix comes first. */
  lemma {:induction false} LessByFirstDifference(a: string, b: string, k: nat)
    requires k <= |a| && k <= |b| && a[..k] == b[..k]
    requires k < |a| && k < |b| ==> a[k] != b[k]
    requires k < |a| || k < |b|
    ensures Less(a, b) <==> k < |b| && (k == |a| || a[k] < b[k])
    decreases k
  {
    if k > 0 && k <= |a| && k <= |b| {
      assert a[0] == a[..k][0] && b[0] == b[..k][0];
      assert a[1..][..k - 1] == a[..k][1..] && b[1..][..k - 1] == b[..k][1..];
      if k < |a| || k < |b| { LessByFirstDifference(a[1..], b[1..], k - 1); }
    }
  }

  // ---- The ids ----

  function JoinSorted(a: string, b: string): string {
    if Less(b, a) then Joined('_', b, a) else Joined('_', a, b)
  }

  function ChatConversationID(msg: Option<Msg>): string {
    if msg.None? then "" else
    var m := msg.value;
    match m.sessionType
    case 1 => "si_" + JoinSorted(m.sendId, m.recvId)
    case 2 => "g_" + m.groupId
    case 3 => "sg_" + m.groupId
    case 4 => "sn_" + JoinSorted(m.sendId, m.recvId)
    case _ => ""
  }

  function NotificationConversationID(msg: Option<Msg>): string {
    if msg.None? then "" else
    var m := msg.value;
    match m.sessionType
    case 1 => "n_" + JoinSorted(m.sendId, m.recvId)
    case 4 => "n_" + JoinSorted(m.sendId, m.recvId)
    case 2 => "n_" + m.groupId
    case 3 => "n_" + m.groupId
    case _ => ""
  }

  // Only an option explicitly set to false makes a notification.
  predicate IsNotification(msg: Option<Msg>) {
    msg.Some? && NOT_NOTIFICATION in msg.value.options && !msg.value.options[NOT_NOTIFICATION]
  }

  function QueueKey(msg: Option<Msg>): string {
    if IsNotification(msg) then NotificationConversationID(msg) else ChatConversationID(msg)
  }

  predicate IsNotificationConversation(conversationID: string): (r: bool)
    ensures r <==> |conversationID| >= 2 && conversationID[0] == 'n' && conversationID[1] == '_'
  {
    "n_" <= conversationID
  }

  function GroupConversationID(groupID: string, super: bool): string {
    if super then "sg_" + groupID else "g_" + groupID
  }

  // ---- Pairs ----

  /** Whichever way two ids are joined, the result is the two in ascending order. */
  lemma JoinSortedIsSymmetric(a: string, b: string)
    ensures JoinSorted(a, b) == JoinSorted(b, a)
    ensures JoinSorted(a, b) == Joined('_', a, b) || JoinSorted(a, b) == Joined('_', b, a)
  {
    LessIsTotal(a, b);
  }

  predicate Plain(id: string) {
    '_' !in id
  }

  /** Ids without underscores: two joins are equal exactly when they join the same two people. */
  lemma PairsKeptApart(a: string, b: string, c: string, d: string)
    requires Plain(a) && Plain(b) && Plain(c) && Plain(d)
    ensures JoinSorted(a, b) == JoinSorted(c, d) <==> {a, b} == {c, d}
  {
    JoinSortedIsSymmetric(a, b);
    JoinSortedIsSymmetric(c, d);
    CleanJoinsAgree('_', a, b, c, d);
    CleanJoinsAgree('_', a, b, d, c);
    CleanJoinsAgree('_', b, a, c, d);
    CleanJoinsAgree('_', b, a, d, c);
    LessIsTotal(a, b);
    LessIsTotal(c, d);
    SamePair(a, b, c, d);
  }

  lemma SamePair(a: string, b: string, c: string, d: string)
    ensures {a, b} == {c, d} <==> (a == c && b == d) || (a == d && b == c)
  {
    if {a, b} == {c, d} {
      assert a in {c, d} && b in {c, d} && c in {a, b} && d in {a, b};
    }
  }

  function Lower(a: string, b: string): string {
    if Less(b, a) then b else a
  }

  function Upper(a: string, b: string): string {
    if Less(b, a) then a else b
  }

  /** Two pairs are cut from one string at two underscores. */
  ghost predicate PairsOverlap(a: string, b: string, c: string, d: string) {
    exists w :: Overlaps('_', Lower(a, b), Upper(a, b), Lower(c, d), Upper(c, d), w)
      || Overlaps('_', Lower(c, d), Upper(c, d), Lower(a, b), Upper(a, b), w)
  }

  /** For any ids: two sorted joins are equal exactly for the same pair of people, or for two pairs
      whose sorted ids overlap across an underscore. */
  lemma JoinSortedAgree(a: string, b: string, c: string, d: string)
    ensures JoinSorted(a, b) == JoinSorted(c, d) <==> {a, b} == {c, d} || PairsOverlap(a, b, c, d)
  {
    var x, y, u, v := Lower(a, b), Upper(a, b), Lower(c, d), Upper(c, d);
    LessIsTotal(a, b);
    LessIsTotal(c, d);
    SamePair(a, b, c, d);
    JoinsAgree('_', x, y, u, v);
  }

  /** An underscore does let two pairs share an id, whatever the pieces, as long as each pair is in
      ascending order as it stands. */
  lemma UnderscoresCollide(x: string, y: string, u: string, v: string, w: string)
    requires Overlaps('_', x, y, u, v, w) && !Less(y, x) && !Less(v, u)
    ensures JoinSorted(x, y) == JoinSorted(u, v) && {x, y} != {u, v}
  {
    Regroup('_', x, w, v);
    SamePair(x, y, u, v);
    assert |u| > |x|;
    if x == v {
      assert u == x + ("_" + w) && "_" == ['_'];
      PrefixComesFirst(x, "_" + w);
    }
  }

  /** A group named like a joined pair shares the id of that pair's notifications. */
  lemma GroupCanLookLikePair(m: Msg)
    ensures NotificationConversationID(Some(m.(sessionType := 1)))
         == NotificationConversationID(Some(m.(sessionType := 2, groupId := JoinSorted(m.sendId, m.recvId))))
  {
  }

  lemma PrefixComesFirst(x: string, rest: string)
    requires rest != ""
    ensures Less(x, x + rest)
  {
    LessByFirstDifference(x, x + rest, |x|);
  }

  // ---- Queue keys ----

  datatype Party = People(ids: set<string>) | Group(id: string)

  // Where a message belongs, said without any string form.
  datatype Place = Nowhere | Chat(sessionType: int, party: Party) | Notice(party: Party)

  predicate IsPair(m: Msg) {
    m.sessionType == 1 || m.sessionType == 4
  }

  function PartyOf(m: Msg): Party {
    if IsPair(m) then People({m.sendId, m.recvId}) else Group(m.groupId)
  }

  function PlaceOf(msg: Option<Msg>): Place {
    if msg.None? || !(1 <= msg.value.sessionType <= 4) then Nowhere
    else if IsNotification(msg) then Notice(PartyOf(msg.value))
    else Chat(msg.value.sessionType, PartyOf(msg.value))
  }

  predicate PlainIds(msg: Option<Msg>) {
    msg.Some? ==> Plain(msg.value.sendId) && Plain(msg.value.recvId) && Plain(msg.value.groupId)
  }

  // What follows the prefix of a key.
  function Suffix(m: Msg): string {
    if IsPair(m) then JoinSorted(m.sendId, m.recvId) else m.groupId
  }

  function Prefix(place: Place): string {
    match place
    case Nowhere => ""
    case Notice(_) => "n_"
    case Chat(t, _) => if t == 1 then "si_" else if t == 2 then "g_" else if t == 3 then "sg_" else "sn_"
  }

  lemma KeyHasTwoParts(msg: Option<Msg>)
    ensures QueueKey(msg) == if PlaceOf(msg) == Nowhere then "" else Prefix(PlaceOf(msg)) + Suffix(msg.value)
  {
  }

  lemma SuffixNamesParty(m: Msg, n: Msg)
    requires PlainIds(Some(m)) && PlainIds(Some(n))
    ensures Suffix(m) == Suffix(n) <==> PartyOf(m) == PartyOf(n)
  {
    PairsKeptApart(m.sendId, m.recvId, n.sendId, n.recvId);
    JoinHasUnderscore(m.sendId, m.recvId);
    JoinHasUnderscore(n.sendId, n.recvId);
  }

  lemma JoinHasUnderscore(a: string, b: string)
    ensures '_' in JoinSorted(a, b)
  {
    assert Joined('_', a, b)[|a|] == '_' && Joined('_', b, a)[|b|] == '_';
  }

  predicate SameKind(p: Place, q: Place)
    requires p != Nowhere && q != Nowhere
  {
    p.Notice? == q.Notice? && (p.Chat? ==> p.sessionType == q.sessionType)
  }

  // No prefix is the beginning of another key.
  lemma PrefixNamesKind(p: Place, q: Place, x: string, y: string)
    requires p != Nowhere && q != Nowhere
    requires p.Chat? ==> 1 <= p.sessionType <= 4
    requires q.Chat? ==> 1 <= q.sessionType <= 4
    ensures Prefix(p) + x == Prefix(q) + y <==> x == y && SameKind(p, q)
  {
    var left, right := Prefix(p) + x, Prefix(q) + y;
    assert left[0] == Prefix(p)[0] && left[1] == Prefix(p)[1];
    assert right[0] == Prefix(q)[0] && right[1] == Prefix(q)[1];
    assert x == left[|Prefix(p)|..] && y == right[|Prefix(q)|..];
  }

  /** Messages with plain ids share a queue key exactly when they belong to the same place. */
  lemma QueueKeyNamesPlace(a: Option<Msg>, b: Option<Msg>)
    requires PlainIds(a) && PlainIds(b)
    ensures QueueKey(a) == QueueKey(b) <==> PlaceOf(a) == PlaceOf(b)
  {
    KeyHasTwoParts(a);
    KeyHasTwoParts(b);
    if PlaceOf(a) != Nowhere && PlaceOf(b) != Nowhere {
      PrefixNamesKind(PlaceOf(a), PlaceOf(b), Suffix(a.value), Suffix(b.value));
      SuffixNamesParty(a.value, b.value);
    }
  }

  /** Two messages of one kind whose ids, different as they are, give one string. */
  ghost predicate Confused(m: Msg, n: Msg) {
    if IsPair(m) && IsPair(n) then PairsOverlap(m.sendId, m.recvId, n.sendId, n.recvId)
    else IsPair(m) != IsPair(n) && Suffix(m) == Suffix(n)
  }

  /** For any ids, nil and unknown session types included: two messages share a queue key exactly
      when they belong to the same place, or are of one kind and their ids are confused across an
      underscore, two pairs with each other or a notified pair with a notified group. */
  lemma QueueKeysAgree(a: Option<Msg>, b: Option<Msg>)
    ensures QueueKey(a) == QueueKey(b) <==>
      || PlaceOf(a) == PlaceOf(b)
      || (PlaceOf(a) != Nowhere && PlaceOf(b) != Nowhere
          && SameKind(PlaceOf(a), PlaceOf(b)) && Confused(a.value, b.value))
  {
    KeyHasTwoParts(a);
    KeyHasTwoParts(b);
    if PlaceOf(a) != Nowhere && PlaceOf(b) != Nowhere {
      var m, n := a.value, b.value;
      PrefixNamesKind(PlaceOf(a), PlaceOf(b), Suffix(m), Suffix(n));
      if IsPair(m) && IsPair(n) {
        JoinSortedAgree(m.sendId, m.recvId, n.sendId, n.recvId);
      }
    }
  }

  /** Sender and receiver can be exchanged, with any ids at all. */
  lemma QueueKeyIsSymmetric(m: Msg)
    ensures QueueKey(Some(m.(sendId := m.recvId, recvId := m.sendId))) == QueueKey(Some(m))
  {
    JoinSortedIsSymmetric(m.sendId, m.recvId);
  }

  /** A key has the notification prefix exactly when it is the key of a notification, with any ids at all. */
  lemma PrefixTellsNotification(msg: Option<Msg>)
    ensures IsNotificationConversation(QueueKey(msg)) <==> IsNotification(msg) && 1 <= msg.value.sessionType <= 4
  {
    KeyHasTwoParts(msg);
    if PlaceOf(msg) != Nowhere {
      var key := QueueKey(msg);
      assert key[0] == Prefix(PlaceOf(msg))[0] && key[1] == Prefix(PlaceOf(msg))[1];
      if IsNotification(msg) { assert key[..2] == "n_"; }
    }
  }

  /** From the options alone: a message of type 1 to 4 has a key with the notification prefix exactly
      when "isNotNotification" is there and false, and every other has the key of its chat id. */
  lemma PrefixFromOptions(m: Msg)
    ensures var key, t := QueueKey(Some(m)), m.sessionType;
      var notice := "isNotNotification" in m.options && !m.options["isNotNotification"];
      && ("n_" <= key <==> 1 <= t <= 4 && notice)
      && (1 <= t <= 4 && !notice ==> key == ChatConversationID(Some(m)))
      && (!(1 <= t <= 4) ==> key == "")
  {
    PrefixTellsNotification(Some(m));
  }

  /** What the keys look like, for two people in ascending order. */
  lemma KeysSpelledOut(m: Msg)
    requires !Less(m.recvId, m.sendId)
    ensures var key, pair := QueueKey(Some(m)), m.sendId + "_" + m.recvId;
      if "isNotNotification" in m.options && !m.options["isNotNotification"] then
        && (m.sessionType == 1 || m.sessionType == 4 ==> key == "n_" + pair)
        && (m.sessionType == 2 || m.sessionType == 3 ==> key == "n_" + m.groupId)
      else
        && (m.sessionType == 1 ==> key == "si_" + pair)
        && (m.sessionType == 2 ==> key == "g_" + m.groupId)
        && (m.sessionType == 3 ==> key == "sg_" + m.groupId)
        && (m.sessionType == 4 ==> key == "sn_" + pair)
    ensures QueueKey(None) == ""
  {
    assert m.sendId + "_" + m.recvId == Joined('_', m.sendId, m.recvId);
  }

  /** The id built from a group and its size class is the one its chat messages get, and names both. */
  lemma GroupIdNamesGroup(m: Msg, super: bool, other: string, otherSuper: bool)
    ensures ChatConversationID(Some(m.(sessionType := if super then 3 else 2))) == GroupConversationID(m.groupId, super)
    ensures GroupConversationID(m.groupId, super) == GroupConversationID(other, otherSuper)
      <==> m.groupId == other && super == otherSuper
  {
    var left, right := GroupConversationID(m.groupId, super), GroupConversationID(other, otherSuper);
    assert left[0] == (if super then 's' else 'g') && right[0] == (if otherSuper then 's' else 'g');
    assert m.groupId == left[if super then 3 else 2..] && other == right[if otherSuper then 3 else 2..];
  }
}
