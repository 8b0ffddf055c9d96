# SuIM: calls, presence, relation caches, queues and conversation ids

This project models the parts of SuIM whose correctness depends on interleaving, expiry and string
layout, and proves what they keep over every run. Check it with `dafny verify dfyconfig.toml`
(Dafny 4.11).

- **The call board** (`pkg/call/call.go`). `CallBoard` is the typed state: per-user busy locks and
  per-call records with deadlines, and a ringing index with scores and no deadline. `CallRuns` steps
  it through every interleaving of invites, endings, answers, the clock and sweepers whose index read
  and per-call timeouts are separate steps. `CallHistory`, `CallReplies`, `CallSweep` and
  `CallSweepRuns` state what callers and sweepers can rely on: which successes a call can have, what
  each request is answered, and what a sweep ends. `CallStore` and `CallScripts` run the Go methods and the six Lua
  scripts, command by command, over one flat string-keyed store (`Redis`), prove that each does what
  its typed step says, and so carry the theorems about runs over to the store. `Decimal` holds the
  hand-written number printer that the sweep bound goes through.
- **Presence** (`pkg/online/online.go`). `Presence` runs the update script on its flat argument
  vector against a two-list specification, `PresencePayload` prints and parses the published payload,
  `PresenceStatus` is the service around both, `PresenceLeases` compares what readers see over whole
  runs with one lease per platform, and `PresenceReplay` follows a gateway that keeps the last payload.
- **Relation caches** (`pkg/relationcache`, `pkg/localcache`). `RelationProtocol` and
  `RelationCoherence` model MySQL, the shared Redis layer, one local layer per process and the delete
  channels as separate interleaved steps; every copy carries the version it was read at, so that
  staleness is a comparison. `RelationOvertaken` runs the one overlap that leaves a stale list.
  `RelationLists` is one process's code, mirrored step by step into that protocol. `LinkTable`,
  `LinkedCache` and `PairCache` are the linked local cache of friend and block checks, with the search
  the link table really runs and the goroutine an eviction starts.
- **Queues** (`pkg/mq/memory.go`, `pkg/webhook/queue.go`). `MemoryPipe` and `WebhookQueue` take the
  mutex sections and the channel operations around them as steps, `MemoryOrder` says exactly when a
  pipe keeps the order of sending, `MemoryProgress` when it can come to rest, and `Tickets` numbers
  what goes in.
- **Conversation ids** (`pkg/msgconv/id.go`). `ConversationId` defines Go's string order and shows
  what a queue key does and does not tell apart; `Joins` says when two joined strings are equal.

What the model takes as given: strings are byte strings (one `char` a byte); there is one clock, in
milliseconds, that never runs back (clients of the presence store may be ahead of it), and a key with
a deadline is there exactly while the clock is below it; a script runs at one instant; a new call id
is well-formed and not in use; Redis keeps messages of one channel in order; a failed Redis call is a
step with a flag.

Results that differ from what one might expect of the code, each with a proof:

- The least 64-bit integer is printed as a bare `-`, so a sweep asked for that instant fails; every
  other instant works (`Decimal.JsonTextRoundTrip`, `CallScripts.Board.Expire`).
- A list that a fill read before a write, and stored after the write's Redis delete, stays in Redis
  and is served from there until it expires or is deleted again
  (`RelationOvertaken.OvertakenFillStaysStale`). Once a key is quiet for a process, this is the only
  way in which its reads can be stale (`RelationCoherence.QuietReadsAreTrueUnlessRaced`).
- When two cached pair results share a user, evicting one and then deleting that user's list key
  leaves the other cached until the eviction's goroutine has run. Three lookups on an empty cache lead
  there (`PairCache.SecondCheckOutlivesDelete`); a delete leaves exactly the results whose own ties an
  eviction has taken or whose lookup has not made them yet (`PairCache.Results.DropLocal`).
- The first subscriber of a memory pipe fills its own channel before it reads, so with more than 256
  messages to take over it never hands out any (`MemoryPipe.SubscriberCanStart`); that is the only way
  in which what is under way cannot be brought to rest (`MemoryProgress.RestCanBeReached`). A message sent
  after it registered can overtake one sent before (`MemoryPipe.BacklogCanBeOvertaken`): exactly when
  a sender reaches it while it still has something to push (`MemoryOrder.CrossedExactlyWhenOvertaken`).
- A presence reader and a presence update in the same second disagree on a platform that expires in
  that second (`PresenceStatus.BoundarySecond`).
- A client that sets a platform online in a second that has not begun at the store gives it a lease
  that its key does not outlive (`PresenceLeases.LeaseLastsUnlessClientIsAhead`).
- Ids with an underscore make conversation ids collide (`ConversationId.UnderscoresCollide`, with
  the exact condition in `ConversationId.QueueKeysAgree`), and ids with a colon make pair keys collide
  (`PairCache.ColonMakesPairsCollide`, exactly as in `PairCache.PairKeysAgree`).
- The comment on `endScript` (`pkg/call/call.go:407`) says that the timeout reuses its body with an
  empty user; the code has a separate timeout script without a user check, and the model follows it.

## Model

| member | source | states |
|---|---|---|
| CallBoard.BusyExactlyWhenParty | pkg/call/call.go:391-469 | a busy key of u names call c exactly when the record of c is live and u is its caller or callee, and then the two deadlines are equal |
| CallBoard.OneCallPerUser | pkg/call/call.go:391-405 | a user is in at most one live call |
| CallBoard.ReleaseFreesOnlyItsOwnLocks | pkg/call/call.go:423-423 | the DEL that checks no owner frees exactly the locks that name this call, and leaves the rest consistent |
| CallBoard.TickKeepsLockstep | pkg/call/call.go:391-405 | record and locks of one call expire at the same instant, so expiry never leaves one without the other |
| CallBoard.InviteKeepsLockstep | pkg/call/call.go:391-405 | an invite, with the rollback of the caller's lock when the callee is busy, keeps locks and records in agreement |
| CallBoard.AcceptKeepsLockstep | pkg/call/call.go:448-469 | an answer moves the three deadlines together and takes no lock from anybody |
| CallRuns.StepKeepsInv | pkg/call/call.go:391-505 | every step, the clock and interleaved sweepers included, keeps locks, records, index scores and pending sweeps consistent |
| CallRuns.Reachable | pkg/call/call.go:391-505 | every state of every run is consistent in that sense |
| CallHistory.SuccessesFollowTheGrammar | pkg/call/call.go:140-163 | over every run the successes for one call are: invite, then at most one of cancel, reject, timeout or accept, then a hangup only after an accept; a live record is at the phase they lead to, and an index entry is left only while the invite alone has succeeded |
| CallHistory.SuccessesReportTheInvite | pkg/call/call.go:309-320 | every success reports the caller, callee and media fixed by the invite, and came from a user entitled to that operation |
| CallHistory.NoSuccessAfterTheEnd | pkg/call/call.go:408-505 | once the record is gone, by an ending or by expiry, nothing succeeds for that call in any continuation |
| CallHistory.NothingElseEndsACall | pkg/call/call.go:408-505 | in every reachable state a record goes exactly by a success that ends the call or by the clock reaching its deadline; only an answer changes it otherwise, to 30 minutes from then |
| CallHistory.UnresolvedCallsRing | pkg/call/call.go:45-47 | over every run the calls that ring are exactly those for which only the invite has succeeded and whose 70 seconds are not over |
| CallHistory.LocksFollowTheirCall | pkg/call/call.go:391-505 | in every reachable state a step takes a lock from a call exactly when that call's record goes: no delete, rollback or expiry frees a lock of another live call |
| CallHistory.BusyTimeIsBounded | pkg/call/call.go:45-47 | no lock of a call invited at t is left at t + 1870 seconds whatever happened, nor at t + 70 seconds while it rings |
| CallHistory.IndexTracksRinging | pkg/call/call.go:463-467 | a live record is in the index exactly while it rings, with the score of its invite |
| CallHistory.TimeoutIsJustified | pkg/call/call.go:194-216 | however late after its index read a sweeper acts, it only times out a call that still rings and was due at the sweeper's instant |
| CallHistory.DueAfterFortyFiveSeconds | pkg/call/call.go:116-119 | in every reachable state a ringing call is due at a limit exactly from 45 seconds after the second in which its invite was issued |
| CallHistory.NoTimeoutBeforeFortyFiveSeconds | pkg/call/call.go:194-216 | with everything interleaved, a timeout succeeds only at a sweeper's instant at least 45 seconds after that second |
| CallReplies.DeadlineFromAnswer | pkg/call/call.go:463-466 | over every run an accepted record expires exactly 30 minutes after the success that answered it |
| CallReplies.AnsweredCallsTalk | pkg/call/call.go:45-47 | over every run the accepted calls are exactly those whose successes are invite and accept and whose 30 minutes since then are not over |
| CallReplies.RecordsAreLiveCalls | pkg/call/call.go:391-505 | over every run the records are exactly the calls that are unresolved or being talked, with the parties and media of their invites |
| CallReplies.BusyExactlyWhenEngaged | pkg/call/call.go:391-505 | over every run a user has a busy key exactly when that user is a party of some such call |
| CallReplies.InviteAnswer | pkg/call/call.go:103-138 | over every run an invite succeeds exactly when neither user is a party of a live call, is refused for the caller exactly when the caller is one, and for the callee exactly when only the callee is |
| CallReplies.CancelAnswer | pkg/call/call.go:141-143 | over every run a cancel succeeds exactly for the caller of an unresolved call; anybody else is no member, an answered call is in the wrong state, any other is missing |
| CallReplies.RejectAnswer | pkg/call/call.go:146-148 | a reject succeeds exactly for the callee of an unresolved call, with the same refusals |
| CallReplies.AcceptAnswer | pkg/call/call.go:151-158 | an accept succeeds exactly for the callee of an unresolved call, with the same refusals |
| CallReplies.HangupAnswer | pkg/call/call.go:161-163 | a hangup succeeds exactly for either party of a call that was answered and neither ended nor expired since; a third user is no member, a ringing call is in the wrong state, any other is missing |
| CallReplies.TimeoutAnswer | pkg/call/call.go:489-505 | a timeout succeeds exactly for an unresolved call, whoever asks |
| CallReplies.RefusalsChangeNothing | pkg/call/call.go:391-505 | over every run a refused request changes nothing, except that all but a hangup take the index entry of a call that is missing |
| CallSweep.SweepEffect | pkg/call/call.go:205-214 | a pass clears every id it read from the index and no other, and ends exactly those calls among them that still ring |
| CallSweep.SweepReport | pkg/call/call.go:204-215 | the signals of a pass are exactly the calls it ended, with their parties and media |
| CallSweep.SweepProgress | pkg/call/call.go:198-215 | one pass with nothing in between removes exactly min(20, n) of the n due entries, whether their calls are live, answered or expired |
| CallSweep.BacklogDrains | pkg/call/call.go:198-215 | passes at one instant empty a backlog of n exactly when there are at least ceil(n/20) of them |
| CallSweep.UnansweredCallIsSwept | pkg/call/call.go:116-119 | in any run, a call that is unresolved between 45 and 70 seconds after its invite and among the 20 lowest scores is in every index read, and a pass with nothing in between reports its timeout |
| CallSweepRuns.SweepClearsWhatItRead | pkg/call/call.go:198-215 | with everything else interleaved, other sweepers included, a pass that is through has cleared every id it read, those of raced calls too: of n entries due at its read at most n - 20 are left |
| CallSweepRuns.SweepTakesOneTimeoutEach | pkg/call/call.go:205-214 | with everything else interleaved, a pass is through after exactly as many of its timeouts as it read ids |
| CallSweepRuns.TimeoutSucceedsExactlyWhenUnresolved | pkg/call/call.go:206-213 | in any run the timeout of an id a sweeper has come to succeeds exactly when the call is still unresolved, and yields nothing for one answered, ended or expired since the read |
| CallSweepRuns.UnansweredCallIsResolved | pkg/call/call.go:194-216 | in any run, a call that was unresolved and among the 20 lowest scores at an index read 45 seconds or more after its invite is resolved or out of time when that sweeper is through |
| CallStore.KeysNeverCollide | pkg/call/call.go:322-331 | keys of different kinds, or of one kind for different ids, are different strings |
| CallStore.RepresentsOne | pkg/call/call.go:391-405 | a flat store is the layout of at most one typed board |
| CallStore.LockWritten | pkg/call/call.go:391-405 | writing or deleting one busy key changes that lock and nothing else of the board |
| CallStore.CallWritten | pkg/call/call.go:401-402 | writing or deleting one record key changes that record and nothing else of the board |
| CallStore.IndexWritten | pkg/call/call.go:403-403 | writing the index changes no lock and no record |
| CallStore.ExpiryIsTick | pkg/call/call.go:391-402 | keys expiring one by one amount to the clock step of the typed board |
| CallScripts.Decode | pkg/call/call.go:292-320 | the checks of eval and fill turn the table a script returns for any reply into the error or signal of that reply |
| CallScripts.CheckCallId | pkg/call/call.go:341-351 | the loop accepts exactly 32 lower-case hexadecimal digits |
| CallScripts.CheckUser | pkg/call/call.go:353-363 | the loop accepts exactly 1 to 64 bytes without control characters or colons |
| CallScripts.Board.StoreKeepsLocksAndRecords | pkg/call/call.go:391-505 | after any run of the operations over the flat store a busy key names a call exactly when that call's record key is there and names the user, and then both keys expire together |
| CallScripts.Board.InviteScript | pkg/call/call.go:391-405 | the script run command by command on the flat store is the typed invite, with its three answers |
| CallScripts.Board.CancelScript | pkg/call/call.go:408-426 | the script is the typed cancel: parties and phase from the record, keys built in Lua equal to those built in Go |
| CallScripts.Board.RejectScript | pkg/call/call.go:428-446 | the script is the typed reject |
| CallScripts.Board.AcceptScript | pkg/call/call.go:448-469 | the script is the typed accept, with the three deadlines set by three commands |
| CallScripts.Board.HangupScript | pkg/call/call.go:471-487 | the script is the typed hangup, which leaves the index alone |
| CallScripts.Board.TimeoutScript | pkg/call/call.go:489-505 | the script is the typed timeout, which checks no user |
| CallScripts.Board.Invite | pkg/call/call.go:103-138 | invalid arguments change nothing; otherwise the result names the caller's lock first, then the callee's, and a success leaves a ringing record of both for 70 seconds and an index entry 45 seconds after the second of the invite; board and result are those of the typed invite |
| CallScripts.Board.Cancel | pkg/call/call.go:141-143 | an invalid id or user changes nothing; otherwise each of not found, not member, bad state and success comes exactly for its record and user, a success carries that record's parties and media, and the board is that of the typed cancel |
| CallScripts.Board.Reject | pkg/call/call.go:146-148 | the same for a reject, by the callee |
| CallScripts.Board.Accept | pkg/call/call.go:151-158 | the same for an accept, by the callee |
| CallScripts.Board.Hangup | pkg/call/call.go:161-163 | the same for a hangup, by either party of an accepted record |
| CallScripts.Board.Accepted | pkg/call/call.go:166-191 | succeeds exactly for a party of a live accepted call, with its parties and media, and each failure has exactly its cause |
| CallScripts.Board.Expire | pkg/call/call.go:194-216 | on any store the board itself filled a pass never stops early, times out exactly the up to 20 lowest due ids and reports exactly the ringing calls among them with their parties and media, as an index read and that many timeouts of the run; it fails only for the least 64-bit instant |
| CallScripts.Board.TimeoutEach | pkg/call/call.go:204-215 | the loop skips lost races and stops at any other error; without one its effect and report are those of the ids in turn |
| Decimal.AtoiFormat | pkg/call/call.go:369-388 | the canonical decimal of every 64-bit integer parses back to it |
| Decimal.JsonTextRoundTrip | pkg/call/call.go:369-388 | what the printer prints parses back to n exactly when n is not the least 64-bit integer |
| Decimal.JsonTextIsCanonical | pkg/call/call.go:369-388 | every other number is printed with a sign exactly when negative, only digits after it and no leading zero |
| Decimal.JsonNumber | pkg/call/call.go:369-388 | filling the 20-byte buffer from its end gives the canonical decimal (a bare sign for the least integer), with every index in range |
| Decimal.FillDigits | pkg/call/call.go:377-383 | the digit loop leaves the canonical digits at the end of the buffer and room for a sign |
| Decimal.AtoiExactly | pkg/online/online.go:164-171 | a text is read as n exactly when it is the canonical digits of n after any zeros, with an optional plus or a minus in front, and n has 64 bits |
| ScoreIndex.Lowest | pkg/call/call.go:198-200 | a range reply exists for every index and limit: the lowest scores, each member once, ascending |
| Presence.ChangeIsFlagged | pkg/online/online.go:194-219 | if the stored set differs from before, the change flag is set |
| Presence.FlagWithoutChange | pkg/online/online.go:194-219 | a set flag on an unchanged set means exactly that dropped members were all put back by the same update |
| Presence.CountsMeetFlag | pkg/online/online.go:197-212 | comparing the three counts is the same as asking whether phase one removed or phase two added a member |
| Presence.RemoveOffline | pkg/online/online.go:199-201 | the first loop of the script removes exactly the packed offline list |
| Presence.AddOnline | pkg/online/online.go:203-205 | the second loop gives exactly the packed online list the new score |
| Presence.SetScript | pkg/online/online.go:194-219 | on the flat vector the script leaves the two-list update, the full time to live and every other key untouched, and answers with all members and "1" exactly on a change |
| PresencePayload.SplitJoin | pkg/online/online.go:71-74 | splitting undoes joining for parts without ':' |
| PresencePayload.PayloadRoundTrip | pkg/online/online.go:158-173 | for every list of platforms, the empty one included, the payload parses back to the same user and list exactly when the user id is non-empty and has no ':' |
| PresencePayload.NumbersAreRead | pkg/online/online.go:164-171 | a list of parts is refused exactly when some part is no number, and else gives the low 32 bits of each number in order |
| PresencePayload.PayloadIsRead | pkg/online/online.go:158-173 | any payload is refused exactly when its last part is empty or another one is no number; else the last part is the user and the others are the platforms |
| PresencePayload.Parse | pkg/online/online.go:158-173 | the parser with its early exits computes that reading of a payload |
| PresenceStatus.VectorReads | pkg/online/online.go:47-54 | the index arithmetic of the script recovers the packed header and both lists, for lists of any length below 2^31 |
| PresenceStatus.Pack | pkg/online/online.go:47-54 | the two append loops build that vector |
| PresenceStatus.UpdateIsSound | pkg/online/online.go:198-211 | an update of any kind, offline-only included, leaves a key deadline that no stored score exceeds by more than the skew of the client's clock |
| PresenceStatus.KeyOutlivesMembers | pkg/online/online.go:48-48 | a sound key does not expire before any of its members' scores, less the clock skew |
| PresenceStatus.BoundarySecond | pkg/online/online.go:175-192 | a reader and an update at one second disagree on a member exactly when that second is its score |
| PresenceStatus.UpdateIsReadWhole | pkg/online/online.go:175-192 | a reader in the second of an update sees exactly the set it stored and published |
| PresenceStatus.Status.Set | pkg/online/online.go:42-78 | over any sequence of calls keys stay sound; the set becomes the two-list update, and the payload of all its members is published exactly on a change |
| PresenceStatus.Status.Get | pkg/online/online.go:81-86 | returns exactly the platforms whose score is at least the current second, each once, ascending by score |
| PresenceLeases.LeasesAreKept | pkg/online/online.go:194-219 | over every run of updates and clock steps stored scores are the leases of their platforms, none exceeds the key deadline by more than the clock skew, and every lease that still runs is stored |
| PresenceLeases.ReadersSeeLeases | pkg/online/online.go:80-86 | at any point of any run a reader sees a platform as long as its 30 minutes run, less the clock skew, and not once the second in which they end is over |
| PresenceLeases.LeaseLastsUnlessClientIsAhead | pkg/online/online.go:46-48 | the key lasts as long as the lease an update gives exactly when the client's second had begun at the store |
| PresenceLeases.UpdateIsStep | pkg/online/online.go:42-78 | what an update does to the flat store is that step of the run |
| PresenceLeases.ExpiryIsStep | pkg/online/online.go:206-211 | expiry of the key in the flat store is the clock step of the run |
| PresenceReplay.GatewayShowsStoredSet | pkg/online/online.go:42-78 | with in-order delivery a gateway that keeps the last payload shows exactly the stored set, at every point of every run, unless the key has expired with platforms on it and no change came since |
| PresenceReplay.UpdateIsStep | pkg/online/online.go:42-78 | what an update promises of the store and the channel is one step of the user's feed |
| PresenceReplay.ExpiryIsStep | pkg/online/online.go:206-211 | expiry of the user's key is the other step |
| PresenceReplay.MessageIsHeard | pkg/online/online.go:128-173 | of any messages a gateway takes in exactly those on the channel that end with the user and have only numbers before, and then shows the low 32 bits of these |
| PresenceReplay.OthersAreNotHeard | pkg/online/online.go:158-173 | a payload about another user changes nothing for this one |
| RelationCoherence.StepKeepsInv | pkg/relationcache/lists.go:134-190 | every protocol step keeps every stale copy accounted for, in Redis, in fills under way and in each process |
| RelationCoherence.LocalEntryCoherence | pkg/relationcache/lists.go:134-190 | in every reachable state a local entry is out of date exactly when a newer writer has not published, its message is undelivered to this process or was missed by this process since it began the entry, a Redis delete failed and no later one made up for it, or the entry descends from a fill that a newer Redis delete overtook; otherwise it holds MySQL's value |
| RelationCoherence.RedisEntryCoherence | pkg/relationcache/redis.go:71-89 | a Redis entry is out of date exactly when a newer writer has not deleted yet, such a delete failed and no later one made up for it, or a fill was overtaken; lost publications and messages play no part |
| RelationCoherence.QuietReadsAreTrueUnlessRaced | pkg/relationcache/subscribe.go:19-37 | once nobody writes a key, no delete of it is undone and this process's entry of it waits for no message and missed none, a read there is stale exactly when it serves a copy of an overtaken fill, whatever other keys and processes do |
| RelationCoherence.QuietReadsWithoutOvertaking | pkg/relationcache/redis.go:71-89 | in a run where no Redis delete of the key overtakes a fill of it, such a read returns what MySQL holds |
| RelationCoherence.PlaceholdersAreTended | pkg/localcache/lru/lazy.go:44-75 | in every reachable state a placeholder belongs to a fill that is under way for its process and key, so no lookup waits for nothing |
| RelationOvertaken.OvertakenFillStaysStale | pkg/relationcache/lists.go:144-157 | the overlap happens, for any processes, key and list: a run ends with the key quiet everywhere and every process reading what was there before the write |
| RelationLists.Lists.Get | pkg/relationcache/lists.go:92-106 | a local hit returns that entry and touches nothing, whatever Redis and MySQL would say; a lookup during another one's fill returns its outcome and counts as a hit; any other returns the Redis entry if Redis answers with one and else what MySQL answers; a success is in the local layer, Redis changes exactly by a successful store of MySQL's value, and each lookup counts in exactly one layer |
| RelationLists.Lists.CachedIDs | pkg/relationcache/lists.go:134-158 | Redis first, then MySQL and a Redis store, with a failed read or store only skipped, as steps of the protocol |
| RelationLists.Lists.Drop | pkg/relationcache/lists.go:184-190 | Redis delete, then publication, then the local layer, in this order and also after failures; no keys, no steps |
| RelationLists.Lists.DeleteKeys | pkg/relationcache/redis.go:71-89 | the publication follows the Redis delete even when that failed |
| RelationLists.Lists.OnMessage | pkg/relationcache/subscribe.go:24-37 | a delivered message drops exactly its keys from this process's layer |
| RelationLists.Lists.Evict | pkg/localcache/lru/lazy.go:56-61 | an eviction takes one entry, or one placeholder, from this process's layer alone |
| RelationLists.Lists.Expire | pkg/relationcache/redis.go:36-46 | the end of its time to live takes one entry from Redis alone |
| RelationLists.Lists.FriendKeys | pkg/relationcache/lists.go:161-170 | the keys of a friends drop are the list and version keys of exactly the owners that have a name |
| RelationLists.ListKeysApart | pkg/relationcache/keys.go:9-23 | friend, block and version keys of any users are different strings, so that one map can hold them all |
| RelationProtocol.CommitsAreTheTruth | pkg/relationcache/lists.go:144-157 | what MySQL answers for a key is changed by the commits that write it and by no other step |
| LinkTable.ComponentWithout | pkg/localcache/link/link.go:88-103 | taking one component out takes nothing else from another |
| LinkTable.Link.Tie | pkg/localcache/link/link.go:74-82 | the loop over the links leaves that table |
| LinkTable.Link.Del | pkg/localcache/link/link.go:88-103 | the stack search returns exactly the component of the key and forgets exactly its links |
| LinkedCache.DeleteDropsDependents | pkg/localcache/cache.go:76-89 | of the entries that depend on a deleted key exactly those without ties are left, and each of these is owed to a goroutine or belongs to a lookup that has not fetched yet |
| LinkedCache.DeleteDropsTheReachable | pkg/localcache/cache.go:76-89 | such a delete leaves an entry exactly when the link table reaches it from none of the keys |
| LinkedCache.EvictionOutrunsDelete | pkg/localcache/cache.go:58-66 | whenever two entries share a key, evicting one and then deleting the key leaves the other to the goroutine |
| LinkedCache.MissesShareTheirLink | pkg/localcache/cache.go:95-105 | two lookups that share a link leave exactly the ties that the previous result starts from |
| LinkedCache.EvictionOutrunsDeleteFromStart | pkg/localcache/cache.go:58-105 | from an empty cache: two lookups sharing a key, a third that evicts the first entry, and a delete of the key leave the second entry cached and owed |
| LinkedCache.RefetchedEntryIsDropped | pkg/localcache/cache.go:76-105 | an entry looked up again is dropped at once by a delete of what it depends on, whatever an older eviction still owes |
| LinkedCache.DeletedAllStaysOrderly | pkg/localcache/cache.go:76-89 | deletes keep the table symmetric, every entry with all its ties or none, and each cached one without ties owed or not yet tied |
| LinkedCache.InsertedStaysOrderly | pkg/localcache/cache.go:95-105 | so does the insertion of a placeholder with the eviction it may cause |
| LinkedCache.BoundStaysOrderly | pkg/localcache/cache.go:99-103 | so does the link call of a lookup, whatever has become of its placeholder since |
| LinkedCache.Cache.OnEvict | pkg/localcache/cache.go:58-66 | an eviction takes the victim's component out of the table and owes the rest of it to a goroutine |
| LinkedCache.Cache.Del | pkg/localcache/cache.go:76-89 | the nested deletes, with the eviction callback each removal runs, have the effect of the keys in turn |
| LinkedCache.Cache.RunBatch | pkg/localcache/cache.go:68-74 | a goroutine takes exactly the entries it was handed out of the cache, less the evicted key itself, and leaves the other goroutines their work |
| LinkedCache.Cache.Insert | pkg/localcache/lru/lazy.go:56-61 | the first half of a miss inserts its placeholder and evicts at most one victim with the victim's ties |
| LinkedCache.Cache.Tie | pkg/localcache/cache.go:99-103 | the second half ties the key to all its links in both directions, also when a delete has taken the placeholder in between; until then nothing has been fetched for it |
| LinkedCache.Cache.Finish | pkg/localcache/lru/lazy.go:66-74 | a fetched value is kept exactly if the placeholder of its own lookup is still there, and comes only after the tie |
| LinkedCache.Cache.Begin | pkg/localcache/cache.go:95-105 | the two halves with nothing in between |
| PairCache.PairKeysAgree | pkg/relationcache/rpc.go:80-82 | for any users two checks of one kind share a result key exactly when they are the same check or their ids overlap across a colon |
| PairCache.PairKeysApart | pkg/relationcache/rpc.go:80-82 | pairs of users without ':' have different result keys |
| PairCache.KindsApart | pkg/relationcache/rpc.go:80-82 | the text of the result keys; friend and block results of any users have different ones |
| PairCache.ColonMakesPairsCollide | pkg/relationcache/rpc.go:80-82 | with a ':' inside an id two different pairs share a key |
| PairCache.PairKeyIsNoListKey | pkg/relationcache/rpc.go:80-82 | no result key is a key that a delete message can carry |
| PairCache.SecondCheckOutlivesDelete | pkg/relationcache/rpc.go:59-82 | for any users without ':': two checks of one user, a check of another pair that evicts the first result, and a delete of that user's list key leave the second result cached until the goroutine has run |
| PairCache.Results.Open | pkg/relationcache/rpc.go:64-78 | a check that misses inserts its placeholder, and a delete may run before it is tied |
| PairCache.Results.Bind | pkg/relationcache/rpc.go:64-78 | it then ties its result to the list keys of both users, before it asks |
| PairCache.Results.Miss | pkg/relationcache/rpc.go:64-78 | the two with nothing in between |
| PairCache.Results.Hit | pkg/relationcache/rpc.go:64-78 | a finished entry is answered with its two directions in their order, any other check has to be made |
| PairCache.Results.Answer | pkg/relationcache/rpc.go:64-78 | an answer is stored with its two directions in their order, exactly if the placeholder of its own lookup is still there |
| PairCache.Results.DropLocal | pkg/relationcache/rpc.go:59-62 | after a delete message, of the results involving one of its users in either position exactly those are left whose own tie set was empty, and each is owed to an earlier eviction's goroutine or the placeholder of a check that has not asked yet |
| PairCache.Results.RunGoroutine | pkg/localcache/cache.go:68-74 | the goroutine of an eviction takes exactly the results it was handed |
| MemoryPipe.StepKeepsInv | pkg/mq/memory.go:44-82 | every step keeps, per subscriber and producer, what was sent equal to what arrived plus what is on its way, in order |
| MemoryPipe.ExactlyOnce | pkg/mq/memory.go:44-82 | in every reachable state each message is in exactly one place for each subscriber registered at its lock section and for the heir of the buffer, and nowhere for the others |
| MemoryPipe.DrainedSubscriberHandledAll | pkg/mq/memory.go:73-81 | once the senders are through and its channel is drained, a subscriber has handled exactly those messages, once each |
| MemoryPipe.BufferEmptyOnceSubscribed | pkg/mq/memory.go:44-64 | the buffer holds every message in order until somebody subscribes and is empty from then on |
| MemoryPipe.OneProducerArrivesInOrder | pkg/mq/memory.go:44-56 | one producer's messages sent after the registration reach the subscriber in the order sent |
| MemoryPipe.BacklogArrivesInOrder | pkg/mq/memory.go:62-72 | what was buffered reaches the first subscriber in the order sent |
| MemoryPipe.BacklogCanBeOvertaken | pkg/mq/memory.go:65-72 | across the registration the order of one producer is not kept: a concrete run |
| MemoryOrder.PushOvertakesExactlyWhilePending | pkg/mq/memory.go:53-55 | in every reachable state a pushed message gets ahead of an older one its subscriber is still to have exactly when that subscriber has something left to push |
| MemoryOrder.CrossedExactlyWhenOvertaken | pkg/mq/memory.go:44-72 | in every run, for one producer's messages as for all, a later message stands before one sent ahead of the registration exactly when some push reached the subscriber while it had such a one to push |
| MemoryOrder.OneProducerInOrderExactly | pkg/mq/memory.go:44-72 | a subscriber gets one producer's messages, buffered and direct together, in the order sent exactly when that producer never reached it while it had a message of the same producer to push |
| MemoryPipe.SubscriberCanStart | pkg/mq/memory.go:59-72 | a subscriber with a backlog to push can ever hand out a message exactly when channel and backlog together are at most 256 |
| MemoryProgress.ReadyChannelIsHandledWhole | pkg/mq/memory.go:73-81 | in every reachable state, of a subscriber with nothing left to push as many receives as its channel holds deliver the whole channel in order |
| MemoryProgress.RestCanBeReached | pkg/mq/memory.go:44-82 | from a reachable state the sends, pushes and receives under way can hand everything over exactly when no subscriber has more to push than its channel will hold |
| MemoryProgress.NothingMovesExactlyAtRestOrBlocked | pkg/mq/memory.go:44-82 | in every reachable state nothing under way can move exactly when all is handed over, or the first subscriber waits for room in its own channel, all others are through and every sender waits for the first |
| MemoryPipe.Pipe.Send | pkg/mq/memory.go:44-56 | undisturbed, a send buffers without subscribers, else pushes to them in turn and waits at exactly the first full channel |
| MemoryPipe.Pipe.Register | pkg/mq/memory.go:58-64 | the lock section of a subscription adds one channel and takes the whole buffer, as the registration step of the machine |
| MemoryPipe.Pipe.PushPending | pkg/mq/memory.go:65-72 | a push of the taken buffer moves its first message to the end of the subscriber's own channel and touches nothing else |
| MemoryPipe.Pipe.Receive | pkg/mq/memory.go:73-81 | the handler gets the next unread message of the channel, also after any number before it |
| WebhookQueue.EachTaskOnce | pkg/webhook/queue.go:72-83 | in every reachable state each accepted task is in exactly one place: buffered, being run by one worker, or finished once, panics included |
| WebhookQueue.TakenInAcceptanceOrder | pkg/webhook/queue.go:72-83 | tasks leave the channel in the order they were accepted |
| WebhookQueue.NeverCrashesOrOverflows | pkg/webhook/queue.go:44-70 | no send or close meets a closed channel, and the buffer never exceeds its size, the default 100 included |
| WebhookQueue.AcknowledgedAreAccepted | pkg/webhook/queue.go:44-59 | the pushes answered without an error are exactly the accepted tasks, in order |
| WebhookQueue.ReplyFollowsHistory | pkg/webhook/queue.go:44-59 | a task is refused as stopped exactly after some Stop, and as full exactly when a full buffer of acknowledged tasks is untaken |
| WebhookQueue.DrainIsExactlyTheWorkLeft | pkg/webhook/queue.go:72-83 | worker steps use up a measure of buffered and running tasks and workers one by one, so a drain ends after exactly that many steps |
| WebhookQueue.DrainedMeansAllFinished | pkg/webhook/queue.go:61-83 | the measure is zero exactly when all workers have left an empty buffer, and then every accepted task has finished once |
| WebhookQueue.StuckMeansDrained | pkg/webhook/queue.go:61-83 | after Stop some worker can move until the drain is complete |
| WebhookQueue.WorkersWaitExactlyWhenNothingToDo | pkg/webhook/queue.go:72-83 | in every reachable state no worker can move exactly when nothing is buffered and every worker waits for a task or, after Stop, has left |
| WebhookQueue.MemoryQueue.constructor | pkg/webhook/queue.go:29-41 | non-positive sizes give 2 workers and a buffer of 100 |
| WebhookQueue.MemoryQueue.Push | pkg/webhook/queue.go:44-59 | the method is the push step, accepts exactly as answered, and never sends on a closed channel |
| WebhookQueue.MemoryQueue.Stop | pkg/webhook/queue.go:62-70 | the method is the stop step: idempotent, one close, buffered tasks kept |
| WebhookQueue.MemoryQueue.Work | pkg/webhook/queue.go:72-83 | a lone worker finishes everything buffered in order and leaves exactly when the channel is closed |
| Joins.JoinsAgree | pkg/msgconv/id.go:84-89 | two joins of any strings are equal exactly when the parts are, or overlap across a separator |
| Joins.CleanJoinsAgree | pkg/msgconv/id.go:84-89 | heads without the separator never overlap |
| ConversationId.LessByFirstDifference | pkg/msgconv/id.go:84-89 | the order used is Go's: the first differing byte decides, a proper prefix comes first |
| ConversationId.LessIsTotal | pkg/msgconv/id.go:84-89 | of two different strings exactly one comes first |
| ConversationId.JoinSortedIsSymmetric | pkg/msgconv/id.go:84-89 | joining does not depend on the order of its arguments |
| ConversationId.PairsKeptApart | pkg/msgconv/id.go:84-89 | for ids without an underscore two joins are equal exactly when they join the same unordered pair |
| ConversationId.JoinSortedAgree | pkg/msgconv/id.go:84-89 | for any ids two sorted joins are equal exactly for the same unordered pair or for pairs that overlap across an underscore |
| ConversationId.UnderscoresCollide | pkg/msgconv/id.go:84-89 | every such overlap of two ascending pairs is a collision of two different pairs |
| ConversationId.GroupCanLookLikePair | pkg/msgconv/id.go:33-45 | a group named like a joined pair shares the id of that pair's notifications |
| ConversationId.QueueKeysAgree | pkg/msgconv/id.go:48-53 | for any ids two messages, nil and unknown session types included, share a queue key exactly when they belong to the same place, or are of one kind with pairs that overlap or a notified group named like a notified pair |
| ConversationId.QueueKeyNamesPlace | pkg/msgconv/id.go:48-53 | with ids free of underscores they share it exactly when they have the same kind and the same unordered pair or group |
| ConversationId.QueueKeyIsSymmetric | pkg/msgconv/id.go:48-53 | exchanging sender and receiver keeps the key, for any ids |
| ConversationId.PrefixTellsNotification | pkg/msgconv/id.go:56-67 | a queue key has the notification prefix exactly when the message is a notification of a known session type, for any ids |
| ConversationId.PrefixFromOptions | pkg/msgconv/id.go:48-62 | from the options alone: a message of type 1 to 4 has a key with the prefix exactly when isNotNotification is there and false, every other message of these types has its chat id, and any other type has the empty key |
| ConversationId.KeysSpelledOut | pkg/msgconv/id.go:14-53 | the text of the key for each session type, with and without that option, for two people in ascending order |
| ConversationId.GroupIdNamesGroup | pkg/msgconv/id.go:77-82 | the id built from a group and its size class is the one of its chat messages and names both |

## Left out

- Call events: `Publish`, `Subscribe` and its reconnect loop, the URL and token of a signal, and the busy operation and reason that an `Invite` refused by the callee puts beside its error.
- Redis failures inside the call board, a board without a Redis client, and entries of other types put under its keys by somebody else: a command on a key of another type is excluded by precondition.
- Random call ids: a new id is taken to be well-formed and not in use, as `newCallID` makes it with overwhelming likelihood.
- Numeric arguments of the call scripts pass as numbers, not as text; the presence vector and the sweep bound do pass as text.
- CallScripts.Board.Expire: is one pass with nothing in between; passes interleaved with everything else are the sweepers of CallRuns and CallSweepRuns.
- A hangup on a missing call leaves the ringing index as it is, and so does the model.
- PresenceStatus.Status.Set: takes the caller's clock to be ahead of the store's by at most a bound that is a parameter, and to fit 64 bits, and an offline list shorter than 2^31, as its int32 count does.
- PresenceReplay.GatewayShowsStoredSet: assumes that updates of one user do not interleave between script and publish; the silent expiry of a key publishes nothing, which is its one exception.
- `List` and its key scan, the presence subscription loop, and a Redis error between script and publish.
- JSON encoding of lists, versions and delete messages is taken as the identity, and the version head as one more value under its own key.
- RelationLists.Lists.Get: the friend, block and version layers of a process, which hold different keys, are one map; a fill that fails leaves no entry, where the code keeps the error for 5 seconds.
- `DropBlacks`, `jitterTTL`, and lists without a Redis client or topic: nothing beyond what the modelled paths do.
- Agreement of cached pair results with MySQL is not claimed: they are refilled from another process that may still be stale.
- LinkTable.Link.Del: the slots of the table are one map, and lookups or deletes running inside one link or delete call are not interleaved with it.
- LinkedCache.Cache.Insert: an insertion and the eviction it causes are one step, as under the lock of the code; a lookup that waits for another one's fetch of the same key is not modelled here.
- The expiring LRU variant and batch reads of the local cache are not used by the relation caches.
- Cancelled memory subscriptions, and the map from topics to pipes.
- Handler errors of a memory subscription are only logged by the code and have no effect in the model.
- `ServerMsgID` is a hash of its arguments; SHA-256 is not part of this model.
- Services, wiring, generated protocol code, Redis streams, etcd, HTTP callbacks, LiveKit tokens and MD5 ids.
