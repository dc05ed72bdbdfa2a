# rsmc-engine, verified

A Dafny model of the parts of the rsmc-engine chat backend that hold algorithms and state machines,
with proofs of what they promise. `dafny verify dfyconfig.toml` checks the whole project.

## What is modelled

**Realtime fan-out.** `SessionTable` is the hub as one table of sessions; `Hub` is the hub as the
code has it, two maps updated in place, proved to simulate that table. `Subscriptions` reads off the
run which sessions an event is sent to. `HubInterleaving` splits `register` and `unregister` where
they release their locks. `EventBus` holds the event bus and the Redis bridge with its queue and
loops; `FanOut` runs any number of such instances around a broker that loses, reconnects and delivers
in any interleaving. `Delivery` and `Quiescence` draw the consequences, and `Draining` shows that a
connected cluster can always come to rest without loss. `Sockets` and `SocketHandlers` add what
connecting, disconnecting and client frames do to subscriptions and to the presence table that the
instances share, and `SocketFrames` says it session by session; `PresenceWrites` separates the
presence writes from the hub changes that cause them.

**SHA-256 and HMAC.** `Fips180` and `Fips198` state FIPS 180-4 and FIPS 198-1 as recursive functions
over bytes; `Fips180Constants` checks the constants against the roots that define them, and `Primes`
that the numbers under the roots are the first 64 primes. `Sha256` and `Hmac` are the hand-written
code over arrays and loops; a word is an integer below 2^32, and its operations are those of 32-bit
vectors. `Fips180Bits` proves a computation on vectors equal to the standard's, `KnownBlocks` computes
with it, and `KnownAnswers` draws the two published answers that the repository's tests expect.

**Messages.** `Store` is the message table with read cursors and notifications, as a step function
over runs; `MessageHandlers` has the handlers that update those tables in place and emit events.
`MessageHistory` says who may write, change and read what. `Threads`, `Traversal`, `Pagination`,
`History`, `ChannelWalk`, `Unread` and `MessageEvents` prove what clients rely on. `Reactions`,
`ReactionHistory` and `ReactionGroups` cover emoji reactions, their events and their grouping,
`Mentions`, `MentionExamples` and `Notifications` who is told of a message.

**Membership.** `Membership` has channels, roles and signups as steps, `ChannelHandlers` the
handlers, `ChannelAuthority`, `ChannelHistory` and `DirectChannels` what holds over whole runs.

**Sessions.** `RefreshTokens` and `SessionHandlers` cover refresh-token rotation and revocation,
`TokenHistory` when a refresh or a login is accepted.

`Ids`, `Wrappers`, `Sequences`, `Subsequences` and `Folds` are shared.

Each class keeps the source's tables as fields that its methods update; each method is proved to
take one step of a specification function, and the theorems are about all runs of those steps.
`MessageHistory`, `ReactionHistory`, `ChannelHistory` and `TokenHistory` say what is accepted, and what
it changes, by the steps before it.

## Assumptions

- A handler is one atomic step with successful database calls, except where a file says that it
  interleaves: the hub's locks, the fan-out, and writers between page requests. `refresh` and
  `create_direct` check and then write without a lock, so what is proved of them is for atomic
  handlers.
- Generated ids are fresh, and a logical clock strictly advances with every step of the store and
  of the sessions. Pagination itself assumes nothing about clocks beyond unique (time, id) keys.
- The store's joins and leaves are the insertions and deletions of membership rows that the
  membership handlers make.
- Token ids stand for their fingerprints, which are an injective encoding. Verifying a signed token
  yields claims or nothing; checking a password yields a boolean.
- The database's `LOWER` and the standard library's character classes and lower-casing are
  function parameters. The classes are arbitrary, so the results on mentions do not depend on a
  Unicode version.
- Query results that SQL leaves open (`LIMIT 1` without an order) are arbitrary rows that match.
- Foreign keys and unique indexes of `migrations/` hold of the tables.

## Where the documentation and the code differ

The model follows the code.

- docs/WEBSOCKET.md:97-98 says that published events are re-dispatched on every other instance. An
  instance subscribes to the channel it publishes on and a routed event carries no origin
  (src/services/events.rs:23-26, src/services/pubsub.rs:75-76), so the origin re-dispatches its own
  events too: two copies there, one elsewhere (`Delivery.ExactlyOnceExceptAtOrigin`,
  `Delivery.EchoAtOrigin`).
- docs/WEBSOCKET.md:86-87 says that channel events reach sessions whose user is a member. Membership
  is checked on subscribing only (`Sockets.ReachesAFormerMember`); `Sockets.OnlyMembersReachedIff`
  says exactly when the documented property holds.
- docs/WEBSOCKET.md:106-108 says that a user is marked offline when their last session drops. It
  is the last session at one instance (`Sockets.OfflineWhileOnline`). If each hub change and its
  presence write are one step, `Sockets.PresenceIsRightIff` says exactly when the marks in the
  presence table are right. The code awaits the write separately, so that writes can land out of
  order, and even on one instance a page reload can leave a connected user marked offline
  (`PresenceWrites.ReloadMarksOffline`); `PresenceWrites.RowRightIff` says exactly when a mark is
  right then. The endpoints do not answer from the mark but from the hub of the instance that
  serves the request (src/handlers/presence.rs:30-35).
- src/handlers/channels.rs:161-162 says that the two unread surfaces cannot disagree. Loading
  history advances the cursor and leaves notifications alone (`Unread.HistoryLeavesAMention`), and
  deleting a message leaves the notifications it caused (`Unread.DeletionLeavesAMention`);
  `Unread.DisagreeIff` says exactly when they disagree.
- docs/API.md:88 gives 401 for a deactivated account's login; the code answers 403
  (src/handlers/auth.rs:162-164): `RefreshTokens.ForbiddenIffDeactivated`,
  `RefreshTokens.DeactivatedLogin`.
- `unregister` releases its guard between emptying a set and removing the key
  (src/ws/hub.rs:80-86), so a session registered in between is lost from the index;
  `HubInterleaving` says exactly when, and that exactly then a result of `register` or `unregister`
  is wrong.

## Model

| member | source | states |
|---|---|---|
| `Hub.Hub.Register` | src/ws/hub.rs:56-71 | the two maps after registering are the single session table with the new session, the index stays exact, and the result says whether the user was offline |
| `Hub.Hub.Unregister` | src/ws/hub.rs:75-88 | the session is gone from table and index, and the result says whether it existed and was its user's last |
| `Hub.Hub.Subscribe` | src/ws/hub.rs:90-94 | adds the channel to a live session's subscriptions, changes nothing for an unknown session |
| `Hub.Hub.Unsubscribe` | src/ws/hub.rs:96-100 | removes the channel from a live session's subscriptions |
| `Hub.Hub.IsOnline` | src/ws/hub.rs:102-108 | the index answers exactly whether some live session is the user's |
| `Hub.Hub.OnlineCount` | src/ws/hub.rs:110-112 | the number of index keys is the number of users with a live session |
| `Hub.Hub.DispatchChannel` | src/ws/hub.rs:115-121 | in whatever order the map is visited, one copy to each live subscribed session and none elsewhere |
| `Hub.Hub.DispatchUser` | src/ws/hub.rs:124-132 | going through the index gives one copy to exactly the sessions that a scan of all sessions for the user would choose |
| `SessionTable.LogIsFilteredHistory` | src/ws/hub.rs:56-132 | over any run, what a session received is the dispatch history filtered by its user and by its subscriptions at each moment |
| `SessionTable.PresenceAlternates` | src/ws/handler.rs:58-101 | on one hub, a user's online and offline announcements alternate from online, and the last one tells the current state |
| `SessionTable.OnlineChangesAtEdges` | src/ws/hub.rs:67-87 | a user's state changes exactly when `register` reports a first or `unregister` a last session |
| `Subscriptions.LiveIffOpen` | src/ws/hub.rs:56-88 | over any run a user's live sessions are those registered for them and not unregistered since |
| `Subscriptions.FollowsIffSubscribed` | src/ws/hub.rs:90-100 | a session's subscriptions are the channels it subscribed to while open and has neither unsubscribed from nor lost by closing since |
| `Subscriptions.DispatchReachesIff` | src/ws/hub.rs:114-132 | read off the operations: a channel dispatch sends one copy to exactly the sessions subscribed to it, a user dispatch to exactly the user's open sessions |
| `HubInterleaving.IndexIsAlwaysSound` | src/ws/hub.rs:56-88 | in every interleaving of the separately locked steps, each id the index lists for a user is a session of theirs that was indexed and not yet unindexed |
| `HubInterleaving.StepKeepsIndexIffNotLossy` | src/ws/hub.rs:80-86 | a step leaves the index complete if and only if it does not remove a key whose set has been refilled |
| `HubInterleaving.IndexIsExactIffNeverLossy` | src/ws/hub.rs:56-88 | over a schedule the index is exact throughout if and only if no key removal is lossy |
| `HubInterleaving.GapFreeIndexIsExact` | src/ws/hub.rs:80-86 | without a same-user index insert between emptying a set and removing its key, the index is exact at every moment |
| `HubInterleaving.LostUntilItUnregisters` | src/ws/hub.rs:75-88 | whatever other sessions do, a session the index has lost stays lost exactly until its own unregister |
| `HubInterleaving.GapLosesASession` | src/ws/hub.rs:67-86 | a schedule of two sessions in which a live session is dropped from the index |
| `HubInterleaving.StepResultRightIff` | src/ws/hub.rs:67-87 | while the index is exact, what `register` or `unregister` returns is right if and only if the call makes no lossy key removal |
| `HubInterleaving.ResultsRightIffNeverLossy` | src/ws/hub.rs:56-88 | over a schedule all their results are right if and only if no key removal is lossy, that is, if and only if the index is exact throughout |
| `HubInterleaving.DispatchReachesAllButLost` | src/ws/hub.rs:124-132 | in every interleaving a user dispatch reaches exactly the user's indexed sessions that are not lost |
| `SocketHandlers.SocketHandlers.Open` | src/ws/handler.rs:54-60 | registers, and writes and announces presence exactly when the user had no session here |
| `SocketHandlers.SocketHandlers.Close` | src/ws/handler.rs:98-101 | unregisters, and writes and announces absence exactly when no session of the user is left here |
| `SocketHandlers.SocketHandlers.HandleClientFrame` | src/ws/handler.rs:104-156 | what each client frame does: subscription and typing only for members, an error only to a refused subscriber or a malformed frame, a pong to the user |
| `SocketHandlers.SocketHandlers.MarkPresence` | src/ws/handler.rs:159-183 | writes the presence row, with its time, and announces it to the user's sessions |
| `SocketHandlers.SocketHandlers.GetPresence` | src/handlers/presence.rs:18-43 | whether the user has a session at the instance that answers, whatever their row is marked, and the row's time |
| `SocketFrames.FrameAnswers` | src/ws/handler.rs:104-156 | session by session what each frame sends and subscribes to: a pong or an error to the user's sessions, a member's typing notice to the channel's subscribers, subscribing for members only, unsubscribing for the session it came from |
| `SocketFrames.FrameEmits` | src/ws/handler.rs:135-147 | of all frames only a member's typing notice is emitted to other instances |
| `SocketFrames.ConnectAnnounces` | src/ws/handler.rs:54-60 | a connection announces its user exactly if it is their first here |
| `SocketFrames.DisconnectAnnounces` | src/ws/handler.rs:98-101 | a disconnection announces it exactly if no other session of the user is left here |
| `SocketFrames.PresenceRowAfter` | src/ws/handler.rs:159-183 | the presence row gets the mark and the time of a first connection or a last disconnection, and stands otherwise |
| `Sockets.StepKeepsPresenceIff` | src/ws/handler.rs:98-101 | with each hub change and its presence write as one step, a step keeps the marks in the presence table right if and only if it does not end a user's last session at one instance while they have one at another |
| `Sockets.PresenceIsRightIff` | src/ws/handler.rs:58-183 | over any run of such steps, at any number of instances, presence rows are marked right throughout if and only if that never happens |
| `Sockets.OneInstanceIsAlwaysRight` | src/ws/handler.rs:58-183 | with one instance presence rows are always marked right, again with each hub change and its write as one step |
| `Sockets.OfflineWhileOnline` | src/ws/handler.rs:98-101 | a run of two instances that ends with a connected user's row marked offline |
| `PresenceWrites.RowRightIff` | src/ws/handler.rs:54-60 | with writes separate from the hub changes that cause them, landing in any order, at any moment and any number of instances: the row is right if and only if the mark written last is an online mark exactly when some instance has issued an odd number of marks |
| `PresenceWrites.OneInstanceRightIff` | src/ws/handler.rs:98-101 | on one instance, once a mark has been written: if and only if the parity of the place of the mark written last differs from that of the number of marks issued |
| `PresenceWrites.InOrderSettlesRight` | src/ws/handler.rs:159-183 | on one instance, if a user's writes land in the order in which they were issued, the row is right whenever all have landed |
| `PresenceWrites.ReloadMarksOffline` | src/ws/handler.rs:98-101 | a schedule of one instance, a page reload, in which all writes have landed and a connected user is marked offline |
| `Sockets.StepKeepsSubscribersIff` | src/ws/handler.rs:119-134 | subscribers stay members across a step if and only if it is not a member leaving while subscribed |
| `Sockets.OnlyMembersReachedIff` | docs/WEBSOCKET.md:86-87 | over any run whatever is emitted to a channel reaches members only, if and only if nobody leaves a channel that a session of theirs is subscribed to |
| `Sockets.ReachesMembersIff` | src/ws/hub.rs:115-121 | an emission to any channel reaches members only exactly when all subscribed sessions are members' |
| `Sockets.ReachesAFormerMember` | docs/WEBSOCKET.md:86-87 | a run that ends with a channel's next message sent to somebody who has left it |
| `Events.EventDescriptor` | src/services/webhooks.rs:25-41 | exactly the three message events have a public name, each with its channel |
| `Events.PublicNames` | docs/API.md:326 | the documented names belong to the events they describe, each with its view or id |
| `Events.DescriptorIdentifies` | src/services/webhooks.rs:25-41 | name and payload identify the event: no two events have the same descriptor |
| `EventBus.EventBus.EmitChannel` | src/services/events.rs:61-73 | with a bridge the emission step of the fan-out, without one the same with nothing queued; and a webhook exactly if the event has a public name |
| `EventBus.EventBus.EmitUser` | src/services/events.rs:76-86 | with a bridge the emission step of the fan-out, without one the same with nothing queued; no webhook |
| `EventBus.EventBus.DispatchRemote` | src/services/events.rs:91-98 | dispatches locally and neither queues nor fires a webhook |
| `EventBus.EventBus.SpawnWebhooks` | src/services/events.rs:101-111 | fires exactly for events with a public name |
| `EventBus.EventBus.Publish` | src/services/pubsub.rs:54-56 | appends to the queue |
| `EventBus.EventBus.RunPublisher` | src/services/pubsub.rs:35-47 | takes the queue in order; what it hands over are the items whose publication succeeds |
| `EventBus.EventBus.RunSubscriber` | src/services/pubsub.rs:74-89 | re-dispatches what parses, in order, skips what does not, and ends the subscription at a payload that cannot be read |
| `EventBus.PublisherDrains` | src/services/pubsub.rs:35-47 | the queue ends empty in order, and each of its items was either handed over or has failed |
| `EventBus.PublisherFails` | src/services/pubsub.rs:35-47 | what the broker refuses is lost, as often as it was queued, and nothing else |
| `EventBus.SubscriberDrains` | src/services/pubsub.rs:79-87 | the inbox ends empty, what parses of all before the first unreadable payload follows what was re-dispatched before, queue and webhooks are untouched, and the subscription lasts exactly if all could be read |
| `EventBus.ReadablePartEnds` | src/services/pubsub.rs:79-87 | what is read before the subscription ends is all that comes before the first unreadable payload |
| `FanOut.StepKeepsInv` | src/services/pubsub.rs:33-87 | every emit, publish, receive, loss, reconnect and session step keeps the cluster invariant |
| `FanOut.RunKeepsInv` | src/services/pubsub.rs:33-87 | so does every run |
| `FanOut.InitialInv` | src/services/pubsub.rs:49-50 | freshly started instances satisfy it |
| `FanOut.Conservation` | src/services/events.rs:61-98 | of each emission, at each instance, dispatched remotely, in the inbox, in the origin's queue, failed and lost copies add up to one; the origin alone dispatched it directly, once |
| `FanOut.OrderIsKept` | src/services/pubsub.rs:35-87 | what an instance re-dispatched of another's events, then its inbox, then the other's queue, follow the emission order |
| `FanOut.OrderIsCompleteWithoutLoss` | src/services/pubsub.rs:35-87 | without losses those parts are the whole emission order |
| `FanOut.OneOrderForAll` | src/services/pubsub.rs:79-87 | what two instances both re-dispatch they re-dispatch in the same order |
| `FanOut.BrokeredOnce` | src/services/pubsub.rs:35-47 | no emission is published twice |
| `FanOut.WebhooksAreChannelEmissions` | src/services/events.rs:88-111 | over a run the webhooks fired are those of the channel emissions with a public name, in order, none for receipts |
| `Quiescence.StepMeasure` | src/services/pubsub.rs:35-87 | each publish and receive step lowers a weighted count of queued and received items, and no step but an emission raises it |
| `Quiescence.QuiescesWithoutEmissions` | src/services/events.rs:88-98 | without new emissions the publish and receive steps of a run are bounded by the measure of its first state |
| `Quiescence.StuckIffIdle` | src/services/pubsub.rs:35-87 | no such step is possible exactly when all queues and inboxes are empty, which is when the measure is zero |
| `Delivery.ExactlyOnceExceptAtOrigin` | src/services/events.rs:61-98 | a session that listens from before an emission until a loss-free drain has exactly one copy, and two at the origin: the direct one and the echo |
| `Draining.DrainExists` | src/services/pubsub.rs:35-87 | from every state in which all instances are connected, some run of publish and receive steps empties all queues and inboxes and loses nothing |
| `Draining.DrainingDelivers` | src/services/events.rs:61-98 | so a run with all instances connected, from before an emission of which nothing was lost, goes on to rest, where a session that listened throughout has exactly one copy, and two at the origin |
| `Delivery.EchoAtOrigin` | docs/WEBSOCKET.md:97-98 | a run of a single instance in which a session has an event twice |
| `Delivery.RunDelivers` | src/services/events.rs:61-98 | over a run a listening session gains one copy per dispatch of its instance |
| `Delivery.NothingBeforeEmission` | src/services/events.rs:61-98 | no instance dispatches an item that its origin has not emitted |
| `Delivery.RunKeepsLogs` | src/services/events.rs:88-98 | a session's log holds only what its instance dispatched |
| `Fips180Constants.RoundConstantsAreCubeRoots` | src/services/webhooks.rs:148-159 | each of the 64 round constants is the first 32 fractional bits of the cube root of its prime, as section 4.2.2 of FIPS 180-4 defines it |
| `Primes.TableIsFirstPrimes` | src/services/webhooks.rs:148-159 | those 64 primes ascend, and a number up to the last is prime if and only if it is one of them |
| `Fips180Constants.InitialHashIsSquareRoots` | src/services/webhooks.rs:160-163 | the initial words are those of the square roots of the first eight primes (section 5.3.3) |
| `Sha256.PadMessage` | src/services/webhooks.rs:165-171 | the padding loop ends, with the padding of section 5.1.1 |
| `Sha256.Expand` | src/services/webhooks.rs:174-185 | the array is the message schedule of section 6.2.2 |
| `Sha256.RunRounds` | src/services/webhooks.rs:186-206 | 64 in-place register shifts are the 64 rounds |
| `Sha256.CompressInPlace` | src/services/webhooks.rs:174-209 | one chunk, with feed-forward, is one compression |
| `Sha256.Serialize` | src/services/webhooks.rs:212-216 | the output bytes are the digest of the eight words |
| `Sha256.Sha256` | src/services/webhooks.rs:147-217 | for every input the hand-written code returns the standard's hash |
| `Fips180.PaddingRoundTrip` | src/services/webhooks.rs:165-171 | the message is recovered from the padded one, below 2^61 bytes |
| `Fips180.PaddingIsInjective` | src/services/webhooks.rs:165-171 | so different messages are padded differently |
| `Fips180.PaddingIsLeast` | src/services/webhooks.rs:165-171 | the padded length is the least multiple of 64 with room for the 0x80 byte and the length |
| `Fips180.BigEndianWraps` | src/services/webhooks.rs:166-171 | a length that wraps at 64 bits gives the same eight length bytes |
| `Fips180.ParseComposes` | src/services/webhooks.rs:173-173 | chunking a block followed by the rest is that block, then the chunks of the rest |
| `Folds.FoldLeftComposes` | src/services/webhooks.rs:173-210 | folding over concatenated blocks resumes from the state the first part leaves |
| `Fips180Bits.CompressIsCompressBlock` | src/services/webhooks.rs:174-209 | for every state and block, the compression computed on 32-bit vectors with a rolling schedule of sixteen words is the standard's recursive one |
| `KnownAnswers.HashOfAbc` | src/services/webhooks.rs:223-232 | the hash of "abc" is the one the repository's test expects |
| `Hmac.PadKey` | src/services/webhooks.rs:123-129 | the key, or its digest when longer than a block, padded to a block |
| `Hmac.PadBlock` | src/services/webhooks.rs:130-135 | the pad byte exclusive-ored with the key block |
| `Hmac.Mac` | src/services/webhooks.rs:121-144 | for every key and message the MAC of section 4 of FIPS 198-1 |
| `Hmac.Hex` | src/services/webhooks.rs:112-119 | 64 lower-case digits that decode to the MAC |
| `Hmac.DigitsAreHexadecimal` | src/services/webhooks.rs:112-119 | the digits are 0 to 9 and a to f in order |
| `KnownAnswers.MacOfTestCase2` | src/services/webhooks.rs:234-241 | test case 2 of RFC 4231, which the repository's test expects: the MAC of "what do ya want for nothing?" under "Jefe" |
| `Fips198.LongKeyActsAsItsDigest` | src/services/webhooks.rs:124-129 | a key longer than a block gives the MACs of its digest |
| `Fips198.ZerosExtendTheKey` | src/services/webhooks.rs:123-129 | a key shorter than a block gives the same MACs with a zero added |
| `Fips198.BlockIsItsOwnKey` | src/services/webhooks.rs:124-129 | a key of exactly a block is not hashed |
| `Fips198.HashResumesAfterBlock` | src/services/webhooks.rs:136-143 | hashing a block and a text is continuing from that block's midstate |
| `Fips198.MacFromMidstates` | src/services/webhooks.rs:130-143 | both hashes of a MAC continue from midstates computed from the key alone |
| `MessageHandlers.MessageHandlers.SendMessage` | src/handlers/messages.rs:132-235 | the store after sending and the event emitted, with each refusal in the handler's order |
| `MessageHandlers.TrimmedAwayIffBlank` | src/handlers/messages.rs:142-142 | trimming leaves nothing exactly of a text of whitespace |
| `MessageHandlers.MessageHandlers.Insert` | src/handlers/messages.rs:161-184 | the new row last, the parent's count one higher, nothing else changed |
| `MessageHandlers.MessageHandlers.EditMessage` | src/handlers/messages.rs:439-482 | edits the caller's own live message and emits its new view; not found if deleted, forbidden if another's |
| `MessageHandlers.MessageHandlers.DeleteMessage` | src/handlers/messages.rs:484-514 | blanks and marks the row for its author or a channel admin, and emits its id |
| `MessageHandlers.MessageHandlers.MarkRead` | src/handlers/channels.rs:146-175 | advances the caller's cursor, marks exactly their unread notifications of the channel and emits the new cursor |
| `MessageHandlers.MessageHandlers.ReadNote` | src/handlers/notifications.rs:52-66 | marks one notification of the caller's own, if unread |
| `MessageHandlers.MessageHandlers.ReadAllNotes` | src/handlers/notifications.rs:69-78 | marks all unread notifications of the caller, and nobody else's |
| `MessageHandlers.MessageHandlers.UpdateNotes` | src/handlers/notifications.rs:57-59 | row by row, exactly the unread notifications that are meant get the time |
| `MessageHandlers.MessageHandlers.GetHistory` | src/handlers/messages.rs:340-405 | returns the page and the next cursor, then advances the caller's cursor |
| `MessageHandlers.MessageHandlers.Query` | src/handlers/messages.rs:350-384 | a newest-first scan with cursor and limit |
| `MessageHandlers.MessageHandlers.GetThread` | src/handlers/messages.rs:408-436 | every reply to a message, oldest first, for members of its channel |
| `MessageHandlers.MessageHandlers.UnreadCount` | src/handlers/channels.rs:221-228 | counts others' undeleted messages after the cursor |
| `MessageHistory.CursorIffMember` | src/handlers/messages.rs:139-139 | read off the steps: those with a read cursor are those who joined and have not left since |
| `MessageHistory.SendAcceptedIff` | src/handlers/messages.rs:132-189 | a message is accepted if and only if its sender is such a member, it carries something, and what it answers is a message of the channel; then exactly the given row is new |
| `MessageHistory.RowChanges` | src/handlers/messages.rs:439-504 | over any run a message's content, edit time and deletion change exactly when its author edits it while it is live, or its author or an administrator deletes it |
| `MessageHistory.EditAnswer` | src/handlers/messages.rs:445-453 | the author's edit of a live message is accepted, anybody else's forbidden, and a deleted message is not found |
| `MessageHistory.DeleteAnswer` | src/handlers/messages.rs:489-498 | the author and administrators may delete, others may not |
| `MessageHistory.ReadingAcceptedIff` | src/handlers/messages.rs:346-346 | reading a channel is for those who joined and have not left since |
| `MessageHistory.NoteIsReadIff` | src/handlers/notifications.rs:52-78 | a notification is read exactly when its own user marks its channel read as a member, reads it, or reads all of theirs |
| `Store.StepKeepsInv` | src/handlers/messages.rs:148-504 | every step keeps unique ids, parents that are earlier rows of the same channel, right reply counts and blank deleted rows |
| `Store.RunKeepsInv` | src/handlers/messages.rs:148-504 | so every reachable store has them |
| `Store.RowsAreAppendOnly` | src/handlers/messages.rs:161-176 | rows are never removed or re-keyed: an earlier store's rows are a prefix of a later one's |
| `Store.DeletedIsFinal` | src/handlers/messages.rs:445-504 | a deleted message stays deleted and blank and is never edited again |
| `Threads.ReplyCountIsThreadLength` | src/handlers/messages.rs:178-184 | in every reachable store a message's reply count is the length of its thread, deleted replies included |
| `Threads.RepliesAreConserved` | src/handlers/messages.rs:178-184 | a channel's messages are its roots plus the sum of its reply counts |
| `MessageEvents.FollowerIsUpToDate` | src/handlers/messages.rs:222-229 | a client that knows a channel's messages at any earlier state and applies the channel's events since knows exactly its messages now, up to reply counts |
| `MessageEvents.CountsLagByMissed` | src/handlers/messages.rs:178-184 | each reply count it knows lags by exactly the replies accepted since the message was last announced: no event announces the parent's new count |
| `MessageEvents.FollowerIsExactIff` | src/handlers/messages.rs:473-479 | so it knows everything if and only if there were none for any message |
| `Traversal.OpenVisitsOnce` | src/handlers/messages.rs:408-436 | following threads from a message visits its descendants, each once, and nothing else |
| `Traversal.EveryMessageOnce` | src/handlers/messages.rs:148-159 | from a channel's roots this visits every message of the channel exactly once |
| `ChannelWalk.WalkThenThreadsVisitsAll` | src/handlers/messages.rs:340-436 | whenever the requests are made and whatever their limits and the writers in between, following the cursors ends after at most one request per root and one; opening every thread then visits, exactly once, each message the channel had at the start and each later answer in those threads, and nothing else |
| `ChannelWalk.CompletedWalkVisits` | src/handlers/messages.rs:340-436 | the same of any completed walk |
| `Pagination.ClampedLimit` | src/models/message.rs:88-90 | limits in 1..200 are kept, others become the nearer bound |
| `Pagination.PageIsDetermined` | src/handlers/messages.rs:350-384 | order, cursor and limit determine a page |
| `Pagination.DescendingIsUnique` | src/handlers/messages.rs:360-376 | a set of rows has one descending order |
| `Pagination.WalkDescends` | src/handlers/messages.rs:350-390 | the pages of a walk descend strictly, whatever is added in between |
| `Pagination.NothingIsSkipped` | src/handlers/messages.rs:350-390 | a row present at the start is in the pages so far, or older than all of them |
| `Pagination.CompletedWalkIsComplete` | src/handlers/messages.rs:386-390 | a completed walk has every row that existed when it began |
| `Pagination.OnlyFirstRows` | src/handlers/messages.rs:350-390 | if what is added is newer, no page shows it |
| `Pagination.CompletedWalkIsExact` | src/handlers/messages.rs:386-390 | so a completed walk lists exactly the rows it began with, sorted |
| `Pagination.WalkIsBounded` | src/handlers/messages.rs:386-390 | with any limits a walk makes at most n + 1 requests, for the n rows it began with |
| `Pagination.WalkEnds` | src/handlers/messages.rs:386-390 | with one limit L it is completed after exactly n/L + 1 requests, neither before nor after |
| `History.ScanIsPage` | src/handlers/messages.rs:350-384 | the scan returns exactly the page that ORDER BY and LIMIT describe |
| `History.UnknownCursorIsEmpty` | src/handlers/messages.rs:350-366 | a cursor that names no message gives an empty page |
| `History.RequestsWalk` | src/handlers/messages.rs:347-390 | requests that follow the cursors form a walk, whichever handlers run between them |
| `History.HistoryWalkIsSound` | src/handlers/messages.rs:347-390 | so no message repeats, and a completed walk lists exactly the roots that existed when it began, whatever writers do |
| `History.EveryWalkEnds` | src/handlers/messages.rs:386-390 | following the cursors, whenever, with any limits and any writers, ends after at most one request per root and one |
| `History.CompletedIffCounted` | src/handlers/messages.rs:386-390 | with one limit L a walk is completed after exactly n/L + 1 requests, for the n roots it began with |
| `History.SteadyScheduleCompletes` | src/handlers/messages.rs:386-390 | every schedule of that many requests with one limit is a completed walk |
| `History.QuietWalkListsAll` | src/handlers/messages.rs:347-390 | on an unchanging store the n/L + 1 requests exist, and list all roots in order |
| `Unread.UnreadIsCounted` | src/handlers/channels.rs:221-228 | at every reachable state the count over the rows is a stepped counter: one more per message of another's, one less per first deletion of an unread one, zero on reading |
| `Unread.CursorsOnlyAdvance` | src/handlers/channels.rs:152-159 | while a membership lasts its cursor never moves back |
| `Unread.MarkReadClearsBoth` | src/handlers/channels.rs:146-175 | right after `mark_read` the unread count and the unread notifications of the channel are both zero |
| `Unread.UnreadNotesAreThoseLeft` | src/handlers/notifications.rs:52-78 | in every reachable store the unread notifications are those that some step inserted and no later step read |
| `Unread.HistoryDisagreesIffNotesLeft` | src/handlers/messages.rs:392-399 | right after loading history the two surfaces disagree if and only if some step has notified the user in the channel and no step since has read that notification |
| `Unread.DisagreeIff` | src/handlers/channels.rs:161-175 | in every reachable state the two surfaces disagree if and only if either the stepped counter is zero and a notification of the channel is left, or it is not and none is |
| `Unread.DeletionLeavesAMention` | src/handlers/messages.rs:484-504 | a run in which deleting an unread message makes them disagree |
| `Unread.HistoryLeavesAMention` | src/handlers/channels.rs:161-162 | a run in which loading history makes them disagree |
| `Reactions.ReactionHandlers.AddReaction` | src/handlers/messages.rs:527-559 | inserts the row unless present, and emits exactly when it inserted; not found and forbidden as in the handler |
| `Reactions.ReactionHandlers.RemoveReaction` | src/handlers/messages.rs:562-590 | deletes the caller's row, and emits exactly when there was one |
| `Reactions.ReactionHandlers.MessageChannel` | src/handlers/messages.rs:517-524 | the channel of a message that exists and is not deleted |
| `Reactions.ReactionHandlers.DeleteRows` | src/handlers/messages.rs:571-576 | the rows without the named one, and whether any matched |
| `Reactions.RunKeepsSystemInv` | migrations/0003_reactions.sql:6-13 | in every reachable state no reaction is stored twice, and each, like each event, belongs to a stored message of the named channel |
| `Reactions.FollowerIsCurrent` | src/handlers/messages.rs:536-588 | a client that knows a channel's reactions at any earlier state and applies that channel's events since knows them now |
| `Reactions.EveryEventIsNews` | src/handlers/messages.rs:547-587 | every event adds what was absent or removes what was present |
| `ReactionHistory.ReactionAnswer` | src/handlers/messages.rs:517-541 | reacting is for those who joined the message's channel and have not left it, while the message is not deleted |
| `ReactionHistory.StoredIffReacted` | src/handlers/messages.rs:527-590 | the stored reactions are those made and not taken back since, by accepted requests |
| `ReactionHistory.EventIffChange` | src/handlers/messages.rs:543-588 | an event is emitted exactly when the reactions change, and says how |
| `ReactionGroups.SelectReactions` | src/handlers/messages.rs:75-80 | selecting the page's messages keeps the grouping of each |
| `ReactionGroups.GroupReactions` | src/handlers/messages.rs:81-97 | the loop files every row under its message and emoji |
| `ReactionGroups.Enrich` | src/handlers/messages.rs:99-115 | each message of a page gets its groups the first time it is listed, since they are taken out of the map |
| `ReactionGroups.Emojis` | src/handlers/messages.rs:85-96 | each emoji once, and exactly those somebody reacted with |
| `ReactionGroups.GroupsKeepTheirOrder` | src/handlers/messages.rs:85-96 | groups are in order of first use |
| `ReactionGroups.UsersKeepTheirOrder` | src/handlers/messages.rs:85-96 | within a group users are in order of reacting |
| `ReactionGroups.GroupsShow` | src/handlers/messages.rs:81-97 | each group shows its emoji, exactly the users who reacted with it, and how many they are |
| `ReactionGroups.PageShowsAll` | src/handlers/messages.rs:99-115 | on a page without repetitions each message has its groups |
| `ReactionGroups.GroupingConserves` | src/handlers/messages.rs:85-97 | flattened, the groups are the message's rows, as a multiset |
| `ReactionGroups.GroupsCountUsers` | src/handlers/messages.rs:87-94 | a group names exactly the users who reacted, each once, so its count is a number of users |
| `Mentions.MentionedJoins` | src/services/notifications.rs:41-51 | across any separator, what a text mentions is what its two sides mention |
| `Mentions.SplitFindsMentions` | src/services/notifications.rs:41-51 | splitting and cleaning tokens finds exactly the names that follow an `@` at the start or after a separator and have three bytes or more |
| `MentionExamples.MentionedIff` | src/services/notifications.rs:41-51 | spelled out by characters: an `@` at the start or after whitespace or a comma, then the longest run of letters, digits, `_`, `-` and `.`, three bytes or more, in lower case |
| `MentionExamples.ExampleMentions` | src/services/notifications.rs:61-65 | the example of the repository's test: "hey @alice and @bob_jones, ping @al" mentions alice and bob_jones |
| `Mentions.AscendingIsUnique` | src/services/notifications.rs:52-53 | a set of names has one strictly ascending list |
| `Mentions.Sort` | src/services/notifications.rs:52-52 | ascending, with the same elements |
| `Mentions.Dedup` | src/services/notifications.rs:53-53 | the same elements, strictly ascending if the input ascends |
| `Mentions.ExtractMentions` | src/services/notifications.rs:39-55 | the strictly ascending list of the names the text mentions |
| `Mentions.ExtractionJoins` | src/services/notifications.rs:39-55 | on `a + separator + b` it is the ascending union of the lists for `a` and `b` |
| `Notifications.NotifyPartners` | src/handlers/messages.rs:253-274 | a notice to each member of a direct channel but the sender |
| `Notifications.NotifyMentioned` | src/handlers/messages.rs:306-334 | a notice to each member mentioned but the sender |
| `Notifications.DispatchNotifications` | src/handlers/messages.rs:237-337 | every user is sent exactly the notices they deserve, each kind at most once, all naming the message, its channel and its sender |
| `Notifications.NoticesPerUser` | src/handlers/messages.rs:237-337 | the sender gets none, and nobody more than two |
| `Notifications.NoticesByCase` | src/handlers/messages.rs:237-337 | case by case who gets which notice, and nobody any other |
| `Notifications.NoMoreNoticesThanNames` | migrations/0001_init.sql:42 | with unique lower-cased usernames there are no more mention notices than names |
| `ChannelHandlers.ChannelHandlers.RequireAdmin` | src/services/access.rs:22-29 | owners and admins among the members, nobody else |
| `ChannelHandlers.ChannelHandlers.InsertMember` | src/handlers/channels.rs:316-323 | inserts unless present and counts the rows |
| `ChannelHandlers.ChannelHandlers.InsertMembers` | src/handlers/channels.rs:66-77 | adds all the members asked for, or reports that one is no user |
| `ChannelHandlers.ChannelHandlers.CreateChannel` | src/handlers/channels.rs:20-81 | the channel with its owner and members, or nothing at all, with each refusal in the handler's order |
| `ChannelHandlers.ChannelHandlers.CreateDirect` | src/handlers/channels.rs:84-138 | an existing channel of exactly the pair if there is one, else a new one with both as members |
| `ChannelHandlers.ChannelHandlers.AddMember` | src/handlers/channels.rs:309-323 | adds a member for a channel admin only |
| `ChannelHandlers.ChannelHandlers.RemoveMember` | src/handlers/channels.rs:340-355 | removes oneself, or anybody for a channel admin |
| `ChannelHandlers.ChannelHandlers.UpdateChannel` | src/handlers/channels.rs:262-283 | renames for a channel admin unless the name is taken |
| `ChannelHandlers.ChannelHandlers.Signup` | src/handlers/auth.rs:21-74 | the new user, joined to the default channel where possible; nothing if the name is taken |
| `ChannelHandlers.ChannelHandlers.EnsureDefaultMembership` | src/handlers/auth.rs:81-134 | joins the default channel, or creates it, or does nothing when its name is taken |
| `ChannelHistory.AdministersIffInCharge` | src/services/access.rs:22-29 | read off the steps: a channel is administered by who founded it, by creating it or as the first user of the default channel, until they remove themselves, and by nobody else |
| `ChannelHistory.LeavingNeedsTheFounder` | src/handlers/channels.rs:340-355 | over any run whoever stops being a member removed themselves or was removed by the founder in charge, and all whom these remove stop |
| `ChannelHistory.RemovalAcceptedIff` | src/handlers/channels.rs:346-348 | other removals are forbidden |
| `ChannelHistory.AdditionAcceptedIff` | src/handlers/channels.rs:309-323 | adding is forbidden except to the founder in charge, fails for who is no user, and otherwise makes a member |
| `ChannelHistory.UpdateAcceptedIff` | src/handlers/channels.rs:262-283 | so is changing name and topic, which fails exactly if another channel has the name; what was given changes, in this channel, and nothing else |
| `ChannelHistory.CreationAcceptedIff` | src/handlers/channels.rs:20-81 | creating is forbidden exactly without the permission, conflicts exactly if the name is taken, fails exactly if somebody named is no user; the channel is private exactly if asked to be, with the name and topic given |
| `ChannelHistory.CreatedMembers` | src/handlers/channels.rs:56-77 | its members are its creator, as owner, and those invited |
| `ChannelHistory.DirectAcceptedIff` | src/handlers/channels.rs:84-138 | a direct channel is for two different users |
| `ChannelHistory.SignupJoinsDefault` | src/handlers/auth.rs:81-134 | whoever signs up is a member of the default channel, and there is one unless another channel has its name |
| `Membership.StepKeepsInv` | src/handlers/channels.rs:20-355 | every step keeps: names unique, administrators are creators, direct channels have no administrator and at most two members, and no pair has two |
| `Membership.RunKeepsInv` | src/handlers/channels.rs:20-355 | so every reachable workspace has them |
| `Membership.CreateDirectKeepsInv` | src/handlers/channels.rs:114-137 | creating a direct channel for a pair that has none keeps pairs unique |
| `Membership.AtMostOneDefault` | src/handlers/auth.rs:88-93 | there is never a second default channel |
| `ChannelAuthority.StepChanges` | src/handlers/channels.rs:56-355 | no step changes a member's role, and whoever joins an existing channel joins as a plain member, added by its creator or by signing up |
| `ChannelAuthority.OnlyTheCreator` | src/services/access.rs:22-29 | in every reachable workspace only a channel's creator can administer it, and nobody a direct one |
| `ChannelAuthority.JoiningNeedsTheCreator` | src/handlers/channels.rs:309-323 | everybody who joins an existing channel was added by its creator, still in charge, or signed up while it was the default |
| `ChannelAuthority.OwnerlessForever` | src/handlers/channels.rs:262-355 | having no administrator is for good; from then on the row never changes and nobody joins, except users who sign up if it is the default channel |
| `ChannelAuthority.OwnerlessOnceCreatorLeaves` | src/handlers/channels.rs:340-355 | a channel whose creator has left never has an administrator again |
| `ChannelAuthority.DefaultIsOwnedIffFirst` | src/handlers/auth.rs:97-120 | a default channel created by a signup has an administrator if and only if nobody had signed up before |
| `DirectChannels.DirectOnlyShrinks` | src/handlers/channels.rs:309-355 | over any run the members of a direct channel only become fewer |
| `DirectChannels.AtMostOneDirect` | src/handlers/channels.rs:93-112 | a pair never has two direct channels |
| `DirectChannels.RequestIsServed` | src/handlers/channels.rs:84-138 | a request by one user for another is served with a direct channel of exactly the two |
| `DirectChannels.SameChannelWhileBothStay` | src/handlers/channels.rs:93-112 | later requests by either of the two return the same channel if and only if both are still in it |
| `DirectChannels.NeverAgainOnceOneLeft` | src/handlers/channels.rs:97-101 | once one has left, it is never returned again |
| `SessionHandlers.SessionHandlers.Login` | src/handlers/auth.rs:137-171 | a session for the right password of an active user; the refusals in the handler's order |
| `SessionHandlers.SessionHandlers.Signup` | src/handlers/auth.rs:21-74 | a new active user with one token |
| `SessionHandlers.SessionHandlers.Refresh` | src/handlers/auth.rs:174-217 | revokes a token that stands before looking at its user, then issues the next |
| `SessionHandlers.SessionHandlers.Logout` | src/handlers/auth.rs:220-226 | revokes all tokens of the user and no other |
| `SessionHandlers.SessionHandlers.SetActive` | src/handlers/users.rs:155-191 | refuses self-deactivation and unknown users; deactivation revokes all of the user's tokens |
| `SessionHandlers.SessionHandlers.IssueSession` | src/handlers/auth.rs:229-242 | inserts one unrevoked row |
| `SessionHandlers.SessionHandlers.RevokeRows` | src/handlers/auth.rs:221-224 | row by row, exactly the user's tokens are revoked |
| `RefreshTokens.StepKeepsInv` | src/handlers/auth.rs:178-243 | every step keeps that inactive users hold only revoked tokens, and restores none |
| `RefreshTokens.RunKeepsInv` | src/handlers/users.rs:166-188 | so every reachable state has it |
| `RefreshTokens.RowDecidesRefresh` | src/handlers/auth.rs:181-214 | a refresh is accepted if and only if its token's row stands: the later check of the user never decides |
| `TokenHistory.RefreshAcceptedIff` | src/handlers/auth.rs:174-217 | read off the steps: a refresh is accepted if and only if an earlier step issued the token to the claimed user until a time that has not passed, and since then nobody exchanged it and the user was neither logged out nor deactivated; any other is unauthorized |
| `TokenHistory.RowIffGood` | src/handlers/auth.rs:178-243 | in every reachable state the unrevoked rows are those issued and not ended since |
| `TokenHistory.LoginAcceptedIff` | src/handlers/auth.rs:137-171 | a login opens a session if and only if the account signed up, was not deactivated last, and the password is right; each other answer likewise |
| `TokenHistory.SignupAcceptedIff` | src/handlers/auth.rs:21-74 | a signup conflicts exactly if the address or name is taken, and else makes an active user with a token |
| `TokenHistory.SetActiveAnswer` | src/handlers/users.rs:155-178 | nobody deactivates themselves, and nobody is found who has not signed up |
| `RefreshTokens.RevokedForever` | src/handlers/auth.rs:194-225 | rows keep their user and expiry, and revoked ones stay revoked |
| `RefreshTokens.RevokedIsRefused` | src/handlers/auth.rs:189-192 | a token revoked by rotation, logout or deactivation is never accepted again |
| `RefreshTokens.AcceptedAtMostOnce` | src/handlers/auth.rs:189-198 | no run exchanges a token twice |
| `RefreshTokens.OneTokenPerSession` | src/handlers/auth.rs:178-243 | a user's unrevoked tokens are as many as their signups and logins since they last logged out or were deactivated |
| `RefreshTokens.StepCounts` | src/handlers/auth.rs:178-243 | what each step does to that number |
| `RefreshTokens.OneUsableTokenPerSession` | src/handlers/auth.rs:194-243 | at most one token of a session is unrevoked, and all are one user's |
| `RefreshTokens.TokensSucceedOneAnother` | src/handlers/auth.rs:194-243 | a session's tokens are linearly ordered: the first issued on opening it, every other in an accepted refresh of the one before, which is revoked |
| `RefreshTokens.ActiveIsStanding` | src/handlers/users.rs:161-178 | a user is active as the last accepted change set it |
| `RefreshTokens.ForbiddenIffDeactivated` | src/handlers/auth.rs:162-168 | login is answered with "forbidden" if and only if the account exists and was deactivated last |
| `RefreshTokens.DeactivatedLogin` | docs/API.md:88 | a run in which the right password is answered so |

## Left out

- Hub.Hub.DispatchChannel: a closed receiver makes `send` fail and the code ignores it; here every send succeeds, and the log is what was sent, not what the socket wrote.
- Hub.Hub.DispatchUser: as one atomic step; a session that unregisters while the loop runs is not modelled.
- EventBus.EventBus.RunPublisher: over what is queued when it starts; the loop that waits for more is a repetition of it.
- EventBus.EventBus.RunSubscriber: likewise, over what has been received; reconnecting after a failure is the fan-out's reconnect step.
- FanOut.Conservation: local-only dispatches (pong and error frames) are not emissions and do not appear in it; `SocketHandlers.SocketHandlers.HandleClientFrame` has them.
- Sockets.StepKeepsPresenceIff: each connect and disconnect, with its presence write, is one atomic step; the code awaits the write after the hub change, which `PresenceWrites.RowRightIff` covers.
- Sockets.PresenceIsRightIff: likewise, for the same reason.
- Sockets.OneInstanceIsAlwaysRight: likewise; with separate writes it fails (`PresenceWrites.ReloadMarksOffline`).
- PresenceWrites.RowRightIff: hub operations are atomic, and every write that lands succeeds; `HubInterleaving.ResultsRightIffNeverLossy` has the hub's own interleavings.
- Events.EventDescriptor: says which events have a public name, and their channel; that name and payload together tell events apart is `Events.DescriptorIdentifies`.
- Draining.DrainExists: that a draining run exists, not that the publisher and subscriber loops take it.
- HubInterleaving.ResultsRightIffNeverLossy: counts a session from its index insert to its index removal, not from the moment it enters the session map to the moment it leaves it.
- HubInterleaving.DispatchReachesAllButLost: takes the dispatch loop as one read, although sessions may leave the session map while it runs.
- Sha256.Sha256: `rotate_right`, `from_be_bytes` and `to_be_bytes` are taken by their definitions; lengths of 2^61 bytes and more wrap, as in a release build, where a debug build would stop.
- MessageHandlers.MessageHandlers.SendMessage: attachments are only counted, the channel's `updated_at` and the posting permission of a role are not kept, and the notifications sent are a parameter, which `Notifications.DispatchNotifications` determines.
- MessageEvents.FollowerIsUpToDate: a view's author and attachments are not modelled, and its reactions are the subject of `Reactions.FollowerIsCurrent`; the client sees the events in the order in which the handlers ran.
- MessageHandlers.MessageHandlers.DeleteMessage: the channel-admin guard is a parameter, which `ChannelHandlers.ChannelHandlers.RequireAdmin` decides.
- MessageHandlers.MessageHandlers.GetThread: names replies by their position in the table.
- ReactionGroups.Enrich: authors and attachments of a page are not modelled.
- Notifications.DispatchNotifications: the channel type, the parent's author and the member rows are given; a failing insert is not modelled.
- ChannelHandlers.ChannelHandlers.Signup: whether the e-mail or username is taken is a parameter; the password hash is not modelled, and the session it issues is in `SessionHandlers.SessionHandlers.Signup`.
- ChannelHandlers.ChannelHandlers.AddMember: the invitation notice is not sent.
- SessionHandlers.SessionHandlers.Signup: the account's fields, its role and the default channel, which `ChannelHandlers.ChannelHandlers.Signup` has.
- HTTP routing, extractors, request-length validation, CORS, configuration, tracing, shutdown.
- SQL execution and isolation, connection pools, migrations, database failures.
- `pg_dump` and `pg_restore` (src/handlers/system.rs): a restore would break append-only rows, so runs do not include one.
- Argon2, JWT signing, base64, UUID generation.
- File upload and download, multipart bodies, webhook selection and HTTP delivery.
- App links, user search, profile updates, role changes, receipts, health probes: one query each.
- The `after` cursor of a history query, which the code declares and never reads.
- JSON encoding of events: events are values.
