# A verified model of meshserver's transactional core

meshserver is a chat server whose guarantees live in small database transactions, joined by an in-memory fan-out layer.
This project models those transactions and the protocols built from them, and proves what every run of them keeps. Tables
are maps together with their unique keys, a transaction is an atomic step unless it is split below, and code that updates
rows or fields step by step is a class whose methods are proved equal to a specification function.

What the project covers, and where:

- **Channel log** (`ChannelLog`, `Cleanup`, `MessageStore`, `Hydration`): creating a message under the channel row lock,
  attachments and blob reference counts, expiring messages in a select phase and an update phase, the ticker's drain loop,
  and loading attachments in one batch.
- **Sync and fan-out** (`Sync`, `Subscriptions`, `Protocol`, `Delivery`, `SyncRuns`, `NoGap`): cursor paging with 32-bit limits, the
  subscription index, and one state machine in which senders (lock, commit, acknowledge, copy the targets, push), cleaners
  (select, update), admins, subscribers and an observer's page requests interleave freely.
- **Spaces** (`Spaces`, `SpaceEffects`, `SpaceRuns`, `SpaceStore`): ownership, membership, bans, cached counts, the role
  checks of the session layer and the start-up admin bootstrap.
- **Direct messages** (`Direct`, `Pending`, `DirectRuns`, `SendRuns`, `PendingRuns`, `DirectStore`): one conversation per
  pair, racing sends in a lookup and a create, racing acknowledgements in three statements each, and the pending drain.
- **Challenge authentication and wire format** (`Base64`, `Payload`, `Nonces`, `Framing`): the signed payload and its
  base64 (section 4 of RFC 4648), single-use nonces under racing verifications, and length-prefixed frames.
- `Basics` and `Ordering` hold what these share, above all what `ORDER BY ... LIMIT n` returns.

Claims that do not hold of the code, with the exact condition under which they do:

- A session that subscribes, drains and stays subscribed can miss a message, because a failed write of the sender's
  acknowledgement returns before the fan-out: `NoGap.FailedAckLeavesGap` is such a run. `NoGap.SeenExactly` says exactly
  which messages the observer has seen.
- The owner of a space can be banned, because a role change does not look at the ban flag:
  `SpaceRuns.BannedOwnerReachable` is such a run. `SpaceRuns.OwnerNeverBannedIff` says exactly when it does not happen, and
  `SpaceRuns.BannedOwnerAbsorbs` that it cannot be undone.
- A sync limit of 2^32 - 1 makes `limit + 1` wrap to 0 and every page empty: `Sync.EmptyPageIffWrapped`, reachable exactly
  for the configurations of `Sync.WrapReachable`. Under interference a drain misses messages exactly when such a page was
  asked for while messages waited: `SyncRuns.MissedIff`.
- Racing sends of one direct message store one row and may announce it twice: `SendRuns.TwoEventsOneRow` is such a run, and
  `SendRuns.EventWithoutStoreIff` says exactly when a call announces a row it did not store.
- `has_more` of a pending page is true once too often exactly when the last page is full: `Pending.HasMoreSafe`, with an
  input in `Pending.HasMoreOverReports`.
- A session that authenticates as a second user keeps its first entry in the direct index after it ends:
  `Subscriptions.StaleEntryRemains` is such a session, and `Subscriptions.Manager.UnregisterSession` states the exact
  remainder.
- An unbanned user need not be a plain member: a role given to the banned row comes with the unban
  (`SpaceEffects.PromotedWhileBanned`, and `SpaceEffects.StrangerBecomesAdmin` for one input).
  `SpaceEffects.RoleAfterUnban` says exactly which role it is, over any run between the ban and the unban.
- The signed payload is not injective for arbitrary ids: `Payload.MultilineIdsCollide` gives a family of collisions, and
  `Payload.PayloadsEqualIff` the exact condition for two challenges of one server. An accepted proof never meets it: its
  client id equals a peer id derived from a key (internal/auth/service.go:80-82), a single line, and its node id is the
  host's own on a stream (internal/session/manager.go:145) as over HTTP (internal/api/auth_http.go:156-160), so an id with
  a newline does not get past `VerifyChallenge`. `Nonces.SignedOnce` needs only the first of these facts.

Where the code and the documentation disagree, the model follows the code: lifting a ban makes the user a member at once
(`SpaceEffects.MembershipEffect`), while docs/ai-libp2p-client-guide.md:441 says that an unban is not an automatic rejoin.

Conventions: ids are naturals (or opaque strings) with equality; fresh database ids, the clock, random nonces, hashing, key
derivation and signature checks are parameters. A refused transaction changes no row; nothing is claimed about when its
locks are released. `map`-valued index fields such as `bySeq` are the unique keys of the schema.

## Model

| member | source | states |
|---|---|---|
| `Ordering.PageIsPage` | internal/repository/mysql/message.go:137-166 | an ordered, limited query returns ascending rows of the result, as many as the limit allows, and every row left out comes after every row returned |
| `Ordering.PageUnique` | internal/repository/mysql/message.go:137-166 | result set, order and limit determine the page |
| `ChannelLog.AttachSucceeds` | internal/repository/mysql/message.go:100-108 | the attachment loop succeeds exactly when no media is repeated in the message |
| `ChannelLog.RepeatFails` | migrations/0005_blobs_and_media.up.sql:42 | a media already attached to the message stops the loop on the unique key, wherever it comes |
| `ChannelLog.AttachCountsRefs` | internal/repository/mysql/message.go:109-117 | if every blob's count is the number of attachment rows pointing at it, it still is after the loop |
| `ChannelLog.AttachExtends` | internal/repository/mysql/message.go:100-108 | the loop adds exactly the given media at sort orders 0, 1, 2, ... and changes no other row |
| `ChannelLog.CreateResultCorrect` | internal/repository/mysql/message.go:62-127 | a create succeeds exactly when its client key is stored or its message id is new and its media distinct; a success names the row with that key; a repeat or a failure changes nothing; a new row takes the next seq, and of the channels only its own seq and count change, by one each |
| `ChannelLog.CreateAttaches` | internal/repository/mysql/message.go:62-118 | an unknown channel is refused; a new message gets exactly the given media in order and no blob appears or disappears |
| `ChannelLog.CreateKeepsLog` | internal/repository/mysql/message.go:62-127 | keeps the log invariant: the three unique keys, seqs exactly 1..message_seq, message_count the number of normal rows, reference counts right |
| `ChannelLog.CreateGrows` | internal/repository/mysql/message.go:78-127 | no row is lost or altered and a new row's seq is above all earlier ones, so seq order is commit order |
| `ChannelLog.AddBlobKeepsLog` | internal/repository/mysql/blob.go:32-44 | a new blob with count 0 keeps the log invariant |
| `ChannelLog.AddMediaKeepsLog` | internal/repository/mysql/blob.go:58-71 | a new media row under an unused id keeps it |
| `ChannelLog.GrowsTransitive` | internal/repository/mysql/message.go:78-127 | what holds of the rows across two stretches of a run holds across both |
| `ChannelLog.AddChannelKeepsLog` | internal/repository/mysql/channel.go:225-240 | a new channel with no messages keeps the log invariant |
| `ChannelLog.AddChannelEffect` | internal/repository/mysql/channel.go:225-240 | a new channel has no window and is of the kind it was created as; nothing else changes |
| `ChannelLog.SetAutoDeleteKeepsLog` | internal/repository/mysql/channel.go:295-336 | changing a window keeps the log invariant |
| `ChannelLog.SetAutoDeleteEffect` | internal/repository/mysql/channel.go:295-336 | both refusals and when; otherwise the window becomes what was asked and nothing else changes |
| `Cleanup.SelectMatches` | internal/repository/mysql/message.go:235-248 | every selected row names its own message and channel |
| `Cleanup.RowsMatchLater` | internal/repository/mysql/message.go:235-263 | a selection still names its channels after any other transactions ran |
| `Cleanup.NeverClips` | internal/repository/mysql/message.go:277-292 | the saturating subtraction never saturates, however many cleaners selected the same rows earlier |
| `Cleanup.ApplyKeepsLog` | internal/repository/mysql/message.go:256-292 | the update phase keeps the log invariant for any earlier selection |
| `Cleanup.ApplyGrows` | internal/repository/mysql/message.go:256-292 | the update phase changes the status of exactly the rows hit and the cached counts; every key, seq, attachment and reference count stays |
| `Cleanup.ExpiredIsOverdue` | internal/repository/mysql/message.go:242-245 | the selected condition is: a normal message whose age in milliseconds exceeds a thousand times its channel's non-zero window |
| `Cleanup.PassCorrect` | internal/repository/mysql/message.go:215-303 | a pass deletes and reports min(limit, overdue) messages, 0 standing for 100: only overdue ones, the oldest first, and exactly the others stay overdue |
| `MessageStore.PassOnlyExpired` | internal/repository/mysql/message.go:235-292 | a pass deletes only what its channel's window had expired and leaves channels without a window untouched |
| `MessageStore.PassShrinks` | internal/repository/mysql/message.go:256-302 | the reported number is the drop in normal messages |
| `MessageStore.NothingHit` | internal/repository/mysql/message.go:235-255 | after a pass that reports 0 no message is older than its channel's window at its time |
| `MessageStore.SubtractIsUncount` | internal/repository/mysql/message.go:277-292 | subtracting the per-channel map collected in the loop is subtracting the rows hit in each channel |
| `MessageStore.Store.InsertAttachments` | internal/repository/mysql/message.go:100-118 | the loop computes the specified rows and counts, or stops at the first repeat |
| `MessageStore.Store.constructor` | internal/repository/mysql/message.go:51-60 | empty tables satisfy the log invariant |
| `MessageStore.Store.InsertMessage` | internal/repository/mysql/message.go:62-127 | the transaction as code equals the specified create |
| `MessageStore.Store.Create` | internal/repository/mysql/message.go:51-135 | the same on a sound log, which stays sound |
| `MessageStore.Store.SetGroupAutoDeleteAfterSeconds` | internal/repository/mysql/channel.go:295-336 | refuses unknown channels and broadcasts, otherwise sets the window and nothing else |
| `MessageStore.Store.SyncChannel` | internal/service/messaging.go:107-138 | refuses exactly non-members; clamping, fetching one more and truncating equal the specified page |
| `MessageStore.Store.MarkDeleted` | internal/repository/mysql/message.go:256-275 | the row loop marks exactly the rows still normal and counts them by channel |
| `MessageStore.Store.SubtractCounts` | internal/repository/mysql/message.go:277-292 | the channel loop subtracts each count once, in whatever order the map is walked |
| `MessageStore.Store.SumCounts` | internal/repository/mysql/message.go:298-302 | the 32-bit sum of the counts is the number of rows hit |
| `MessageStore.Store.Sweep` | internal/repository/mysql/message.go:235-303 | select, mark, subtract and sum together equal the specified pass |
| `MessageStore.Store.CleanupExpiredMessages` | internal/repository/mysql/message.go:215-303 | the same on a sound log, which stays sound |
| `MessageStore.Store.DrainPass` | internal/app/app.go:161-169 | one turn of the loop: what it deletes was overdue, its report is min(200, overdue) and the drop in normal messages |
| `MessageStore.Store.DrainExpired` | internal/app/app.go:160-170 | the inner loop ends; it deletes only what had expired when deleted, its reports add up to the rows deleted, seqs and channels without a window are untouched, and unless a pass failed no message is older than its channel's window at the last pass's time |
| `Hydration.BatchRefinesSingle` | internal/repository/mysql/message.go:373-404 | the batch query holds for each message exactly the rows of that message's own query, in the same order |
| `Hydration.RowCarries` | internal/repository/mysql/message.go:373-404 | a loaded row carries its own message, sort order, and the blob and kind of its media row |
| `Hydration.KindLists` | internal/repository/mysql/message.go:406-433 | the images of a message are exactly its joined media that are images, the files the rest, each in sort order |
| `Hydration.CreateThenLoad` | internal/repository/mysql/message.go:100-134 | loading a message just created returns its media in the order given |
| `Hydration.PositionIsLast` | internal/repository/mysql/message.go:344-371 | the id index points at a position exactly when no later row repeats its id |
| `Hydration.MakeItems` | internal/repository/mysql/message.go:344-371 | one fresh object per row, and the index over them |
| `Hydration.Distribute` | internal/repository/mysql/message.go:406-433 | every attachment row lands on its message, images and files apart, each in order |
| `Hydration.HydrateMessages` | internal/repository/mysql/message.go:339-436 | at each position a batch gives what hydrating that row alone gives, and that is exactly its images and its files in sort order: none lost, duplicated or crossed |
| `Sync.ClampInRange` | internal/service/messaging.go:116-121 | under a validated configuration the effective limit is between 1 and the maximum |
| `Sync.SyncChannelCorrect` | internal/service/messaging.go:107-138 | exactly members are served, from their cursor, at the default limit or at what they asked for up to the maximum: unread messages in rising seqs, all up to the new cursor, and `hasMore` exactly when one is left |
| `Sync.PageCorrect` | internal/service/messaging.go:122-137 | a page is the next normal messages by seq, `hasMore` is exact, and the new cursor leaves exactly what was not returned: exactly when the limit is not 2^32 - 1 or nothing waits |
| `Sync.LastPage` | internal/service/messaging.go:122-137 | a page without `hasMore` holds everything and leaves nothing above its cursor, under the same exact condition |
| `Sync.WrappedPage` | internal/service/messaging.go:119-137 | at the limit 2^32 - 1 every page is empty, final and leaves the cursor |
| `Sync.EmptyPageIffWrapped` | internal/service/messaging.go:119-123 | with messages waiting, a page is empty exactly when limit + 1 wrapped in 32 bits, and then it claims to be the last one |
| `Sync.WrapReachable` | internal/config/config.go:208-210 | a validated configuration lets a request wrap exactly when its maximum is 2^32 - 1 |
| `Sync.DrainItems` | internal/service/messaging.go:107-138 | an undisturbed drain is in seq order and returns exactly the matching messages, exactly when the limit does not wrap or there are none |
| `Sync.DrainRequests` | internal/service/messaging.go:116-137 | N matching messages take exactly max(1, ceil(N / limit)) requests; one request when the limit wraps |
| `Subscriptions.AddTargets` | internal/session/manager.go:161-169 | adding a session changes the targets of one channel by that session only and leaves no empty key |
| `Subscriptions.RemoveTargets` | internal/session/manager.go:1092-1100 | removing does the reverse, and drops the key with its last session |
| `Subscriptions.Manager.Connect` | internal/session/manager.go:109-120 | a new stream holds no channel and no user |
| `Subscriptions.Manager.Hello` | internal/session/manager.go:328-345 | the session remembers that it was challenged |
| `Subscriptions.Manager.Authenticate` | internal/session/manager.go:139-158 | succeeds exactly after some challenge and with a verified proof, which replaces the session's user and touches no index |
| `Subscriptions.Manager.SubscribeChannel` | internal/session/manager.go:161-169 | keeps index and session in agreement in both directions; exactly that pair is added |
| `Subscriptions.Manager.Unsubscribe` | internal/session/manager.go:1092-1100 | likewise, exactly that pair is removed |
| `Subscriptions.Manager.RegisterDirectUserSession` | internal/session/manager.go:1044-1058 | enters the session under its current user only |
| `Subscriptions.Manager.ForgetDirect` | internal/session/manager.go:1025-1035 | removes the entry under the last user only |
| `Subscriptions.Manager.UnregisterSession` | internal/session/manager.go:1022-1042 | afterwards the session is in no channel set; it stays in the direct index exactly under users it was entered under other than the last |
| `Subscriptions.Manager.DeliverMessage` | internal/session/manager.go:303-324 | exactly the live sessions holding the channel are written to, once each, and a failed write costs nobody else the event |
| `Subscriptions.StaleEntryRemains` | internal/session/manager.go:1025-1035 | a stream that proved user 1, then user 2, and ended is still listed under user 1 |
| `Protocol.SubscriptionSteps` | internal/session/manager.go:161-169 | whom a fan-out copies after each step: subscribing, unsubscribing and disconnecting change exactly their own entries |
| `Protocol.HistorySteps` | internal/session/manager.go:838-859 | which steps record an acknowledgement, a failed one, a push or a lost push, and that a fan-out copies all sessions of the message's channel |
| `Protocol.HistoryStays` | internal/session/manager.go:838-859 | no other step records any of these |
| `Protocol.CommitHasEffect` | internal/repository/mysql/message.go:62-127 | a lock holder's commit, at any later moment, stores one row with the next seq or returns the stored one |
| `Protocol.StepKeepsInv` | internal/session/manager.go:838-859 | every step of the interleaved system keeps the log invariant, lock exclusivity, lock holders' reads current, selections valid and receipts true, and rows only grow |
| `Delivery.LogSafety` | internal/repository/mysql/message.go:62-292 | in every reachable state a channel's seqs are exactly 1..message_seq with one row each, message_count is its normal rows, each blob's count is the attachment rows pointing at it, and everything stored at any earlier moment is still there |
| `Delivery.RunGrows` | internal/repository/mysql/message.go:78-127 | between any two moments of a run rows only grow, and a row of an old channel that is new at the later one has a seq above message_seq at the earlier |
| `Delivery.CommitOrder` | internal/repository/mysql/message.go:78-127 | seq order is commit order along a run: a message that was there when another of its channel was not has the lower seq |
| `Delivery.DeletedWasExpired` | internal/repository/mysql/message.go:235-275 | under any interleaving, a message that becomes deleted was overdue when some cleaner selected it, and carries that moment as its deletion time |
| `Delivery.CreatesAgree` | internal/repository/mysql/message.go:62-79 | however creates with one client key race or repeat, all successes report the same row and seq |
| `Delivery.SeqCountsKeys` | internal/repository/mysql/message.go:457-469 | message_seq is the number of distinct client keys ever stored: repeats advance it by exactly one in all, even after expiry |
| `SyncRuns.DrainBounded` | internal/service/messaging.go:116-137 | at every moment of a drain interleaved with any creates, cleanups and admin changes the returned seqs rise strictly and are those of messages of the channel above the start, every still-normal message up to the cursor was returned, and the number of requests is bounded by the seqs reached |
| `SyncRuns.DrainUnderInterference` | internal/service/messaging.go:116-137 | the last page completes the still-normal messages above the start exactly when its limit did not wrap or nothing was waiting |
| `SyncRuns.MissedIff` | internal/service/messaging.go:119-137 | a drain has missed nothing exactly when no page was asked for at the wrapped limit while messages waited |
| `NoGap.SubscribeThenSync` | internal/session/manager.go:838-859 | for a session subscribed throughout, every still-normal message above the start was returned, was pushed, is owed by a handler still on its way, or was lost: to a failed write, or to a last page whose limit wrapped |
| `NoGap.NoGapFromEmpty` | internal/session/manager.go:161-169 | from the empty server, whatever ran before the subscription: when the writes for a message succeed and no page wrapped with messages waiting, a still-normal message above the start was returned, was pushed, or has a handler still at work on it |
| `NoGap.SeenExactly` | internal/session/manager.go:847-858 | once handlers have finished, a message no wrapped page missed was seen exactly when the cursor passed it or some acknowledgement of it was written |
| `NoGap.FailedAckLeavesGap` | internal/session/manager.go:847-858 | a run with a failed acknowledgement write leaves a stored, normal message unseen |
| `Spaces.TxKeepsOneOwner` | internal/repository/mysql/server.go:98-600 | every transaction with any arguments keeps exactly one owner row per space, that of owner_user_id |
| `Spaces.TxKeepsCounts` | internal/repository/mysql/bootstrap.go:45-67 | every transaction leaves all cached counts equal to the rows they stand for, those that do not refresh included |
| `Spaces.BanLiftedOnlyByUnban` | internal/repository/mysql/server.go:166-434 | after a transaction a banned user is unbanned exactly when it was a successful unban of that user in that space |
| `Spaces.OwnerBecomesBanned` | internal/repository/mysql/server.go:542-578 | from an unbanned owner, a transaction leaves a banned one exactly when it hands the space to a banned row |
| `SpaceEffects.MoveLaw` | internal/repository/mysql/server.go:542-590 | a banned row that is not unbanned keeps its role unless a role change sets it or a transfer demotes it |
| `SpaceEffects.RoleAfterUnban` | internal/repository/mysql/server.go:372-434 | along any run, the user whose ban is lifted has at once exactly the role the last such change left, a plain member exactly when there was none or it left that |
| `SpaceEffects.PromotedWhileBanned` | internal/session/manager.go:551-578 | for every space, owner and other user: ban, role change and unban are all permitted and leave a member with that role |
| `SpaceEffects.StrangerBecomesAdmin` | internal/session/manager.go:551-578 | the same from an empty server: a stranger is an admin |
| `SpaceEffects.MembershipEffect` | internal/repository/mysql/server.go:166-434 | exactly when adding, kicking, banning and unbanning succeed, how the user then reads, and that nobody else is touched |
| `SpaceEffects.RoleEffect` | internal/repository/mysql/server.go:509-600 | exactly when a role change succeeds; a transfer moves owner_user_id and leaves the old owner an admin; no other row changes |
| `SpaceEffects.MembershipFrame` | internal/repository/mysql/server.go:166-434 | adding, kicking, banning and unbanning leave owners, settings, channels and seats alone |
| `SpaceEffects.Refusals` | internal/repository/mysql/server.go:166-600 | why each membership or role transaction is refused, exactly |
| `SpaceEffects.SettingEffect` | internal/repository/mysql/server.go:466-507 | the flag becomes what was asked and nothing else changes |
| `SpaceEffects.HandleAdministers` | internal/session/manager.go:551-787 | an administrative request changes rows only for an unbanned owner or admin, a transfer only for the owner; others get the refusal their row calls for; let through, it is the transaction on the user it names |
| `SpaceEffects.HandleOthers` | internal/session/manager.go:445-474 | who may join, create spaces and create channels, and as what |
| `SpaceEffects.BootstrapEffect` | internal/repository/mysql/default_admin_bootstrap.go:60-84 | exactly unless banned or without the space, the configured user ends as admin, an owner as owner |
| `SpaceEffects.BootstrapFrame` | internal/repository/mysql/default_admin_bootstrap.go:60-84 | nobody else's row, no owner and no setting changes |
| `SpaceEffects.CreationFrame` | internal/repository/mysql/channel.go:221-259 | creating touches no other space, membership or seat |
| `SpaceEffects.CreationRefusals` | internal/repository/mysql/channel.go:163-217 | why a creation is refused, exactly |
| `SpaceEffects.CreationEffect` | internal/repository/mysql/channel.go:163-293 | exactly when spaces and channels are created, and that the creator owns what was created and is alone in it |
| `SpaceRuns.RunsKeepSpaces` | internal/repository/mysql/server.go:98-600 | after any transactions, stale role checks included, each space has exactly one owner row and every count is right |
| `SpaceRuns.CountsMean` | internal/repository/mysql/bootstrap.go:45-67 | what the cached counts stand for: unbanned rows, open channels, and the seats of a channel |
| `SpaceRuns.OwnerUnique` | internal/repository/mysql/server.go:140-147 | a user's row has the owner role exactly when the user is owner_user_id |
| `SpaceRuns.BanLasts` | internal/repository/mysql/server.go:166-434 | a ban outlasts any joins, invites, kicks, role changes and bans until its own unban succeeds |
| `SpaceRuns.OwnerNeverBannedIff` | internal/repository/mysql/server.go:542-578 | along a run the owner is never banned exactly when no transaction hands the space to a banned row |
| `SpaceRuns.EventKeepsOneOwner` | internal/repository/mysql/default_admin_bootstrap.go:60-84 | handlers with their role checks, and the bootstrap, keep the one owner |
| `SpaceRuns.NobodyMayTransfer` | internal/session/manager.go:560-568 | under a banned owner nobody passes the check for a transfer |
| `SpaceRuns.BannedOwnerAbsorbs` | internal/session/manager.go:551-600 | no later run of handlers or bootstraps changes a banned owner or lifts that ban |
| `SpaceRuns.BannedOwnerReachable` | internal/session/manager.go:570-578 | three permitted requests of one owner end with a banned owner |
| `SpaceStore.Store.constructor` | internal/repository/mysql/bootstrap.go:45-67 | empty tables satisfy both invariants |
| `SpaceStore.Store.RefreshAggregateCounts` | internal/repository/mysql/bootstrap.go:45-67 | overwrites the counts of one space and of its channels, subscriber counts included |
| `SpaceStore.Store.CreateSpace` | internal/repository/mysql/server.go:98-156 | the code equals the specified transaction, and both invariants are kept |
| `SpaceStore.Store.AddSpaceMember` | internal/repository/mysql/server.go:166-234 | the code equals the specified transaction, and both invariants are kept |
| `SpaceStore.Store.KickSpaceMember` | internal/repository/mysql/server.go:236-294 | the code equals the specified transaction, and both invariants are kept |
| `SpaceStore.Store.BanSpaceMember` | internal/repository/mysql/server.go:296-370 | the code equals the specified transaction, and both invariants are kept |
| `SpaceStore.Store.UnbanSpaceMember` | internal/repository/mysql/server.go:372-434 | the code equals the specified transaction, and both invariants are kept |
| `SpaceStore.Store.SetSpaceMemberRole` | internal/repository/mysql/server.go:509-600 | the code equals the specified transaction, and both invariants are kept |
| `SpaceStore.Store.SetSpaceAllowChannelCreation` | internal/repository/mysql/server.go:466-507 | the code equals the specified transaction, and both invariants are kept |
| `SpaceStore.Store.CreateChannel` | internal/repository/mysql/channel.go:163-293 | the code equals the specified transaction, and both invariants are kept |
| `SpaceStore.Store.EnsureAdminMembership` | internal/repository/mysql/default_admin_bootstrap.go:60-84 | invites and promotes when the role is missing or too low, and reports the refusal that stops it, as for a banned admin |
| `Direct.OneConversationPerPair` | internal/repository/mysql/direct_chat.go:16-88 | whoever asks first, both users get the same conversation, and asking again changes nothing |
| `Direct.OpenKeepsTables` | internal/repository/mysql/direct_chat.go:25-88 | opening keeps pairs, send keys and seqs unique and dense |
| `Direct.CreateResultCorrect` | internal/repository/mysql/direct_chat.go:226-291 | stored exactly from one participant to the other; a success names the row with the sender's client id; a repeat or refusal changes nothing; a new row takes the next seq |
| `Direct.CreateFrame` | internal/repository/mysql/direct_chat.go:262-286 | a send touches no other message and no other conversation |
| `Direct.OpenFrame` | internal/repository/mysql/direct_chat.go:25-88 | only oneself is refused as a peer; a new conversation starts empty and nothing else changes |
| `Direct.CreateKeepsTables` | internal/repository/mysql/direct_chat.go:226-291 | sending keeps the invariant of both tables |
| `Direct.CreateGrows` | internal/repository/mysql/direct_chat.go:262-286 | no row is lost or altered and a new row's seq is above all earlier ones |
| `Direct.AckKeepsTables` | internal/repository/mysql/direct_chat.go:306-308 | the conditional update keeps the invariant |
| `DirectRuns.AckSafety` | internal/repository/mysql/direct_chat.go:294-325 | over all interleavings no call ends in "ack failed", at most one call per message ends with already = false and the message carries its time and recipient, and a message not acknowledged at the start is acknowledged exactly when such a call exists |
| `DirectRuns.AckTimeFixed` | internal/repository/mysql/direct_chat.go:306-308 | an acknowledged row never changes again |
| `DirectRuns.WinIsFirst` | internal/repository/mysql/direct_chat.go:306-322 | a call that wins does so on a row no earlier call won |
| `SendRuns.SendsAgree` | internal/repository/mysql/direct_chat.go:250-260 | however sends with one key race or repeat, all successes report the same row and seq |
| `SendRuns.SeqCountsSends` | internal/repository/mysql/direct_chat.go:262-286 | the last seq of a conversation is the number of distinct keys ever sent in it |
| `SendRuns.RowStoredOnce` | internal/service/direct_chat.go:177-213 | each row of a run was stored by exactly one call, and that call announces it |
| `SendRuns.EventWithoutStoreIff` | internal/service/direct_chat.go:159-213 | a call announces a row it did not store exactly when its key was absent at its lookup and present at its create |
| `SendRuns.TwoEventsOneRow` | internal/service/direct_chat.go:159-213 | a run in which two calls announce the one row |
| `DirectStore.AckAlone` | internal/repository/mysql/direct_chat.go:294-325 | uninterrupted, each of the four outcomes happens exactly when its row condition holds |
| `DirectStore.Store.GetOrCreateConversation` | internal/repository/mysql/direct_chat.go:25-88 | the code equals the specified transaction |
| `DirectStore.Store.CreateDirectMessage` | internal/repository/mysql/direct_chat.go:215-292 | the code equals the specified transaction |
| `DirectStore.Store.AckDirectMessage` | internal/repository/mysql/direct_chat.go:294-325 | the code equals the three statements run without interruption, and returns the row's sender and conversation |
| `DirectStore.TargetErrors` | internal/service/direct_chat.go:130-157 | every refusal of a target and its kind, exactly |
| `DirectStore.Store.ResolveTarget` | internal/service/direct_chat.go:130-157 | finds or opens the conversation and its other participant, or refuses with the error each case calls for and changes nothing |
| `DirectStore.Store.StoreOnce` | internal/service/direct_chat.go:159-190 | looks the key up and stores once; what is returned is the row with that key, addressed to the other participant |
| `DirectStore.Store.SendDirectMessage` | internal/service/direct_chat.go:113-213 | exactly when and with which error a send is refused; otherwise the reply names the row with the client's key, and, uninterrupted, an event comes exactly when this call stored it |
| `DirectStore.Store.ListPendingDirectMessages` | internal/repository/mysql/direct_chat.go:327-395 | the scan loop returns the rows of the page in order, its cursor and its `hasMore` |
| `DirectStore.Store.SyncDirectMessages` | internal/service/direct_chat.go:244-283 | refusals, and the page at the effective limit |
| `Pending.EffectiveLimitRange` | internal/repository/mysql/direct_chat.go:328-330 | no limit means 50, one up to 500 is honoured, anything above means 100 |
| `Pending.PendingAnswers` | internal/repository/mysql/direct_chat.go:331-394 | the page lists unacknowledged messages of the conversation to the user with their seqs, up to its cursor all of them |
| `Pending.PendingCorrect` | internal/repository/mysql/direct_chat.go:331-394 | a page is the next pending messages by seq and the new cursor leaves exactly those not returned |
| `Pending.HasMoreSafe` | internal/repository/mysql/direct_chat.go:389-394 | `hasMore` false means nothing pending above the cursor; it over-reports exactly when the last page is full |
| `Pending.HasMoreOverReports` | internal/repository/mysql/direct_chat.go:389-394 | one pending message and a limit of one: the page holds it, promises more, and nothing is left |
| `Pending.DrainRequests` | internal/repository/mysql/direct_chat.go:389-394 | undisturbed, P pending messages take exactly floor(P / limit) + 1 requests |
| `Pending.DrainItems` | internal/repository/mysql/direct_chat.go:327-395 | undisturbed, a drain returns the pending messages once each, in seq order |
| `PendingRuns.DrainBounded` | internal/repository/mysql/direct_chat.go:327-395 | at every moment of any run the returned seqs rise strictly and are those of messages of the conversation to the recipient, everything still pending up to the cursor was returned, and the number of requests is bounded by the seqs reached |
| `PendingRuns.DrainComplete` | internal/service/direct_chat.go:256-260 | a last page leaves nothing pending above the cursor, and everything above the start that is still pending was returned exactly once, in strictly rising seqs |
| `Base64.RoundTrip` | internal/auth/service.go:127 | decoding an encoding gives the bytes back (section 4 of RFC 4648, with padding) |
| `Base64.Alphabet` | internal/auth/service.go:127 | the alphabet of section 4 of RFC 4648 |
| `Base64.GroupBits` | internal/auth/service.go:127 | three bytes and four sextets are the same 24 bits, most significant first |
| `Base64.EncodedLength` | internal/auth/service.go:127 | four characters for every group of three bytes begun |
| `Base64.GroupsCover` | internal/auth/service.go:127 | the number of groups is the least that covers the bytes |
| `Base64.LastGroup` | internal/auth/service.go:127 | two, one or no padding characters for one, two or three bytes left over |
| `Payload.PayloadText` | internal/auth/service.go:121-131 | the six lines of the payload, to the letter |
| `Payload.DecimalPlain` | internal/auth/service.go:128-129 | at most a minus sign and no superfluous zero |
| `Payload.DecimalRoundTrip` | internal/auth/service.go:128-129 | signed decimal printing can be read back, for every integer |
| `Payload.PayloadsEqualIff` | internal/auth/service.go:121-131 | for one protocol, two payloads are equal exactly when nonce and times are equal and either both ids are, or the client id of one and the node id of the other hold the separator so that the same text is split elsewhere |
| `Payload.PayloadInjective` | internal/auth/service.go:121-131 | equal payloads have equal protocol, client, node, nonce and times unless, in one direction, both the client id and the other side's node id hold the separator; single-line ids never do |
| `Payload.ProtocolDetermined` | internal/auth/service.go:121-131 | different single-line protocols never share a payload |
| `Payload.MultilineIdsCollide` | internal/auth/service.go:121-131 | any texts around the separator give two different challenges with one payload |
| `Nonces.ProofAcceptedIff` | internal/auth/service.go:65-97 | a proof passes the checks exactly when timely, by the client's key and signed over its payload; each failure has its own error |
| `Nonces.IssueEffect` | internal/auth/service.go:46-52 | a challenge is issued exactly under a new hash, and expires the configured time after its issue |
| `Nonces.SingleUse` | internal/repository/mysql/read_and_auth.go:59-76 | over all interleavings a nonce backs at most one success |
| `Nonces.SuccessWasIssued` | internal/auth/service.go:65-117 | a success is for a challenge issued with that nonce to that client and node, no later than the stored expiry, signed by the client's key |
| `Nonces.SignedOnce` | internal/auth/service.go:84-101 | one signed payload is good for at most one success |
| `Nonces.Service.StoreNonce` | internal/repository/mysql/read_and_auth.go:45-57 | stores an unused row exactly when the hash is new |
| `Nonces.Service.UseNonce` | internal/repository/mysql/read_and_auth.go:59-76 | succeeds exactly on a matching, unused, unexpired row, and cannot succeed again |
| `Nonces.Service.IssueChallenge` | internal/auth/service.go:40-62 | the challenge handed out is stored and usable until its expiry |
| `Nonces.Service.VerifyChallenge` | internal/auth/service.go:65-119 | the exact condition of success, the error of each failure, and that the nonce is spent even when the login then fails |
| `Framing.HeaderRoundTrip` | internal/protocol/codec.go:54 | a 32-bit length survives its four bytes |
| `Framing.HeaderBigEndian` | internal/protocol/codec.go:54 | the length goes most significant byte first |
| `Framing.OversizeRefused` | internal/protocol/codec.go:31-33 | 8 MiB is the cap, and a longer announcement is refused whatever follows |
| `Framing.FrameReads` | internal/protocol/codec.go:26-59 | a frame reads back as its payload, whatever follows it |
| `Framing.CutFrame` | internal/protocol/codec.go:28-36 | a frame cut short gives end of file at its start or right after its header, and unexpected end of file elsewhere |
| `Framing.CutStream` | internal/protocol/codec.go:26-44 | a stream cut at any byte yields exactly the whole frames before the cut, and then the error the remainder determines |
| `Framing.ReadBack` | internal/protocol/codec.go:26-59 | a complete stream reads back exactly what was written and ends cleanly |
| `Framing.ReadSound` | internal/protocol/codec.go:26-44 | on any bytes, the payloads read are within the cap and their frames are what the stream starts with |
| `Framing.HandledUpTo` | internal/session/manager.go:122-135 | what the loop handles are the stream's payloads up to the first that is no envelope, and it ends with the stream's own error exactly when there is none |
| `Framing.ReadsInLockOrder` | internal/session/manager.go:1102-1110 | under any interleaving that respects the write mutex, and any cut, the reader gets a prefix of the accepted payloads in lock order |
| `Framing.Stream.Receive` | internal/protocol/codec.go:26-44 | the code consumes exactly one frame or fails as specified |
| `Framing.Stream.Send` | internal/protocol/codec.go:46-59 | writes one frame, or nothing when the payload is too large |
| `Framing.Stream.HandleStream` | internal/session/manager.go:122-135 | the read loop handles what the specification says and stops at the first error, of the stream or of decoding |

## Left out

- SQL text, collation, connection retry and the migrations: tables are maps with their unique keys.
- 64-bit overflow of seqs and counts: they are unbounded; the 32-bit arithmetic of limits and cleanup totals is modelled.
- `validateMessage`, slow mode and inline uploads in front of a channel create: idempotence is a property of the store's create, not of `SendMessage`, which may reject a retry.
- Trimming of names, ids and texts, and the enum conversions: values arrive trimmed.
- User lookup in space requests: the users named exist; a direct send takes the set of known users as a parameter.
- Membership and view permission checks of channels: `SyncChannel` takes the membership answer as a parameter; kick and ban leave channel seats alone and nothing is claimed about channel access.
- Release of row locks: a refused transaction that neither commits nor rolls back is modelled as "no row changes".
- The read and delivered cursors: two maximum-keeping upserts with no relation between them in the code.
- The content of the session's own challenge: the code only asks that there is one, and the nonce rows carry the guarantee.
- SHA-256, key derivation, signatures and random ids: parameters; where a hash collision matters it is a stated assumption.
- Protobuf encoding: frames carry opaque payloads, and whether one decodes is a parameter.
- Subscriptions.Manager.DeliverMessage: does not cover WebSocket subscribers, which are pushed to after the streams.
- Channel type and visibility, and the sort order of a new channel: they take no part in what is proved.
- A write that fails half-way: a reader of the stream so far is covered by the cut-stream theorems, later writers on the broken stream are not modelled.
- HTTP and WebSocket endpoints, JWT, configuration loading, media storage, IPFS, discovery, the REST copy of the dispatch rules, queries that only list rows: they would add easy members or wrap unseen libraries.
