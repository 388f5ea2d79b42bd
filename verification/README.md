# Chat backend: a verified model

The repository is a chat backend: rooms with moderation, dialogs between friends, attachments, presence
and live sockets. This project models its service layer and proves what its tables, caches and streams
keep over every run. `dafny verify dfyconfig.toml` checks the whole project.

Each service call is one transaction. Where the source changes rows step by step there is a class whose
fields are the tables and whose methods make the same checks and updates in the same order; the method's
contract says that the call commits exactly the new tables of a function on tables, or fails with that
error and changes nothing. A class remembers its calls in a ghost field, and `Valid()` says that its tables
are those of the run of these calls. Theorems are stated over runs (`Run(ops)` for every `ops`), so they hold
for the classes after any sequence of calls. `ChatTables` joins the social, room and message tables into one
world in which each call decides access from the tables of that moment; `ChatStore.Valid()` ties its own
tables and those of the two stores below it to one such run, and the sockets of `Live` run over the same world.

| file | models |
|---|---|
| Wrappers.dfy, Ordering.dfy, Decimal.dfy | options, results, sorting, Python's text order, blanks and integers |
| UserPair.dfy | UUIDs, their text and the canonical pair |
| ConnectionRegistry.dfy, PresenceService.dfy | the TTL index in Redis, presence, the SQL mirror and the parity check |
| Social.dfy | friend requests, friendships, peer bans, the cached flag of dialogs |
| Rooms.dfy | rooms, memberships, bans, invitations, read states, audit log |
| Messages.dfy | messages, replies, attachments, join rows, blobs |
| Chat.dfy | the joint world of social, room and message tables, and the service over it |
| Consumers.dfy | sockets, broker groups, published events, events in flight |
| Ranges.dfy, Storage.dfy, Backfill.dfy | range headers, the two stores, streaming, the migration command |
| Cursor.dfy, History.dfy | base64, cursors, page windows and the walk over pages |
| Unread.dfy | read markers and unread counts |

Choices of the model:

- Times are integers in microseconds, and there is one clock. A Redis key is live while the clock is below
  its expiry; an expired key is as good as absent.
- A connection key is a channel name and belongs to one socket, so to one user (`owner` in
  `ConnectionRegistry.Registry`). Were a key registered by two users, both sets would list it.
- Ids and storage keys drawn by the caller are parameters. A repeated id is the integrity error it is in
  the source; a repeated storage key is followed through to the blob that the source then deletes.
- `serial` of a message is its place in the order of insertion. It is no column; replies are ordered by it.
- In `MessageTables` alone the result of an access check is the parameter `denied`, so its theorems hold for
  every access policy. In the joint world (`ChatTables`) it is computed, and `ChatStore` offers no other way.
- Calls made on the room or social store directly are taken up by `ChatStore.TakeUpRoomCall` and
  `TakeUpSocialCall`; the deletion of a room has to go through `ChatStore.DeleteRoom`.
- A dialog is named by its canonical pair of users.
- Events in flight are a multiset, so deliveries may be delayed and reordered at will.
- How uploads end in the migration is a parameter for each row.

Where the code and the repository's own documents differ, the model follows the code. The migration notes
(docs/ATTACHMENT_STORAGE_MIGRATION.md:42-46) call the backfill idempotent: a failing size query after an
upload leaves an unchecked object that later runs skip (`Backfill.UncheckedUploadChangesDownloads`).
The range parser leaves section 14.1.2 of RFC 9110 on exactly three kinds of text
(`Ranges.ParserMeetsRfcIff`); on a bound of more than 4300 digits the interpreter's `int` raises a ValueError
that the view does not catch. Friends need not be free of bans, and exactly one kind of call makes them so
(`SocialTables.FriendsMayBeBanned`, `SocialTables.FriendsStayUnbannedIff`).

## Model

| member | source | states |
|---|---|---|
| `ConnectionRegistry.Registry.ListConnections` | backend/apps/chat/realtime/connection_registry.py:97-130 | Returns exactly the user's registrations that are younger than the TTL and not unregistered since, each once, most recent first; pruning, renewing or deleting the set keeps every live key indexed by a set that outlives it |
| `ConnectionRegistry.Registry.RegisterConnection` | backend/apps/chat/realtime/connection_registry.py:58-87 | Records one registration at the current time and then reports exactly the user's live connections; the index stays right |
| `ConnectionRegistry.Registry.UnregisterConnection` | backend/apps/chat/realtime/connection_registry.py:90-94 | Records one unregistration and then reports exactly the user's live connections; the index stays right |
| `ConnectionRegistry.Registry.Probe` | backend/apps/chat/realtime/connection_registry.py:105-112 | The loop splits the indexed keys exactly into the live records and the stale ids |
| `ConnectionRegistry.Registry.Tick` | backend/apps/chat/realtime/connection_registry.py:80-86 | Keys and sets may expire at any moment: the passing of time keeps the index right |
| `ConnectionRegistry.ReplayIsLastWord` | backend/apps/chat/realtime/connection_registry.py:58-94 | The registration held for a key is the last thing that happened to it, and conversely |
| `ConnectionRegistry.ReportIsFreshLastWords` | backend/apps/chat/realtime/connection_registry.py:97-130 | A report contains a connection if and only if it was registered at some point of the history by that user, nothing happened to its key since, and it is younger than the TTL |
| `ConnectionRegistry.ReportIsDetermined` | backend/apps/chat/realtime/connection_registry.py:121-130 | Ties being broken by the key, the order of a report leaves nothing open: any two sorted reports are equal |
| `ConnectionRegistry.PruningKeepsConsistent` | backend/apps/chat/realtime/connection_registry.py:105-119 | Removing exactly the members without a live record, with a full TTL for the rest, or dropping the set when nothing was found, keeps every live key indexed |
| `ConnectionRegistry.ReindexingKeepsConsistent` | backend/apps/chat/realtime/connection_registry.py:114-119 | Replacing a user's set by its live members with a full TTL, or deleting it when there are none, loses no live connection of anybody |
| `PresenceService.ParityIffNothingLapsed` | backend/apps/chat/migration/parity_checks.py:10-45 | While the two stores mirror each other, live Redis connections are exactly the open rows within the TTL, presence and count agree if and only if no open row of the user has lapsed, and Redis never ranks above SQL (offline < afk < online) |
| `PresenceService.ComputeIsPresenceOf` | backend/apps/chat/realtime/presence.py:23-33 | Presence depends on the set of connections only, not on their order |
| `PresenceService.Service.UpsertPresenceConnection` | backend/apps/presence/services.py:213-276 | Keeps the mirror between open rows and registrations, leaves the stored presence equal to what the considered connections amount to, and returns an update exactly when it changed |
| `PresenceService.Service.ClosePresenceConnection` | backend/apps/presence/services.py:279-311 | The same for closing: the row is stamped exactly when Redis forgets the connection |
| `PresenceService.Service.RecomputeUserPresence` | backend/apps/presence/services.py:62-100 | Stores the presence of the considered connections; the time of change moves only when the presence does |
| `PresenceService.Service.CompareToLegacySql` | backend/apps/chat/migration/parity_checks.py:10-45 | Holds exactly one mismatch for differing presence and one for differing counts, in that order, and is empty if and only if both agree |
| `PresenceService.Service.CheckParity` | backend/apps/presence/services.py:250-255 | With dual writing on, the check is silent if and only if no open row of the user has lapsed |
| `UserPair.TextOrderIsNumericOrder` | backend/apps/social/services.py:36-41 | Comparing the hyphenated hexadecimal texts of two ids (section 4 of RFC 9562) compares the 128-bit numbers, and no two ids share a text |
| `UserPair.CanonicalPairIsOneKey` | backend/apps/chat/services.py:87-92 | The pair fails only for one user twice, is symmetric, satisfies the database order user_low < user_high, and two calls give the same key if and only if they name the same two users |
| `SocialTables.FrozenIffMayNotTalk` | backend/apps/social/services.py:44-71 | After every run of social calls each dialog is frozen if and only if the two are not friends or one bans the other, and has a reason if and only if it is frozen |
| `SocialTables.EitherSendCheckSuffices` | backend/apps/chat/services.py:749-757 | After every run the frozen check and the friendship and ban check of message sending let through the same senders |
| `SocialTables.AcceptAlwaysCreates` | backend/apps/social/services.py:153-173 | An accept that passes its checks finds the pair not yet friends and adds exactly that friendship |
| `SocialTables.OnePendingRequestPerPair` | backend/apps/social/services.py:117-150 | After every run at most one pending request joins two users in either direction, and none joins friends |
| `SocialTables.AuditLogRebuildsPeerBans` | backend/apps/social/services.py:209-252 | After every run the created and removed events of an ordered pair alternate and tell whether the ban is in force |
| `SocialTables.FriendsMayBeBanned` | backend/apps/social/services.py:153-173 | A run in which a request is accepted after a ban: the pair end up friends and banned at once |
| `SocialTables.AcceptBefriendsBannedIffBanInForce` | backend/apps/social/services.py:153-173 | After an accept the new friends may talk if and only if no ban was in force when it was made |
| `SocialTables.FriendsStayUnbannedIff` | backend/apps/social/services.py:117-252 | Of all social calls exactly the accept of a request across a ban in force makes friends who are banned |
| `SocialTables.NeverBannedFriendsIff` | backend/apps/social/services.py:117-252 | Throughout a run no friends are banned if and only if no accept of the run crosses a ban in force |
| `SocialTables.FriendsIffAcceptedLast` | backend/apps/social/services.py:153-233 | After every run two users are friends if and only if at some step one accepted the other's request and at no later step either removed or banned the other |
| `SocialTables.FriendshipIsAccepted` | backend/apps/social/services.py:153-173 | A friendship begins only when the addressee accepts the pending request of the other |
| `SocialTables.FriendshipIsEnded` | backend/apps/social/services.py:192-233 | A friendship ends only when one of the two removes or bans the other |
| `SocialTables.BansBelongToTheirSource` | backend/apps/social/services.py:209-252 | Only its source makes or lifts a ban |
| `SocialTables.DialogsOpenAmongFriends` | backend/apps/chat/services.py:545-557 | A dialog appears only when one of the pair opens it while they are friends without a ban, and it never disappears |
| `SocialTables.RunKeepsInv` | backend/apps/social/services.py:117-252 | Canonical keys, right flags, exclusive pending requests and a truthful log hold after every run |
| `SocialService.SocialStore.CreateFriendRequest` | backend/apps/social/services.py:117-150 | Commits the request or fails with the right error and no change |
| `SocialService.SocialStore.AcceptFriendRequest` | backend/apps/social/services.py:153-173 | Commits the friendship, the answered request and the refreshed dialog together, or changes nothing |
| `SocialService.SocialStore.RejectFriendRequest` | backend/apps/social/services.py:176-189 | Commits the rejection by the addressee, or changes nothing |
| `SocialService.SocialStore.RemoveFriend` | backend/apps/social/services.py:192-206 | Commits the removal together with the freeze of the dialog and returns the dialog if there is one, or changes nothing |
| `SocialService.SocialStore.CreatePeerBan` | backend/apps/social/services.py:209-233 | Commits the ban, the lost friendship, the freeze and the event together; a conflict rolls the removed friendship back |
| `SocialService.SocialStore.RemovePeerBan` | backend/apps/social/services.py:236-252 | Commits the lifted ban, its event and the refreshed dialog together, or changes nothing |
| `SocialService.SocialStore.GetOrCreateDialog` | backend/apps/chat/services.py:545-557 | Returns a dialog that is not frozen, reports whether it is new, or fails without a change |
| `SocialService.SocialStore.FreezeDialogForPair` | backend/apps/social/services.py:44-57 | Freezes the pair's dialog with the reason if there is one and says which |
| `SocialService.SocialStore.RefreshDialogStateForPair` | backend/apps/social/services.py:60-71 | Recomputes flag and reason of the pair's dialog from the other two tables |
| `RoomTables.OwnerChecksAgree` | backend/apps/chat/services.py:106-110 | After every run of room calls, holding the owner role and being owner_user are the same, and every room's owner is a member with access |
| `RoomTables.MembersAreNotBanned` | backend/apps/chat/services.py:136-139 | After every run nobody is both member and banned, so membership alone decides message access, and read states belong to members |
| `RoomTables.AlreadyBannedIsUnreachable` | backend/apps/chat/services.py:477-488 | The conflict for a target who is already banned can never be reported |
| `RoomTables.AuditLogRebuildsRoomBans` | backend/apps/chat/services.py:477-530 | After every run, per live room and user, ban and unban events alternate starting with a ban, and the last one tells whether the ban is in force |
| `RoomTables.BanFollowsRank` | backend/apps/chat/services.py:463-501 | Removing or banning succeeds if and only if the target is a member of strictly lower rank than the acting owner or admin |
| `RoomTables.BanThenUnban` | backend/apps/chat/services.py:477-530 | A ban takes exactly the target's membership and read state and bars joining; the same actor can lift it, which restores neither but reopens a public room |
| `RoomTables.AdmissionIsEarned` | backend/apps/chat/services.py:271-281 | Access is gained only by creating the room, by joining a public room, or by accepting one's own pending invitation, and never while banned |
| `RoomTables.AccessIsGainedByAdmission` | backend/apps/chat/services.py:271-402 | No other call, lifting a ban included, gives anybody access to a room |
| `RoomTables.AccessIsLostByExpulsion` | backend/apps/chat/services.py:252-501 | Access is lost only by leaving, by being removed or banned, or with the room |
| `RoomTables.AccessIffAdmittedLast` | backend/apps/chat/services.py:252-501 | After every run a user has access to a room if and only if some call created it for, joined or admitted the user by invitation, and no later one took the user or the room away |
| `RoomTables.ExpulsionRevokesAccess` | backend/apps/chat/services.py:284-501 | Leaving, being removed or banned, and deleting the room all end access |
| `RoomTables.RolesChangeOnlyByStaff` | backend/apps/chat/services.py:417-460 | A member becomes admin only through the owner, and an admin a member only through other staff |
| `RoomTables.NamesAndInvitationsStayUnique` | backend/apps/chat/models.py:94-128 | Room names stay unique, and so does the pending invitation per room and user, without the database having to refuse |
| `RoomTables.ReplayDetached` | backend/apps/chat/services.py:252-268 | Deleting a room clears only its own events; what the log says about other rooms is unchanged |
| `RoomTables.RunKeepsInv` | backend/apps/chat/services.py:215-530 | One owner per room, exclusive memberships and bans, and a truthful log hold after every run |
| `RoomService.RoomStore.CreateRoom` | backend/apps/chat/services.py:215-234 | Commits room, owner membership and event together, or changes nothing |
| `RoomService.RoomStore.UpdateRoom` | backend/apps/chat/services.py:237-249 | Commits the owner's changes, or changes nothing |
| `RoomService.RoomStore.DeleteRoomRows` | backend/apps/chat/services.py:252-268 | Commits the removal of the room and its memberships, bans, read states and invitations, keeping the events without their room, or changes nothing; messages are deleted by `MessageService.ChatStore.DeleteRoom`, which calls it |
| `RoomService.RoomStore.JoinRoom` | backend/apps/chat/services.py:271-281 | Commits a member-role membership in a public room, or changes nothing |
| `RoomService.RoomStore.LeaveRoom` | backend/apps/chat/services.py:284-292 | Commits the loss of membership and read state together, or changes nothing |
| `RoomService.RoomStore.CreateRoomInvitation` | backend/apps/chat/services.py:355-374 | Commits a pending invitation, or fails with the right error and no change |
| `RoomService.RoomStore.AcceptRoomInvitation` | backend/apps/chat/services.py:377-402 | Commits membership, keeping an existing role, and the answered invitation together, or changes nothing |
| `RoomService.RoomStore.RejectRoomInvitation` | backend/apps/chat/services.py:405-414 | Commits the rejection by the invited user, or changes nothing |
| `RoomService.RoomStore.PromoteRoomAdmin` | backend/apps/chat/services.py:417-436 | Commits role and event together, or fails with the right error and no change |
| `RoomService.RoomStore.DemoteRoomAdmin` | backend/apps/chat/services.py:439-460 | Commits role and event together, or fails with the right error and no change |
| `RoomService.RoomStore.CheckModeration` | backend/apps/chat/services.py:463-474 | Gives exactly the refusal of the four checks, or none |
| `RoomService.RoomStore.BanMember` | backend/apps/chat/services.py:477-501 | The rows of the transaction: membership and read state are back after a conflict |
| `RoomService.RoomStore.CreateRoomBan` | backend/apps/chat/services.py:477-501 | Commits lost membership, lost read state, ban and event together; the rollback of a conflict restores both |
| `RoomService.RoomStore.RemoveRoomBan` | backend/apps/chat/services.py:513-530 | Commits the lifted ban and its event together, or changes nothing |
| `RoomService.RoomStore.MarkRoomRead` | backend/apps/chat/services.py:826-834 | Commits the marker of a user with access, or changes nothing; the time of the latest message is given |
| `MessageTables.BindingsMatchJoins` | backend/apps/chat/services.py:666-696 | After every run an attachment is unbound without a join row, or bound with exactly one, in the table its binding type names, to an existing message |
| `MessageTables.EveryMessageShowsSomething` | backend/apps/chat/services.py:149-163 | After every run, edits and deletions included, each message has a character that is no white space or at least one attachment |
| `MessageTables.ContentIsValidIffVisible` | backend/apps/chat/services.py:149-163 | Validation accepts exactly contents of at most 3072 bytes of UTF-8 that show something or carry an attachment |
| `MessageTables.ReplyChainsEnd` | backend/apps/chat/services.py:640-663 | After every run, following replies stays in the room or dialog, always finds a message, never returns to its start, and ends |
| `MessageTables.PostBindsExactly` | backend/apps/chat/services.py:666-696 | A new message carries exactly the attachments it was posted with, all unbound and its sender's before |
| `MessageTables.BindingIsForGood` | backend/apps/attachments/services.py:158-178 | A bound attachment and its message live and die together and never part |
| `MessageTables.OnlyAuthorsEdit` | backend/apps/chat/services.py:699-714 | The text of a message changes only by its author's edit; author, place and order never change, and a reply pointer only to null |
| `MessageTables.WordsAreLastWritten` | backend/apps/chat/services.py:666-823 | After every run the text of a message is that of the last successful post or edit of it, and its author made that call |
| `MessageTables.BlobsSurviveIffNoCollision` | backend/apps/attachments/services.py:123-155 | A call keeps the stored blobs equal to those of the rows if and only if it is not an upload that draws a storage key already in use |
| `MessageTables.BlobsAreThoseOfRows` | backend/apps/attachments/signals.py:8-10 | Over every run with fresh storage keys the stored blobs are exactly those of the existing rows |
| `MessageTables.RunKeepsInv` | backend/apps/chat/services.py:666-823 | Sound joins, joined bindings, visible messages and backward replies hold after every run |
| `ChatTables.MessagesWereAllowed` | backend/apps/chat/services.py:666-781 | In every run of all service calls, every stored message was sent at some step by its author: in a dialog as one of two friends neither of whom banned the other, in a room as a member without a ban |
| `ChatTables.SendingSucceedsIff` | backend/apps/chat/services.py:666-781 | In every run a message gets in if and only if its sender may post there at that moment, its content is valid, its reply target is in the same room or dialog, its attachments can be locked and its id is new |
| `ChatTables.MessagesHaveChats` | backend/apps/chat/services.py:252-268 | In every run the room or dialog of every stored message exists |
| `ChatTables.ChatsStay` | backend/apps/chat/services.py:252-268 | A room disappears only by its successful deletion, a dialog never |
| `ChatTables.PartsAreRuns` | backend/apps/chat/services.py:215-823 | Social, room and message tables of a joint run are the results of their own calls, so every theorem about such runs holds in the joint one |
| `ChatTables.AccessFollowsBinding` | backend/apps/attachments/services.py:83-120 | In every run the missing-binding branches are dead, and an attachment opens exactly to its uploader while unbound, to the members of the existing room that carries it, or to the two of the existing dialog |
| `MessageService.ChatStore.LockOwnedUnboundAttachments` | backend/apps/chat/services.py:166-184 | Succeeds if and only if the ids are distinct and each names an undeleted, unbound attachment of the user |
| `MessageService.ChatStore.BindAttachments` | backend/apps/chat/services.py:685-695 | Adds one join row per attachment and marks exactly those attachments |
| `MessageService.ChatStore.PostMessage` | backend/apps/chat/services.py:666-781 | Does what sending does to the world of the three stores, the access decision included, and fails as it does |
| `MessageService.ChatStore.InsertMessage` | backend/apps/chat/services.py:676-696 | Once access is granted, message, join rows and bindings are committed together or not at all |
| `MessageService.ChatStore.CreateRoomMessage` | backend/apps/chat/services.py:666-696 | A message enters a room only through a sender with access; message, join rows and bindings are committed together or not at all |
| `MessageService.ChatStore.CreateDialogMessage` | backend/apps/chat/services.py:740-781 | A message enters a dialog only from one of the two while they are friends and neither bans the other |
| `MessageService.ChatStore.UpdateMessage` | backend/apps/chat/services.py:699-714 | Decides access from the room and social stores and commits the author's edit, or fails with the right error and no change |
| `MessageService.ChatStore.UpdateRoomMessage` | backend/apps/chat/services.py:699-714 | Commits the author's edit, or fails with the right error and no change |
| `MessageService.ChatStore.UpdateDialogMessage` | backend/apps/chat/services.py:784-803 | Commits the author's edit by a participant, frozen or not, or changes nothing |
| `MessageService.ChatStore.DeleteMessage` | backend/apps/chat/services.py:717-737 | Decides access and staff rights from the other stores and commits the deletion, or fails with the right error and no change |
| `MessageService.ChatStore.DeleteRoomMessage` | backend/apps/chat/services.py:717-737 | Commits the deletion by author or staff with attachments, join rows and blobs, or changes nothing |
| `MessageService.ChatStore.DeleteDialogMessage` | backend/apps/chat/services.py:806-823 | Commits the deletion by the author with attachments, join rows and blobs, or changes nothing |
| `MessageService.ChatStore.DropMessages` | backend/apps/attachments/services.py:167-178 | Attachments first, then messages: exactly the rows and blobs of the messages go, and replies to them become null |
| `MessageService.ChatStore.CreateAttachment` | backend/apps/attachments/services.py:123-155 | Stores blob and row together, or removes the blob again and keeps the rows |
| `MessageService.ChatStore.DeleteUnboundAttachment` | backend/apps/attachments/services.py:158-164 | Removes row and blob of the uploader's unbound attachment, or changes nothing |
| `MessageService.ChatStore.DeleteRoom` | backend/apps/chat/services.py:252-268 | The room's rows and its messages with attachments and blobs go together, or nothing does |
| `MessageService.ChatStore.RequireAttachmentAccess` | backend/apps/attachments/services.py:83-120 | Grants exactly what the bindings and the room tables decide |
| `Live.GroupsAreSubscriptions` | backend/apps/chat/consumers.py:77-87 | In every run, between handlers, the broker's room groups of an open socket equal its room subscriptions, and a disconnected socket is in no group |
| `Live.SilenceAfterExpulsion` | backend/apps/chat/consumers.py:168-184 | After a user left, was banned or lost the room, no step sends the user's sockets a message, read or membership event of it until the user is admitted again, however late an earlier event arrives |
| `Live.GateRecognisesRoomEvents` | backend/apps/chat/realtime/fanout.py:52-193 | Of everything the publishers send, the gate recognises exactly the message, read and membership events of a room, with the right room; of the other `room.` events only the invitation exists |
| `Live.RoomEventsNeedAccess` | backend/apps/chat/consumers.py:168-177 | No action sends a message, read or membership event of a room to a user without access to it |
| `Live.InFlightWasPublished` | backend/apps/chat/realtime/fanout.py:23-43 | In every run whatever is in flight to a socket was published at some step, to a group the socket was in at that step |
| `Live.ExclusionLasts` | backend/apps/chat/consumers.py:384-392 | Whatever else is interleaved, access stays lost until a call admits the user |
| `Live.DeliveredIffAllowed` | backend/apps/chat/consumers.py:168-177 | A published event that arrives is sent on if and only if it is no event of a room or the user has access to that room at that moment |
| `Live.PublishReachesSubscribers` | backend/apps/chat/consumers.py:204-219 | In every run publishing an event of a room puts one copy in flight for each open socket subscribed to it and none for any other |
| `Live.DisconnectLeavesAllGroups` | backend/apps/chat/consumers.py:77-87 | Discarding its own subscriptions takes a socket out of every group and no other socket out of any |
| `Live.RunKeepsInv` | backend/apps/chat/consumers.py:55-239 | Groups and subscriptions agree for every socket after every interleaving |
| `Consumer.ChatConsumer.Connect` | backend/apps/chat/consumers.py:55-75 | Joins exactly the user and presence groups |
| `Consumer.ChatConsumer.Disconnect` | backend/apps/chat/consumers.py:77-87 | The loops leave every group the socket was in and touch no other socket |
| `Consumer.ChatConsumer.GetRoomForLiveAccess` | backend/apps/chat/consumers.py:384-392 | Says not found, forbidden or allowed; allowed exactly for members without a ban |
| `Consumer.ChatConsumer.HandleRoomSubscribe` | backend/apps/chat/consumers.py:204-211 | Subscribes, in broker and socket alike, exactly when the user has access |
| `Consumer.ChatConsumer.HandleRoomUnsubscribe` | backend/apps/chat/consumers.py:213-219 | Unsubscribes in broker and socket alike |
| `Consumer.ChatConsumer.HandleDialogSubscribe` | backend/apps/chat/consumers.py:221-231 | Subscribes, in broker and socket alike, exactly as a participant of an existing dialog |
| `Consumer.ChatConsumer.HandleDialogUnsubscribe` | backend/apps/chat/consumers.py:233-239 | Unsubscribes in broker and socket alike |
| `Consumer.ChatConsumer.OnBroadcastEvent` | backend/apps/chat/consumers.py:168-177 | Sends the frame, or drops it and the subscription together when access is gone |
| `Consumer.ChatConsumer.OnMembershipForceRoomUnsubscribe` | backend/apps/chat/consumers.py:179-184 | Drops the subscription in broker and socket alike |
| `Storage.IterAttachmentChunks` | backend/apps/attachments/views.py:33-50 | For every pattern of short reads the chunks concatenate to exactly the handle's bytes up to the budget, none is empty or above 65536 bytes, the loop ends and the handle is closed |
| `Storage.DownloadIsExact` | backend/apps/attachments/views.py:95-117 | For a blob of the recorded size both backends give every header the same answer, with exactly the asked bytes and a body as long as Content-Length |
| `Storage.AttachmentDownloads.Download` | backend/apps/attachments/views.py:191-233 | The streamed chunks carry exactly the body of the answer, whichever store it came from |
| `Storage.AttachmentDownloads.OpenAttachmentForDownload` | backend/apps/attachments/storage.py:328-338 | Object storage first, the legacy file when there is no object, an error when there is neither |
| `Storage.AttachmentDownloads.DeleteFromStorage` | backend/apps/attachments/storage.py:341-348 | Afterwards no download of the key finds anything, fallback included, if and only if no file was left by an unlink that failed |
| `Storage.AttachmentDownloads.PutUploadedFile` | backend/apps/attachments/storage.py:55-62 | Afterwards downloads of the key are served from exactly the uploaded bytes, and no other key changes |
| `Storage.FilesystemStorage.Open` | backend/apps/attachments/storage.py:81-89 | The handle yields everything from the start of the range; the end is ignored |
| `Storage.S3Storage.Open` | backend/apps/attachments/storage.py:208-223 | The body is cut at both ends of the range |
| `Storage.ObjectStoreServesHeader` | backend/apps/attachments/storage.py:208-212 | The bytes taken from object storage are those section 14.1.2 of RFC 9110 gives the header that is sent to it |
| `Ranges.MatchIsGrammar` | backend/apps/attachments/views.py:26 | The matcher accepts exactly the texts of the pattern and splits them in the only possible way |
| `Ranges.ParseSingleRange` | backend/apps/attachments/views.py:57-92 | Every range returned satisfies 0 <= start <= end < size |
| `Ranges.ParserMeetsRfcIff` | backend/apps/attachments/views.py:57-92 | On every single byte range the parser selects the bytes, ignores or refuses as section 14.1.2 of RFC 9110 asks, if and only if the range is no empty suffix, no inverted range starting past the end, and needs no bound of more than 4300 digits |
| `Ranges.RaisesIffUnreadable` | backend/apps/attachments/views.py:73-86 | The uncaught ValueError comes exactly from a bound of more than 4300 digits that the parser gets to read: a start past the end is refused before the end is read |
| `Ranges.OtherHeadersAreIgnored` | backend/apps/attachments/views.py:57-71 | Nothing but one well-formed byte range, perhaps between blanks, has any effect |
| `Ranges.PrintedRangeParsesBack` | backend/apps/attachments/storage.py:210-212 | The range printed for object storage parses back to itself, unless a bound has more digits than int reads |
| `Ranges.SuffixIsExplicitRange` | backend/apps/attachments/views.py:73-92 | A suffix, the explicit bounds and the open end of the same bytes are one range |
| `Backfill.Command.Handle` | backend/apps/attachments/management/commands/backfill_attachments_to_object_storage.py:28-105 | Leaves the object store and the five counters that the rows, files and upload results determine; refuses the filesystem backend |
| `Backfill.Command.CopyToObjectStorage` | backend/apps/attachments/management/commands/backfill_attachments_to_object_storage.py:72-98 | One upload leaves the store as its outcome says, a copy of the wrong size is gone again, and only a checked full-size copy counts as copied |
| `Backfill.CountersCoverRows` | backend/apps/attachments/management/commands/backfill_attachments_to_object_storage.py:37-43 | The five counters sum to the number of attachments |
| `Backfill.DownloadsSurviveIffHarmless` | backend/apps/attachments/management/commands/backfill_attachments_to_object_storage.py:45-95 | Every download of every attachment with every header is unchanged if and only if each attempted upload leaves nothing or an object that begins with the legacy blob |
| `Backfill.BackfillIsSafeAndIdempotent` | backend/apps/attachments/management/commands/backfill_attachments_to_object_storage.py:45-95 | If failing uploads leave nothing, successful ones are faithful or of another length, and size queries work, downloads are unchanged and a second run skips exactly what the first skipped or copied |
| `Backfill.UncheckedUploadChangesDownloads` | backend/apps/attachments/management/commands/backfill_attachments_to_object_storage.py:73-84 | A short upload followed by a failing size query changes what users download |
| `Backfill.RowsAreIndependent` | backend/apps/attachments/models.py:13 | Storage keys being unique, each row is judged and stored as if it were alone |
| `Base64.FeedEncode` | backend/apps/chat/services.py:53-63 | URL-safe base64 with padding (section 5 of RFC 4648) decodes to what was encoded, under the lenient decoder |
| `Cursor.CursorRoundTrip` | backend/apps/chat/services.py:53-69 | Every offset survives printing, encoding, decoding and parsing; no cursor means the start |
| `Cursor.CursorsAreDistinct` | backend/apps/chat/services.py:53-56 | Different offsets give different cursors |
| `Paging.WalkShowsWholeHistory` | backend/apps/chat/services.py:611-637 | Following next_cursor with any accepted limits shows every message of the chat exactly once, each page chronological, the prepended pages oldest first as the client does (frontend/src/App.tsx:1214-1216) |
| `Paging.WalkTakesCeilingPages` | backend/apps/chat/services.py:72-84 | With one limit a non-empty history takes ceil(n / limit) pages |
| `Paging.ServerPagesThrough` | backend/apps/chat/services.py:53-84 | For accepted limits the message list answers every cursor it can read with the page at that offset, and with a cursor it reads back as the next offset, or none when no older row is left |
| `Paging.CursorWalkIsOffsetWalk` | backend/apps/chat/services.py:611-637 | For every server that pages so, following its opaque cursors yields the pages of the plain offset walk |
| `Paging.PageAt` | backend/apps/chat/services.py:615-622 | Fetching one row too many tells exactly whether older rows remain |
| `History.OrderedQueryIsDetermined` | backend/apps/chat/services.py:615-622 | Ids being unique, the rows of a chat ordered by creation time and id, newest first, have one possible order |
| `Unread.ReadStore.CountUnread` | backend/apps/chat/services.py:304-330 | The loop gives each chat the number of messages by others newer than the read marker |
| `Unread.ReadStore.ListDialogRows` | backend/apps/chat/services.py:560-594 | Unread counts as specified, and as last message the maximum by creation time and id |
| `Unread.ReadStore.LastMessages` | backend/apps/chat/services.py:587-594 | Keeping the first row of each dialog in query order finds its latest message |
| `Unread.ReadStore.GetDialogUnreadCount` | backend/apps/chat/services.py:597-608 | The query gives the number the dialog list shows |
| `Unread.ReadStore.MarkRead` | backend/apps/chat/services.py:826-848 | Succeeds exactly for a reader of the chat; the marker goes to the latest message, the chat's count becomes zero and no other count changes |
| `Unread.ReadStore.DeleteMessage` | backend/apps/chat/services.py:717-737 | Each count falls by one exactly for users for whom the message was unread |
| `Unread.ReadStore.RemoveReader` | backend/apps/chat/services.py:284-292 | Losing the membership loses the marker: everything by others counts again |
| `Unread.ReadStore.AddMessage` | backend/apps/chat/services.py:304-330 | Each count rises by one exactly for users who did not write the message and whose marker is older |
| `Unread.NewMessageCountsOnceForOthers` | backend/apps/chat/services.py:304-330 | A new message leaves a count alone if and only if it is in another chat, one's own, or not newer than the marker; otherwise it adds one |
| `Unread.DeletionLowersCounts` | backend/apps/chat/services.py:304-330 | Deleting a message lowers exactly the counts in which it was unread, each by one |
| `Unread.LatestMarkerClears` | backend/apps/chat/services.py:829-833 | A marker at the latest message leaves nothing unread, messages of the same time included |

## Left out

- ConnectionRegistry.Registry.RegisterConnection: asks that a connection key belong to one user, as channel names do; keys shared between users are not modelled.
- PresenceService.Service.CompareToLegacySql: the texts of the mismatches and the database order of rows that tie in every time are not modelled.
- PresenceService.Service.UpsertPresenceConnection: the user row is read afresh; a stale user object held by the caller in the SQL-only mode is not modelled, nor is the lookup of the session.
- PresenceService.Service.ClosePresenceConnection: as for the upsert, the user row is read afresh.
- PresenceService.Service.RecomputeUserPresence: the presence snapshot key in Redis is written by the source and read by nothing modelled here.
- Decimal.PythonInt: reads ASCII texts; digits of other scripts in a page limit are not modelled. For cursors and page limits the interpreter's limit of 4300 digits is not modelled either: it would concern offsets from 10 to the 4300 on.
- Storage.IterAttachmentChunks: describes a stream read to its end; a client that goes away early is not modelled.
- Storage.AttachmentDownloads.Download: the lookup of the row and the access check come before it, in `MessageService.ChatStore.RequireAttachmentAccess`.
- Storage.FilesystemStorage.Delete: removes the file; the removal of parent directories that became empty is not modelled, because no download depends on it.
- Storage.AttachmentDownloads.DeleteFromStorage: a deletion that object storage refuses with an exception is not modelled.
- Backfill.DownloadsSurviveIffHarmless: the source root is the root of the legacy storage, as it is by default; another `--source-root` and failing existence queries are not modelled.
- MessageService.ChatStore.CreateAttachment: a failing put and a failing cleanup delete are not modelled.
- MessageTables.BlobsAreThoseOfRows: store calls do not fail; a row deletion that is rolled back after its blob was deleted is not modelled.
- MessageTables.OnlyAuthorsEdit: the `message_deleted` audit events and the `updated_at` of dialogs are not modelled; nothing here reads them.
- MessageService.ChatStore.DeleteRoomMessage: writes no `message_deleted` audit event.
- MessageService.ChatStore.DeleteDialogMessage: writes no `message_deleted` audit event and no `updated_at`.
- Live.SilenceAfterExpulsion: a handler runs as one step; interleavings inside one handler are not modelled, nor are the parts of payloads that the gate does not read.
- Consumer.ChatConsumer.Connect: the presence upsert that follows is `PresenceService.Service.UpsertPresenceConnection`; publishing its result is not part of the handler here.
- Consumer.ChatConsumer.Disconnect: the same for closing the presence connection.
- UserPair.CanonicalUserPair: the two copies of the function in the social and chat services differ only in the error they raise; one is modelled.
- RoomService.RoomStore.MarkRoomRead: the time of the latest message is a parameter, because these tables keep no creation times; `Unread.ReadStore.MarkRead` finds it.
- Unread.ReadStore.ListDialogRows: the order of the dialog list is not modelled. Rooms and dialogs have separate tables of one shape, so one class stands for both.
- RoomService.RoomStore.UpdateRoom: descriptions are not modelled.
- Deleting accounts, sessions, passwords and authentication of sockets.
- HTTP views, serializers, settings, migrations, health checks and the web client, except for the prepending of pages.
- JSON encoding of heartbeat records, typing indicators and the presence snapshot key, which no modelled call reads back.
- Listing functions that only select and sort rows (friends, requests, bans, public rooms, members).
- Redis, the object store, the channel layer and the database beyond the maps, sets, clock and multisets above; concurrent transactions.
