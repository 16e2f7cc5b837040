# A verified model of the Chatters chat system

Chatters is a chat service: a Go backend that can run as many replicas over one Postgres
database and one Redis, and JavaScript clients. This project models its protocols, state
machines and numeric bounds in Dafny and proves what they promise, over every run.

| file | models |
|---|---|
| `Common.dfy` | shared data types; usernames and their order (`validate.go`) |
| `TokenBucket.dfy` | the in-memory token bucket and its reaper (`ratelimit.go`) |
| `FixedWindow.dfy` | the fixed-window counter that replicas share in Redis (`ratelimit.go`) |
| `Sessions.dfy` | accounts, sessions and which tokens are accepted (`middleware/auth.go`, `sessions.go`, `profile.go`) |
| `Tickets.dfy` | single-use tickets, in Redis or in memory, and their text form (`ticket.go`) |
| `DirectChats.dfy` | one direct chat per pair of people, with concurrent creations (`chats.go`, `deletions.go`) |
| `Hub.dfy`, `HubProtocol.dfy` | connections, and fan-out and presence across replicas (`hub.go`, `pubsub.go`, `client.go`) |
| `MessageStore.dfy` | the message tables, and one function for each statement run on them |
| `MessageHandlers.dfy` | the handlers around those statements, as they run (`hub.go`, `client.go`, `messages.go`, `deletions.go`, `sweep.go`) |
| `KeyLists.dfy` | the wrapped keys of a message, live and stored (`hub.go`) |
| `MessageViews.dfy` | the history query and the chat list query (`messages.go`, `chats.go`) |
| `Sweeping.dfy` | self-destruct: what deleting expired messages changes (`sweep.go`) |
| `Receipts.dfy` | sent, delivered and seen, from the rows to the screens (`hub.go`, `client.go`, `useChat.js`) |
| `Envelopes.dfy` | the encrypted envelope and its way through the server (`e2ee.js`, `hub.go`, `keys.go`) |
| `MessageList.dfy` | the message list of the open conversation, and answers that arrive late (`useChat.js`) |
| `MediaCache.dfy` | the bounded cache of object URLs (`api/media.js`) |
| `CallPhone.dfy`, `CallManagers.dfy` | one device's call phases, timers and ICE queue: as step functions, and as the class that changes its fields in place (`services/calls.js`) |
| `CallNetwork.dfy` | many devices, the relay and messages in flight (`websocket/calls.go`) |

Code that changes state in place is a class whose methods are proved equal to functions on
the abstract state. Protocols are sequences of such steps: `Run` folds the steps, `Legal` (or
`Enabled`) says which step may come next, and results are about the state after any legal run.
A database statement or a committed transaction is one step. Where requests interleave (the
creation of a direct chat, the two statements of a sign-in, the two Redis commands of the
shared limiter, registration and presence) each statement is a step of its own.

## What the proofs found

Each of these is a lemma with a witness or an exact condition.

- The token bucket keeps its bound, and the reaper stays unnoticed, exactly when the capacity
  is at least one and the window is no longer than the 30 minutes after which buckets are
  forgotten (`TokenBucket.BoundExactly`, `TokenBucket.ReaperUnobservableExactly`).
- A sign-in reads the account and inserts its session in two statements. If the account is
  renamed in between and somebody else registers the freed name, the token acts for the
  newcomer (`Sessions.LoginCanBindToNewcomer`); it acts for its own holder exactly when the
  name still belonged to them at the insert (`Sessions.ActsForHolderExactly`).
- A ticket is redeemed at most once exactly unless its own Redis SET reported an error after
  storing the value; then it can be redeemed twice (`Tickets.OnceExactly`).
- A rename to a free name is refused exactly when it would carry somebody, upwards or
  downwards, past a person they have a direct chat with: the constraint that keeps a pair in
  order fails (`DirectChats.RenameRefusedExactly`).
- If the peer connection rejects the description in a `call_answer`, no timer is left and the
  call stays in `connecting` (`CallPhone.RejectedAnswerSticks`, `CallPhone.CallCanStick`). That
  is the only way a call can stick, and it does not affect other calls
  (`CallPhone.CallsNeverStick`). A late answer takes an ended call back to `connecting`
  (`CallPhone.LateAnswerRevives`).
- The live packet and the stored row carry the same key for a member exactly when the first
  complete key listed for them equals the last one (`KeyLists.PathsAgreeExactly`); a list with
  a duplicate can make them differ (`KeyLists.DuplicateKeysDisagree`).
- When one member of a group looks at a chat, the other members' unread messages go too,
  except those that the looker sent (`MessageViews.LookClears`).
- A message that replies to a swept one is refused, where before the sweep it was stored
  (`Sweeping.ReplyNeedsItsMessage`).
- After a release, and until the promise of the download settles, callers join that promise
  and are given a revoked URL (`MediaCache.HandedOutLiveExactly`,
  `MediaCache.ReleaseHandsOutRevoked`).
- A message is listed exactly when the last event that concerns it adds it
  (`MessageList.ListedExactly`). So the answer to an upload shows its message even if it was
  deleted before (`MessageList.DeletedThenSettled`).
- The answers to history requests and uploads, and live messages once they are decrypted, are
  not compared with the open chat: messages of a chat left behind are listed in the next one,
  until another is opened (`MessageList.StrayExactly`, `MessageList.UploadStrays`).
- In an interval shorter than the window the shared limiter allows at most one fewer than twice
  its capacity (`FixedWindow.ShortIntervalBound`), and, whatever its capacity and window, there
  is a run with that many (`FixedWindow.ShortIntervalReached`).

## Model

| member | source | states |
|---|---|---|
| TokenBucket.RateLimiter.AllowLocal | Chatters/internal/middleware/ratelimit.go:84-106 | answers and updates the bucket in place as the lazily refilled level prescribes, with no bucket shared |
| TokenBucket.RateLimiter.Reap | Chatters/internal/middleware/ratelimit.go:108-119 | forgets exactly the buckets idle for more than 30 minutes |
| TokenBucket.BucketBound | Chatters/internal/middleware/ratelimit.go:84-119 | in any interval of length d of any run, at most capacity + d·capacity/window requests of a client are allowed |
| TokenBucket.BoundExactly | Chatters/internal/middleware/ratelimit.go:84-119 | that bound holds for every run if and only if capacity >= 1 and window <= 30 minutes |
| TokenBucket.ReaperUnobservable | Chatters/internal/middleware/ratelimit.go:108-119 | with the reaper firing anywhere, every answer equals that of a limiter that never forgets |
| TokenBucket.ReaperUnobservableExactly | Chatters/cmd/server/main.go:126-127 | the reaper changes no answer of any run if and only if the window is no longer than the idle time |
| TokenBucket.DrainForgetDrain | Chatters/internal/middleware/ratelimit.go:108-119 | for every longer window, a run that exceeds the bound |
| FixedWindow.RedisKey.AllowRedis | Chatters/internal/middleware/ratelimit.go:67-82 | an undisturbed check starts a lifetime of one window or counts within the current one |
| FixedWindow.PerLifetime | Chatters/internal/middleware/ratelimit.go:67-82 | at most capacity requests are allowed while one counter lives, however replicas interleave |
| FixedWindow.DeadlineIsFinal | Chatters/internal/middleware/ratelimit.go:74-80 | once set, a lifetime is never extended |
| FixedWindow.IntervalBound | Chatters/internal/middleware/ratelimit.go:67-82 | at most capacity·(floor(d/window)+2) in any interval of length d |
| FixedWindow.ShortIntervalBound | Chatters/internal/middleware/ratelimit.go:67-82 | at most 2·capacity − 1 in any interval shorter than the window |
| FixedWindow.ShortIntervalReached | Chatters/internal/middleware/ratelimit.go:67-82 | for every capacity and window, a run that reaches that number |
| Usernames.LessIsTotal | Chatters/internal/db/migrate.go:418-424 | the order that pair rows keep is total and strict |
| Sessions.Accounts.ChangeUsername | Chatters/internal/handlers/profile.go:18-60 | renames the account, raises its token version, carries its sessions and pair rows along; refuses invalid, equal and taken names, and a rename that would put a pair row out of order |
| Sessions.Accounts.SetPassword | Chatters/internal/handlers/profile.go:103-113 | raises the version and ends every session of the account |
| Sessions.Accounts.StartSession | Chatters/internal/handlers/sessions.go:18-38 | a session row for the name and a token with the version it has; of the other rows exactly the account's own expired ones go, and every row that stays is unchanged |
| Sessions.Accounts.RevokeSession | Chatters/internal/handlers/sessions.go:128-150 | deletes the caller's own session of that id and nothing else |
| Sessions.Accounts.RevokeOtherSessions | Chatters/internal/handlers/sessions.go:153-164 | of the caller's sessions exactly the current one stays, and all sessions of others stay, unchanged |
| Sessions.AcceptedExactly | Chatters/internal/middleware/auth.go:18-91 | over any run of renames, resets, deletions and re-registrations, a token bound to its holder is accepted if and only if it is unexpired, its session stands and the holder has had no rename, password change or reset since; and then as its holder |
| Sessions.StandsExactly | Chatters/internal/middleware/auth.go:77-91 | on any run, a token's session stands if and only if since it was issued its owner has not signed it out or out of all others, changed the password, been purged or deleted, or signed in again after it expired |
| Sessions.ChangedExactly | Chatters/internal/handlers/profile.go:18-113 | an account counts as changed since a moment if and only if an event since then carried out a rename, password change or reset of it |
| Sessions.AcceptedByEvents | Chatters/internal/middleware/auth.go:18-91 | acceptance in terms of what has happened: a token bound to its holder is accepted if and only if it is unexpired, nothing has ended its session since it was issued, and nothing has changed its holder since the password was checked |
| Sessions.ActsForHolderExactly | Chatters/internal/handlers/auth.go:166-196 | an accepted token acts for its holder if and only if the name was still theirs when the session row was inserted |
| Sessions.LoginCanBindToNewcomer | Chatters/internal/handlers/auth.go:166-196 | a run in which it acts for somebody else |
| Sessions.SignInBinds | Chatters/internal/handlers/auth.go:166-196 | in terms of the run: a sign-in is bound to its holder if nothing between its two statements takes the name away; if something does, it is not, unless a rename in between gives the name back |
| Sessions.SignedOutForGood | Chatters/internal/middleware/auth.go:77-91 | a token whose session row is gone is never accepted again |
| TicketText.RoundTripExactly | Chatters/internal/auth/ticket.go:107-117 | `user:version` reads back as printed if and only if the name holds no colon |
| TicketText.ValidUsersRoundTrip | Chatters/internal/validate/validate.go:13 | so it does for every name that is a valid username |
| Tickets.TicketStore.IssueTicket | Chatters/internal/auth/ticket.go:41-71 | stores the ticket in memory exactly when Redis did not take it |
| Tickets.TicketStore.RedeemTicket | Chatters/internal/auth/ticket.go:73-101 | yields a live ticket once and removes it |
| Tickets.RedeemsAsIssued | Chatters/internal/auth/ticket.go:41-126 | over any run on many replicas, a redemption yields the issued user and version, within the lifetime |
| Tickets.RedeemedAtMostOnce | Chatters/internal/auth/ticket.go:41-126 | on any run a ticket is not redeemed twice unless its own SET failed after storing it, whatever happened to other tickets |
| Tickets.KeptExactly | Chatters/internal/auth/ticket.go:41-101 | on any run, a replica holds a ticket if and only if it was issued there without Redis and since then was neither tried there, nor lost in a restart, nor tidied away after it expired |
| Tickets.LocalTicketWorks | Chatters/internal/auth/ticket.go:73-101 | a ticket tried at a replica lets its user in, once, if and only if the replica still holds it and it is at most 30 seconds old, whatever other tickets were issued meanwhile |
| Tickets.SharedTicketWorks | Chatters/internal/auth/ticket.go:73-86 | one tried at Redis does if and only if Redis took it, has neither handed it out nor lost it, and it is less than 30 seconds old |
| Tickets.StoredFailureRedeemsTwice | Chatters/internal/auth/ticket.go:58-70 | after such a SET the ticket can be redeemed twice, from Redis and from memory |
| Tickets.OnceExactly | Chatters/internal/auth/ticket.go:41-126 | a ticket is redeemed at most once in every continuation of any run if and only if its own SET did not fail after storing it |
| DirectChats.Chats.CreateChat | Chatters/internal/handlers/chats.go:33-163 | the answer and the tables for every set of people: too few, too many, not a pair, unknown, existing or new |
| DirectChats.CreatorIsMember | Chatters/internal/handlers/chats.go:33-41 | the members of the chat that is answered, new or existing, are exactly its creator and everybody named |
| DirectChats.Chats.CreateDirect | Chatters/internal/handlers/chats.go:82-163 | an ordered pair gets its existing chat, or a new one with its row and both members |
| DirectChats.Chats.AddMember | Chatters/internal/handlers/chats.go:327-400 | only members add, only valid names to groups with room, to a secure group only those with a published key; and each of the six refusals |
| DirectChats.Chats.Leave | Chatters/internal/handlers/deletions.go:186-225 | the one who leaves is no longer a member and everybody else still is; the pair is freed; and the chat goes if and only if no other member remains |
| DirectChats.LeaveExactly | Chatters/internal/handlers/deletions.go:193-222 | membership by membership, chat by chat and pair by pair: the leaver's membership and the chat's pair go, the chat goes if and only if nobody else is in it, and nothing of any other chat changes |
| DirectChats.Chats.DeleteForEveryone | Chatters/internal/handlers/deletions.go:154-183 | removes a chat that is no group, with its members and its pair |
| DirectChats.PairRowMeansItsChat | Chatters/internal/db/migrate.go:418-424 | in every run, with requests interleaved, a pair row stands for a chat that is neither group nor secret and whose members are exactly the pair; rows share neither pair nor chat |
| DirectChats.MembersExactly | Chatters/internal/handlers/deletions.go:154-225 | in every run, with requests interleaved, somebody is in a chat if and only if something made them a member and since then they have not left or been deleted or renamed, and the chat has not been deleted |
| DirectChats.ChatsExactly | Chatters/internal/handlers/deletions.go:203-217 | in every run, a chat is there if and only if it was created and since then nobody has deleted it and its last member has not left |
| DirectChats.PairsExactly | Chatters/internal/handlers/deletions.go:203-222 | in every run, a pair has a conversation if and only if a request committed it, or a rename made it theirs, and since then neither has left, been deleted or renamed, and it has not been deleted |
| DirectChats.OneChatPerPair | Chatters/internal/handlers/chats.go:82-163 | however creations of one pair race, all that succeed are given one chat, and exactly one is committed if there was none |
| DirectChats.LoserAdoptsWinner | Chatters/internal/handlers/chats.go:123-137 | the loser of the claim is given the winner's chat |
| DirectChats.AloneIsCreateChat | Chatters/internal/handlers/chats.go:82-163 | the steps of one undisturbed request, retired chats included, are the handler |
| DirectChats.RenameRefusedExactly | Chatters/internal/db/migrate.go:418-424 | a rename to a free name takes effect unless it carries somebody past a person they have a direct chat with, upwards or downwards: exactly then nothing changes |
| Hub.Client.TrySend | Chatters/internal/websocket/client.go:80-98 | queues the data, or closes the connection when its buffer is full |
| Hub.AttemptIsTrySend | Chatters/internal/websocket/client.go:80-98 | the client's buffer and the protocol's queue change alike |
| Hub.Client.Close | Chatters/internal/websocket/client.go:68-78 | the connection is finished, nothing queued is lost, and however often it is called the socket is closed once |
| Hub.Connections.Register | Chatters/internal/websocket/hub.go:92-103 | adds the connection to its user's set |
| Hub.Connections.Unregister | Chatters/internal/websocket/hub.go:105-128 | removes it, and the set with the last one, and closes it |
| Hub.Connections.SendTo | Chatters/internal/websocket/hub.go:147-158 | every connection of the user, and no other, is tried once |
| HubProtocol.FanOutOrder | Chatters/internal/websocket/pubsub.go:43-95 | over any number of replicas and any interleaving, what is queued on a connection is a contiguous segment of its user's events in publish order |
| HubProtocol.NothingMissed | Chatters/internal/websocket/pubsub.go:69-107 | an open registered connection has all that its replica has finished with |
| HubProtocol.ClosedOnlyWhenFull | Chatters/internal/websocket/client.go:80-98 | on any run, a connection that its own reader or writer did not end is closed only because, at some step, it was to be sent something with its buffer full |
| HubProtocol.ShortOnlyWhenFull | Chatters/internal/websocket/client.go:80-98 | and so for a registered connection that has not been given all its replica has finished with |
| HubProtocol.AddressedAscends | Chatters/internal/websocket/pubsub.go:43-67 | a segment has no repetition and holds exactly the user's events |
| HubProtocol.SameOrderEverywhere | Chatters/internal/websocket/pubsub.go:43-95 | no two connections see two events in opposite orders |
| HubProtocol.RunKeepsPresence | Chatters/internal/websocket/pubsub.go:109-146 | the presence sets hold exactly the connections added and not yet removed |
| HubProtocol.OnlineExactly | Chatters/internal/websocket/hub.go:130-142 | with nothing half done, a user is online if and only if some replica holds a connection of theirs |
| HubProtocol.StaleRemovalHidesNobody | Chatters/internal/websocket/hub.go:105-128 | removing a stale connection never hides a newer one |
| MessageStore.RunKeepsSound | Chatters/internal/db/migrate.go:32-44 | after any statements, ids ascend and are never reused, and replies, tombstones and keys point at stored rows |
| MessageStore.StoredExactly | Chatters/internal/websocket/sweep.go:30-34 | on any run, a message is stored if and only if an event stored it and since then it was not deleted for everybody, not swept once expired, and its chat neither deleted nor left by its last member |
| MessageStore.RowExactly | Chatters/internal/websocket/hub.go:284-305 | every stored row has the content its event gave it and expires the chosen number of seconds after it, or never; it replies to the same message as long as that is stored; and it is marked deleted exactly if an event since marked it |
| MessageStore.MembersExactly | Chatters/internal/handlers/deletions.go:193-217 | somebody is in a chat if and only if they joined it and since then have not left it and it has not been deleted |
| MessageStore.HiddenExactly | Chatters/internal/handlers/deletions.go:86-106 | a message is deleted for one user if and only if they deleted it for themselves and since then it has not been erased and they have not left its chat |
| MessageStore.LeaveExactly | Chatters/internal/handlers/deletions.go:193-217 | leaving takes out the leaver alone; the chat and its messages go if and only if the leaver was the last member |
| MessageHandlers.Database.Persist | Chatters/internal/websocket/hub.go:284-333 | one transaction: the row with its expiry, and for every member the first complete key |
| MessageHandlers.Database.HandleIncoming | Chatters/internal/websocket/hub.go:183-280 | only members' messages of the right kind and length are stored; delivered exactly if another member is online; every addressed member is sent one packet, their own |
| MessageHandlers.IncomingExactly | Chatters/internal/websocket/hub.go:186-251 | a message is stored if and only if its sender is a member, it is not too long, the chat is there and encrypted as it is, and the message replied to is there; the row is then last, and delivered if and only if another member is online; otherwise no row or key changes |
| MessageHandlers.Address | Chatters/internal/websocket/hub.go:253-277 | the loops that send a message: the packets of the listed members, with the last key listed for each |
| MessageHandlers.OnePacketEach | Chatters/internal/websocket/hub.go:258-277 | exactly the members addressed are sent a packet, one each, their own |
| MessageHandlers.PacketsExactly | Chatters/internal/websocket/hub.go:253-277 | a member is sent a packet if and only if the message is plain or a key is listed for them, and it carries no key or the last one listed |
| MessageHandlers.Database.MarkDelivered | Chatters/internal/websocket/hub.go:474-507 | advances the rows waiting for the user and returns them by chat |
| MessageHandlers.Database.MarkSeen | Chatters/internal/websocket/client.go:154-182 | advances what the member had not seen and returns exactly those ids |
| MessageHandlers.Database.GetMessages | Chatters/internal/handlers/messages.go:39-148 | members get the newest `limit` messages of their history, oldest first, each with their own key, and none that is deleted, deleted for them, or expired; others get nothing |
| MessageHandlers.ReverseInPlace | Chatters/internal/handlers/messages.go:143-145 | swapping from both ends reverses the array |
| MessageHandlers.WindowOldestFirst | Chatters/internal/handlers/messages.go:106-145 | the newest rows, reversed, are the end of the history |
| MessageHandlers.Database.SweepExpiredOnce | Chatters/internal/websocket/sweep.go:30-63 | deletes the expired rows and returns their ids by chat |
| MessageHandlers.GroupByChat | Chatters/internal/websocket/sweep.go:43-50 | the loop that builds `byChat`: for each chat exactly its ids, in order |
| MessageHandlers.SweepEventsPartition | Chatters/internal/websocket/sweep.go:43-62 | the deleted events partition the deleted ids by chat |
| MessageHandlers.Database.DeleteMessage | Chatters/internal/handlers/deletions.go:26-107 | for everyone: the row goes, for its sender or in a secret chat; for me: a tombstone; and the three refusals |
| MessageHandlers.LiveAgreesWithHistory | Chatters/internal/websocket/hub.go:217-277 | the message is in every member's history; a member who then fetches it gets, as the last row, what they were sent live, seen by now unless they sent it, with the same key exactly when the first complete key listed for them equals the last |
| MessageViews.StatsCount | Chatters/internal/handlers/chats.go:208-226 | the one-pass, grouped count is the number of visible unseen messages of others |
| MessageViews.LastIsFinal | Chatters/internal/handlers/chats.go:195-207 | the last message is the final element of the history |
| MessageViews.HistoryExactly | Chatters/internal/handlers/messages.go:88-106 | a history holds, by ascending id, exactly the chat's rows that are not marked deleted, not deleted for the reader, and not expired |
| MessageViews.UnreadExactly | Chatters/internal/handlers/chats.go:208-226 | unread is exactly what the history holds of others that nobody has seen |
| MessageViews.HideExactly | Chatters/internal/handlers/deletions.go:86-106 | deleting a message for oneself takes it out of one's own history, which keeps its order, and of one's own unread count, and changes no history, count or chat list of anybody else |
| MessageViews.ShownExactly | Chatters/internal/handlers/messages.go:88-106 | on any run, a message is in somebody's history if and only if it is stored there, not marked deleted, not expired, and they have not deleted it for themselves without having left the chat since |
| MessageViews.HiddenForGood | Chatters/internal/handlers/deletions.go:193-201 | on any run, once somebody has deleted a message for themselves, neither their history nor their unread count has it again unless they leave its chat |
| MessageViews.ChatListExactly | Chatters/internal/handlers/chats.go:191-259 | the list holds exactly one row for each of the user's chats, with its members, the direct unread count and the end of its history |
| MessageViews.JoinFirstIsWrong | Chatters/internal/handlers/chats.go:208-211 | counting after the join multiplies by the number of members, right only for one member or nothing unread |
| MessageViews.LookClears | Chatters/internal/handlers/messages.go:53-76 | after a look at a chat the reader's unread count is 0, and of the others' unread only the reader's own messages remain |
| Sweeping.EventCommutes | Chatters/internal/websocket/sweep.go:30-34 | every statement does the same before and after rows it does not reply to are deleted |
| Sweeping.SweepsOnlyErase | Chatters/internal/websocket/sweep.go:13-34 | a run with sweeps stores what the run without them stores, less expired rows |
| Sweeping.SweepIsUnobservable | Chatters/internal/handlers/messages.go:99-102 | at every later time, a sweep leaves every chat list, unread count and history as they were, but for reply pointers into expired messages |
| Sweeping.AnyScheduleShowsTheSame | Chatters/internal/handlers/chats.go:195-226 | any two schedules of sweeps show everyone the same, in runs where nobody replies to an expired message |
| Sweeping.ReplyNeedsItsMessage | Chatters/internal/db/migrate.go:39 | a post comes out the same with a sweep before it if and only if it replies to no swept message |
| Receipts.StatusOnlyAdvances | Chatters/internal/websocket/hub.go:241-251 | a stored state never moves back, and a row's content never changes |
| Receipts.StatusExactly | Chatters/internal/websocket/hub.go:474-507 | a row has reached delivered or seen if and only if it is a notice or an event of the run took it there |
| Receipts.DeliveredMeansReached | Chatters/internal/websocket/hub.go:241-251 | a message between people is stored as delivered or more if and only if it got to somebody other than its sender: a recipient who was online at the post, a member who came online later, or one who opened the chat |
| Receipts.SeenMeansOpened | Chatters/internal/websocket/client.go:154-182 | a message between people is stored as seen if and only if a member other than its sender opened the chat with it there |
| Receipts.NeverAhead | frontend/src/hooks/useChat.js:112-121 | however copies and status events are delayed, repeated and reordered, no screen is ahead of the stored state |
| Receipts.NoFalseReceipt | frontend/src/hooks/useChat.js:174-185 | a screen shows "seen" only on notices and on messages that another member opened, also after their deletion |
| Envelopes.ToBase64 | frontend/src/crypto/e2ee.js:46-51 | the loop builds the binary string that is encoded |
| Envelopes.FromBase64 | frontend/src/crypto/e2ee.js:53-58 | the loop fills the array with the decoded bytes |
| Envelopes.Base64RoundTrip | frontend/src/crypto/e2ee.js:46-58 | decoding undoes encoding for all byte strings |
| Envelopes.GetChatKeys | Chatters/internal/handlers/keys.go:66-111 | the members with a published key, in order, and the others as missing |
| Envelopes.EncryptsExactly | frontend/src/crypto/e2ee.js:213-255 | encryption succeeds if and only if there is a recipient and every public key imports |
| Envelopes.RecipientDecrypts | frontend/src/crypto/e2ee.js:264-300 | every recipient recovers the plaintext |
| Envelopes.LawsAreConsistent | frontend/src/crypto/e2ee.js:41-58 | some platform meets all the laws assumed of Web Crypto and the codecs |
| KeyLists.LiveKeyIsLast | Chatters/internal/websocket/hub.go:253-256 | the live packet carries the last key listed for a member |
| KeyLists.StoredKeyIsFirst | Chatters/internal/websocket/hub.go:308-326 | the row carries the first complete one |
| KeyLists.PathsAgree | Chatters/internal/websocket/hub.go:253-326 | they are the same key for a list of distinct members and complete keys |
| KeyLists.PathsAgreeExactly | Chatters/internal/websocket/hub.go:253-326 | for any list, they are the same if and only if the first complete key listed for the member equals the last one listed |
| KeyLists.DuplicateKeysDisagree | Chatters/internal/websocket/hub.go:253-326 | a list of complete keys with a duplicate for which they differ |
| Envelopes.KeysStay | Chatters/internal/db/migrate.go:76-83 | no statement adds, changes or removes a key of a message that stays |
| Envelopes.BothPathsRecover | frontend/src/crypto/e2ee.js:213-300 | every member with a published key recovers the plaintext from the live packet and from the history row after any later run, by the same wrapped key |
| MessageList.AdvanceIsMaximum | frontend/src/hooks/useChat.js:22-27 | states only advance, unknown ones are ignored, and their order of arrival does not matter |
| MessageList.SortAscends | frontend/src/hooks/useChat.js:40-50 | sorting unique ids puts them in strictly ascending order and keeps every message |
| MessageList.ChatHook.MergeMessages | frontend/src/hooks/useChat.js:112-121 | in a list of unique ids, every message of the batch takes the state and text of its last copy and keeps what was known of it locally, and every other message stays unchanged; whichever chat the batch is for |
| MessageList.MergeExactly | frontend/src/hooks/useChat.js:112-121 | a merged list is exactly this: for every id in the batch the state and text of the last copy, with the local part it had or none; and every other message unchanged |
| MessageList.ShowsLastCopy | frontend/src/hooks/useChat.js:112-206 | on any run, a listed message has the text of the last copy of it that came, and at least that copy's state, until it is removed |
| MessageList.AdvanceExactly | frontend/src/hooks/useChat.js:174-191 | a status event moves the messages it names forwards and touches nothing else |
| MessageList.ChatHook.OnMessage | frontend/src/hooks/useChat.js:174-203 | before decryption: a message of another chat, and the echo of our own attachment while its upload is pending, go no further |
| MessageList.EchoExactly | frontend/src/hooks/useChat.js:195-203 | on any run, a live attachment is taken for the echo of our own if and only if an upload under its name has begun and since then none under that name has ended and no other chat was opened |
| MessageList.ChatHook.OnRendered | frontend/src/hooks/useChat.js:204-206 | after it: the message is merged, whichever chat is open by then |
| MessageList.ChatHook.OnChange | frontend/src/hooks/useChat.js:174-191 | status events and deletions of another chat change nothing |
| MessageList.ChatHook.SwitchTo | frontend/src/hooks/useChat.js:149-165 | opening another chat empties the list and forgets the pending names |
| MessageList.ChatHook.SendMedia | frontend/src/hooks/useChat.js:300-341 | an optimistic bubble under a fresh temporary id |
| MessageList.BeginExactly | frontend/src/hooks/useChat.js:300-341 | the list gains one pending bubble with the file and its preview under a fresh temporary id, and nothing else |
| MessageList.ChatHook.OnUploaded | frontend/src/hooks/useChat.js:346-376 | the bubble gives way to the server's message |
| MessageList.SettleExactly | frontend/src/hooks/useChat.js:346-376 | the bubble is gone; under the server's id there is the server's copy with the preview filled in, or else the bubble, no longer pending; and every other message is unchanged |
| MessageList.AlwaysAscending | frontend/src/hooks/useChat.js:112-133 | after any sequence of events the list has unique, strictly ascending ids |
| MessageList.SameIdsSameOrder | frontend/src/hooks/useChat.js:29-50 | two clients with the same messages show them in the same order |
| MessageList.ListedExactly | frontend/src/hooks/useChat.js:112-206 | on any run, a message of the server's is listed if and only if some event added it and none after that deleted it or opened another chat |
| MessageList.StrayExactly | frontend/src/hooks/useChat.js:135-147 | a message of another chat is listed if and only if an answer to a history request or an upload of that chat, or the end of a decryption, came after the open chat was opened; only opening a chat removes it |
| MessageList.DeletedThenSettled | frontend/src/hooks/useChat.js:346-376 | a run in which a message is listed although it was deleted before its upload was answered |
| MessageList.UploadStrays | frontend/src/hooks/useChat.js:346-376 | a run in which an upload shows up in the chat opened after it |
| MessageList.UploadEndsAsOneBubble | frontend/src/hooks/useChat.js:300-388 | an accepted upload ends as exactly one bubble under the server's id, whatever the order of echo, reload and answer, in its own chat exactly when that is open as the answer arrives |
| MediaCache.MediaURLs.Remember | frontend/src/api/media.js:68-74 | the eviction loop ends, with at most 60 entries, the oldest gone |
| MediaCache.MediaURLs.GetMediaURL | frontend/src/api/media.js:76-96 | a cached URL, or the one download under way, or a new one |
| MediaCache.ArrivalEvictsOldest | frontend/src/api/media.js:68-74 | an arrival overwrites nothing, and a full cache gives up its oldest entry |
| MediaCache.CachedExactly | frontend/src/api/media.js:68-104 | on any run, the cache holds exactly what has arrived and since then has been neither released nor pushed out as the oldest of 60 |
| MediaCache.ReleaseExactly | frontend/src/api/media.js:98-104 | a release takes out that entry alone, keeps the others in order and revokes its URL; without an entry it does nothing |
| MediaCache.CacheStaysSmall | frontend/src/api/media.js:64-96 | at every moment at most 60 entries with distinct ids, and at most one download per id |
| MediaCache.UrlsConserved | frontend/src/api/media.js:64-104 | every object URL ever made is in the cache or was revoked exactly once |
| MediaCache.HandedOutLiveExactly | frontend/src/api/media.js:76-104 | a URL that getMediaURL gives, cached or through the promise it joins, is usable if and only if its id is in the cache |
| MediaCache.ReleaseHandsOutRevoked | frontend/src/api/media.js:76-104 | a run in which a caller joins a promise whose URL has been revoked |
| CallManagers.CallManager.StartCall | frontend/src/services/calls.js:81-106 | changes the fields as the step function says, for every outcome of the microphone prompt and the setup |
| CallManagers.CallManager.AcceptCall | frontend/src/services/calls.js:108-126 | likewise for accepting |
| CallManagers.CallManager.HandleSignal | frontend/src/services/calls.js:228-310 | changes the fields as the step function says for every kind of signal; and a signal of a busy device's own call ends it, closing the connection, if and only if it says so |
| CallManagers.CallManager.FlushPending | frontend/src/services/calls.js:209-218 | hands over the queue in order and empties it |
| CallManagers.CallManager.RunTimer | frontend/src/services/calls.js:199-207 | a timer acts only on the call and phase it was armed for |
| CallPhone.SignalPhaseExactly | frontend/src/services/calls.js:228-310 | a signal of a busy device's own call ends it, with the connection closed, if and only if the other side ended it, or refused a call placed here, or another device of the same user took or declined the ringing call; otherwise the call rings, is answered, or stays in its phase |
| CallPhone.EndReason | frontend/src/services/calls.js:261-306 | and the user is told which of these it was |
| CallPhone.HangUpEnds | frontend/src/services/calls.js:128-139 | hanging up ends a call in any phase and tells the other side, declining one that rings |
| CallPhone.FireExactly | frontend/src/services/calls.js:97-207 | a timer ends the phase it is for, telling the other side unless the call only rang here, clears an ended call away, and does nothing in any other phase |
| CallPhone.CandidateExactly | frontend/src/services/calls.js:281-295 | a candidate of the device the call is with is handed over or queued, after those before it; any other is left |
| CallPhone.CallsNeverStick | frontend/src/services/calls.js:81-126 | on every run, every phase but idle and active holds an armed timer that ends it, exactly unless the call is connecting without a remote description, which needs a rejected answer to that call; and any other call that never becomes active is over within 82.5 seconds, whatever happened to the calls before it |
| CallPhone.AnswerWatchedExactly | frontend/src/services/calls.js:270-279 | after any run, the answer to a ringing call leaves it watched if and only if the connection accepts its description |
| CallPhone.RejectedAnswerSticks | frontend/src/services/calls.js:270-279 | after a rejected one, at the end of any run, time alone never ends the call |
| CallPhone.CallCanStick | frontend/src/services/calls.js:270-279 | for any length of time, a run whose call has been connecting for that long, with no timer |
| CallPhone.LateAnswerRevives | frontend/src/services/calls.js:270-279 | after any run, a late answer takes an ended call back to connecting, without a connection and still watched |
| CallPhone.IceAlwaysConserved | frontend/src/services/calls.js:209-218 | until a call ends, the candidates handed over followed by the queue are those that passed the filter, in order; none before the remote description, none left after it |
| CallPhone.OtherCallsNeverDisturb | frontend/src/services/calls.js:228-268 | through any sequence of signals of other calls a busy device goes on as it was, and sends nothing but that it is busy |
| CallNetwork.CallAgreement | Chatters/internal/websocket/calls.go:38-100 | over any number of devices and any delivery order, a caller is connecting or active only if a device of the other member was rung by this call and accepted it |
| CallNetwork.RungByPeerOnly | Chatters/internal/websocket/calls.go:82-100 | a device is rung only by the other member of a chat it is in |
| CallNetwork.CallsGetThrough | Chatters/internal/websocket/calls.go:38-100 | after any run, a free device of one member of a one-to-one chat can reach a free device of the other so that both are active and listen to each other |
| CallNetwork.HangUpEndsBoth | Chatters/internal/websocket/calls.go:72-78 | after any run, hanging up, relaying and delivering ends the call on both devices |
| CallNetwork.CallingBusyEnds | frontend/src/services/calls.js:234-239 | after any run, a call that reaches a busy device ends as busy for the caller and leaves that device in its own call |
| CallNetwork.OfflineCallEnds | Chatters/internal/websocket/calls.go:59-70 | after any run, a call to somebody who is not online ends as unreachable |
| CallNetwork.AnsweredElsewhereStops | Chatters/internal/websocket/calls.go:72-78 | after any run, when a call rings on two devices of one user and one accepts it, the other stops on hearing of it |

## Left out

- HTTP routing, JSON, SQL text, file system, push notifications and user interface: only the effects on tables, queues and lists are modelled.
- Web Crypto, `btoa`/`atob`, bcrypt, JWT signatures and WebRTC: functions with the laws they promise; random ids are fresh ones.
- Token bucket arithmetic: over `real`, without floating-point rounding.
- Redis outages in the presence and ordering proofs, and the 24-hour lifetime of presence keys.
- Interleaving inside the handlers of `calls.js`: each handler is one step.
- MessageHandlers.Database.HandleIncoming: one step at the handler level; `MessageStore.Run` and `Receipts` let other statements fall between its insert and its status update.
- Messages without a numeric id: the timestamp fallback of `compareMessages` is not modelled; every message in use has an id.
- Monotone states on the screen across merges: a stale copy may set a shown state back; what is proved is that it is never ahead.
- `MessageViews`: the order of the chat list, `last_activity` and mutes.
- Renames and deletions of accounts in the message tables: users are stable identities there.
- The database's text comparison is taken to be Go's order on strings.
- Trimming of usernames, legacy tokens without a session, and the clearing of keys by an administrator's reset.
- Concurrent leavers of one chat, whose counts can miss each other.
- The ChattersApp copies of the client code, `downloadMedia`, `ChatSocket` reconnection, admin pages, announcements, phone and registration queues.
