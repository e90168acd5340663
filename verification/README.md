# DungeonHub server core, verified

This project models the in-memory core of DungeonHub in Dafny and proves properties of it: the
server as a machine of serial steps over its sessions, logins, parties, guilds, dungeon instances,
reward grants and inventory store; the threaded packet dispatcher as a protocol of atomic steps;
the write-through inventory cache; the wire format from message fields to chopped-up byte streams;
and the smaller services with real arithmetic or rollback.

Each service has two forms. A datatype and functions say what one call does to the value of the
service; a class with the source's fields and loops performs the call in place, and every method is
proved to do to the object's value (`View()` or `State()`) exactly what the function says. Lemmas then
speak about the functions over single calls and over every run of calls. For each operation one of them
fixes its outcome without naming the parts the function is made of: exactly when it is accepted, by what
quantities it changes what, and what it leaves alone.

| file | what it models |
|---|---|
| `Server.dfy` | every public call and packet type of the server as a step on one value |
| `ServerInvariant.dfy` | what every run keeps of sessions, logins and queue, and exactly which reconnects keep the indexes live |
| `ServerReconnect.dfy` | a reconnect is a renaming of one session id to another |
| `ServerRewards.dfy` | conservation of granted items over every run |
| `ServerGrants.dfy` | at most one reward for a dungeon instance, and exactly when one is recorded |
| `ServerInstances.dfy` | dungeon instances over server runs: their phases and their parties |
| `ServerEntries.dfy`, `ServerDungeonRun.dfy` | who gets into a dungeon and with which seed, and a run in which a reward is lost |
| `ServerScreen.dfy` | transport, version and signature checks in front of the packet switch, and what passes them |
| `ServerReplay.dfy` | the replay check over server runs, reconnects included |
| `ServerTokens.dfy` | login tokens over server runs, logouts included |
| `ServerLogins.dfy` | which logins are answered, how sessions come by their users, and where a reconnected session goes on |
| `ServerAnswers.dfy` | what every request is answered and what it changes, in the server's maps and the source's constants |
| `ServerFrames.dfy` | what each call and packet type leaves alone, and the equations other proofs build on |
| `ServerObject.dfy` | the server object, method by method, proved against `Server.dfy` |
| `Registry.dfy`, `Tokens.dfy` | the session registry and the token service |
| `Party.dfy`, `Guild.dfy`, `Instances.dfy` | parties with invites, guilds, dungeon instances |
| `MatchQueue.dfy` | matchmaking with widening tolerance |
| `Reward.dfy` | the bounded reward inventory and its all-or-nothing grant |
| `InventoryStore.dfy`, `CachedInventory.dfy` | the snapshot store and the cache over it |
| `Session.dfy` | token bucket, bounded send queue, replay window of one session |
| `Dispatcher.dfy` | packet queue, dispatcher thread and worker pool under every interleaving |
| `Framing.dfy`, `Protocol.dfy`, `MessageCodec.dfy`, `Security.dfy`, `EndToEnd.dfy` | frames, message layouts, encoders and decoders, the signed envelope, and all of them stacked |
| `Common.dfy` | fixed-width integers, times, Option, renaming a map's key |

`dafny verify dfyconfig.toml` checks the whole project.

Ten results say that the code falls short of what one might expect, and exactly when:

- A cache started empty over a store that already holds items hides them after the first addition; it
  is invisible if and only if every persisted inventory is empty (`CachedInventory.ColdCacheExact`).
- A failed reward grant undoes itself if and only if the inventory's capacity is below 2^32
  (`Reward.AtomicExactly`).
- A reconnect leaves a party or guild index naming a dead session if and only if old and new session are
  both in a party, or both in a guild (`ServerInvariant.ReconnectKeepsExactly`,
  `ServerReconnect.StrandsMember`, `ServerReconnect.StrandsGuildMember`).
- A takeover leaves party invites addressed to the dead session if and only if the old session holds
  pending ones and either is in no party itself or hands over to a session that is in one
  (`ServerReconnect.ReconnectRenames`, `Party.InvitesFollowExactly`, `ServerReconnect.StrandsInvite`).
- A reconnect can take a session's sequence number back; a stamp then passes again exactly when its number
  is above the restored one and its nonce has left the session's window
  (`ServerReplay.PassesAfterReconnect`, `ServerReplay.LoginStampPassesAgain`).
- `stop()` drains every accepted job if and only if there is a handler and at least one worker
  (`Dispatcher.DrainsExactly`).
- The first admitted result of a dungeon that is being played ends it whatever the answer; the reward is
  paid, then or ever, if and only if the session has a character, no count is zero and the counts sum to at
  most 100 (`ServerGrants.PaidNowOrNever`, `ServerDungeonRun.LosesTheReward`).
- An instance is entered once at most, so in a larger party only one member gets a character from it, and
  the first result of another, unless an earlier dungeon has given it a character, loses the reward
  (`ServerEntries.EnteredAtMostOnce`, `ServerDungeonRun.LosesTheReward`).
- Jobs of one connection are handled in order if and only if there is no handler or at most one worker
  (`Dispatcher.OrderedExactly`).
- A logout does not end the login's token, which reconnects until its 300 seconds are over
  (`ServerTokens.LoginTokenLasts`, `ServerTokens.LogoutIsUndone`).

Also, the server's match queue is empty between packets, so two parties are never matched with each other
(`ServerInvariant.MatchesAlone`).

## Model

| member | source | states |
|---|---|---|
| ServerInvariant.EveryReachableState | src/net/server.cpp:68-155 | After every run the registry's maps are mutually inverse, each registered id is a live session holding the same context, no user is on two sessions and the match queue is empty; if every event was allowed, every index is also keyed by live sessions |
| ServerInvariant.StepKeeps | src/net/server.cpp:108-155 | Every single allowed event, packets and outside calls included, keeps the whole invariant, live indexes included |
| ServerInvariant.StepKeepsCore | src/net/server.cpp:108-155 | Any event whatever, a merging reconnect included, keeps logins, agreeing services and the empty queue; an allowed one keeps the indexes live |
| ServerInvariant.OneSessionPerUser | src/net/server.cpp:68-80 | In every reachable state two sessions logged in as the same user are the same session |
| ServerInvariant.TickInAnyOrder | src/net/server.cpp:145-155 | In every reachable state, whatever order the tick removes dead sessions in, the end state is the same, and exactly the live sessions remain |
| ServerInvariant.RemoveOneMore | src/net/server.cpp:120-135 | In every reachable state, removing sessions one at a time amounts to removing them all at once, across registry, parties, guilds, instances and characters |
| ServerInvariant.LoginNeverRefusedLate | src/net/server.cpp:296-329 | A login's second "already logged in" answer is given in no state at all |
| ServerInvariant.ReconnectKeepsExactly | src/net/server.cpp:404-444 | Every reconnect keeps what all runs keep; it keeps the indexes live if and only if it does not merge two party or two guild memberships; its second "already logged in" answer is not given |
| ServerInvariant.ReconnectRefusedLateExactly | src/net/server.cpp:404-444 | In any state, that second answer is given if and only if the registry's maps disagree about the displaced session |
| ServerInvariant.MatchesAlone | src/net/server.cpp:562-592 | With an empty queue a queued party finds no partner, leaves the queue again and is placed alone |
| ServerInvariant.PlaceKeeps | src/net/server.cpp:594-655 | Placing a party gives it an instance and puts only live sessions into it |
| ServerLogins.LoginExactly | src/net/server.cpp:281-329 | A login is answered if and only if the password is the literal one and the user is active on no other session; it is refused for its password exactly when that is wrong, for a live login otherwise, and a refused one changes nothing |
| ServerLogins.LoginAttaches | src/net/server.cpp:310-329 | An answered login attaches the user, files the token for 300 seconds, and makes the user active on this session in place of whomever the session was logged in as; no other user, session or token is touched |
| ServerLogins.LoginPacketExactly | src/net/server.cpp:240-329 | The same for whole packets: unanswered exactly when the replay check refuses them, and the session is logged in as somebody new exactly when the password was right and the user free |
| ServerLogins.StepFrom | src/net/server.cpp:262-454 | In any step a session gains a user only by its own request, a login with the password or a reconnect with a known unexpired token of that user, and a token gets its record only from a login with the password, for 300 seconds |
| ServerLogins.EveryUserGaveThePassword | src/net/server.cpp:262-454 | In every run, whoever a session is logged in as, an earlier login request for that user, issued the token the session holds, carried the password; so it is for every token the server knows |
| ServerLogins.ReconnectRegisters | src/net/server.cpp:404-444 | An accepted reconnect logs the session in and registers it as the token's user; every session but the one the user was active on, and every token, stays as it was |
| ServerLogins.ReconnectNumbers | src/net/server.cpp:404-454 | An accepted reconnect goes on from the larger of the client's number and the number of the session the user was active on, 0 without one, and answers one more modulo 2^32 |
| ServerLogins.ReconnectRefuses | src/net/server.cpp:387-401 | A reconnect with an unknown or expired token is refused, and the token forgotten; nothing else changes |
| ServerLogins.ResumesAtTheFirstThatPasses | src/net/server.cpp:445-454 | The answered number is the least above the restored one: it passes the replay check with any nonce outside the window and no smaller one does; at 2^32 - 1 the answer is 0 and no number passes |
| ServerAnswers.PacketExactly | src/net/server.cpp:169-258 | A packet is handled exactly if it has no stamp, or one above the session's last number with a nonce outside its window; clock and version are stored in any case, the number only then |
| ServerAnswers.HandleAnswers | src/net/server.cpp:483-495 | Exactly match, dungeon, inventory and guild requests are refused on a session without a user, and change nothing then; no request is answered by a version rejection |
| ServerAnswers.ConnectsExactly | src/net/server.cpp:108-118 | A new session has the next id, no user, and has heard of no number or nonce |
| ServerAnswers.TicksExactly | src/net/server.cpp:145-155 | A tick keeps exactly the sessions that are connected and were heard from less than their timeout ago, and those unchanged |
| ServerAnswers.RemovesSessionExactly | src/net/server.cpp:120-135 | A removed session is in no map any more, its user is active nowhere, and no other session or user is touched |
| ServerAnswers.LogsOutExactly | src/net/server.cpp:343-370 | A logout is always answered; it ends the session's login and nothing else |
| ServerAnswers.DisplacesExactly | src/net/server.cpp:404-428 | A displaced session is gone and its instance and character, pointwise, and its party and guild memberships, as their services say, are the new session's, whatever that had; an entry without a live session is only dropped |
| ServerAnswers.MatchRefuses | src/net/server.cpp:498-582 | Which refusal a match request gets: no party, unknown party, not a member, or, for party 0 or a size outside 1..5, not queued; each if and only if, in this order, and none changes anything |
| ServerAnswers.MatchPlacesAlone | src/net/server.cpp:562-655 | With an empty queue every other request is answered its own party, the next instance and the first ticket drawn |
| ServerAnswers.PlacesExactly | src/net/server.cpp:594-655 | A placement goes through exactly for an existing party, whose new instance waits with the drawn ticket and seed and takes in exactly the members with a live session |
| ServerAnswers.EntryAnswers | src/net/server.cpp:700-824 | Which refusal an entry gets, each if and only if and in order, and none changes anything; otherwise the instance's seed is answered and the session plays the character it named there |
| ServerAnswers.FoundingAnswers | src/net/server.cpp:1107-1163 | A guild is founded exactly by a logged-in session in none, under a name; the session leads it and is its only member, under its user's name |
| ServerAnswers.JoiningAnswers | src/net/server.cpp:1164-1212 | A guild is joined exactly if it is there and the session is in none; the member bears the session's user name |
| ServerAnswers.LeavingAnswers | src/net/server.cpp:1213-1279 | A guild is left exactly by a member, guild 0 standing for the one the session is in |
| ServerReconnect.ReconnectRenames | src/net/server.cpp:404-454 | From a session that carries nothing, a takeover is accepted and leaves sessions, registry, parties, guilds, instances and characters as the exact image under renaming the old id, which none of them names any more, and goes on from the larger sequence number; pending party invites are renamed, and none is left for the old id, if and only if the old session is in a party or had none; everything else is unchanged |
| ServerReconnect.StrandsMember | src/net/server.cpp:404-425 | Six events after which the party index names a session that is gone |
| ServerReconnect.StrandsGuildMember | src/net/server.cpp:404-425 | Seven events after which the guild index names a session that is gone |
| ServerReconnect.StrandsInvite | src/net/server.cpp:404-425 | Seven events after which an invite that could have been accepted waits for a session that is gone, and the session that took over cannot accept it |
| ServerRewards.Conservation | src/net/server.cpp:962-1092 | Over every run from start each stored quantity is the sum of the accepted counts modulo 2^32, each version is the number of accepted lines, and a load through the cache answers the stored items |
| ServerRewards.RunConserves | src/net/server.cpp:962-1092 | The same from any state whose cache and store agree, relative to what was there |
| ServerRewards.VersionCountsLines | src/net/server.cpp:1069-1092 | An inventory update is accepted exactly when no count is zero, and its answered version counts the lines accepted so far, its own included |
| ServerRewards.DepositCredits | src/net/server.cpp:987-1015 | A transaction of lines goes through exactly when every count is positive, then adds each line; otherwise the store is as before |
| ServerRewards.ResultCredits | src/net/server.cpp:898-1030 | A recorded result credits exactly its rewards to the session's character, any other answer credits nothing, and the storage failure after a completed grant cannot happen |
| ServerGrants.PaidAtMostOnce | src/net/server.cpp:898-1030 | Over every run no instance has two recorded results; the granted instances are exactly those recorded, under distinct grant ids, and each is cleared, failed or terminated |
| ServerGrants.RecordedExactly | src/net/server.cpp:862-1030 | A result is recorded if and only if the session's instance is being played, its character is set, no count is zero and the counts sum to at most 100 |
| ServerGrants.ResultAnswers | src/net/server.cpp:862-1030 | Which of its seven answers a dungeon result gets in any state, in the order of the checks; no storage failure is among them |
| ServerGrants.OverIsNeverPaid | src/net/server.cpp:916-945 | An instance that is over is not paid for in any later run |
| ServerGrants.ResultEnds | src/net/server.cpp:916-945 | A result for an instance that is being played ends it, in Clear or Fail as reported, whatever the answer |
| ServerGrants.PaidNowOrNever | src/net/server.cpp:862-1030 | The first admitted result of a played instance decides: by it or in any later run the instance is paid for if and only if the session has a character, no count is zero and the counts sum to at most 100 |
| ServerDungeonRun.LosesTheReward | src/net/server.cpp:916-985 | A run from start in which a party of two is matched, only one of them gets in and the dungeon runs: reported first by the other member, or by the one inside with a count of zero, it is never paid for afterwards, while a count of one from the one inside would be paid at once |
| ServerInstances.InstanceLifecycle | src/dungeon/instance_manager.cpp:24-57 | Over every run of the server an instance changes phase at most four times, never sees both Clear and Fail and never leaves Terminate |
| ServerInstances.GrantedExactly | src/dungeon/instance_manager.cpp:33-84 | In every reachable server state exactly these moves are granted: Waiting to Ready and Ready to Playing while the instance's party exists, Playing to Clear or Fail, and to Terminate from anywhere else |
| ServerInstances.NoPartyNoStart | src/dungeon/instance_manager.cpp:33-84 | Once an instance's party is gone, it becomes ready or is played in no later run of the server unless it already was, whatever parties are formed |
| ServerEntries.EnteredAtMostOnce | src/net/server.cpp:752-800 | Over every run an instance lets in one session at most, once |
| ServerEntries.EntersExactly | src/net/server.cpp:700-800 | An entry is granted if and only if the instance waits, the ticket is its ticket, its party exists and lists the session; then the instance is ready, and otherwise nothing has changed |
| ServerEntries.DrawnSeedIsAnswered | src/net/server.cpp:606-798 | After any run and an answered match, through any run: whoever enters that instance presents the ticket that was drawn for it and is answered the seed that was drawn with it |
| ServerScreen.OnlySignedPacketsAct | src/net/server.cpp:185-258 | With signatures required, a payload that is no envelope of the server's key changes exactly its session's clock and protocol version, and is answered, by a version rejection, if and only if its transport is accepted and its version is outside 1..3 |
| ServerScreen.ScreensExactly | src/net/server.cpp:185-239 | What passes the checks before the replay check: exactly an accepted transport and a version in 1..3, with at least 28 bytes where the policy wants envelopes, signed where it wants signatures; the rest is the payload, and the stamp, taken only under replay protection, is what the first twelve bytes say |
| ServerScreen.VersionRejectedExactly | src/net/server.cpp:187-222 | Under every policy a packet is answered by a version rejection if and only if its transport is accepted and its version is outside 1..3, and then only clock and version change |
| ServerScreen.UnsignedVersionSeven | src/net/server.cpp:187-222 | A packet without an envelope that is answered and stores its version on the session although signatures are required |
| ServerScreen.WrappedPacketsPass | src/net/server.cpp:185-258 | A payload wrapped under the key passes the checks with its own stamp and contents |
| ServerReplay.NeverHandledTwice | src/net/server.cpp:185-258 | Once a stamp has passed on a session, a packet with that or a lower number only refreshes its clock and stores its header's version, after any events but that session's reconnect |
| ServerReplay.ReconnectMayLowerSeq | src/net/server.cpp:445-448 | A reconnect lowers the session's sequence number exactly when both the client's and the displaced session's numbers are below it |
| ServerReplay.PassesAfterReconnect | src/net/server.cpp:240-258 | Right after an accepted reconnect a stamp, handled before or not, passes if and only if its number is above the restored one and its nonce is not among those the session remembers |
| ServerReplay.LoginStampPassesAgain | src/net/server.cpp:445-448 | A run of four events after which the stamp of the session's own login passes again |
| ServerTokens.LoginTokenLasts | src/net/server.cpp:313-400 | After any run and then an answered login, through any run that does not issue its token again, that token reconnects any live session to the login's user if and only if it is younger than 300 seconds |
| ServerTokens.ReconnectAccepted | src/net/server.cpp:371-454 | In a reachable state a reconnect is accepted, and logs in the token's user, if and only if the token is known and unexpired |
| ServerTokens.LogoutIsUndone | src/net/server.cpp:343-370 | A logout takes no token back: with an unexpired one the session that has logged out is logged in again |
| ServerFrames.HandleFrame | src/net/server.cpp:262-1279 | Which parts of the server each request type can change at all |
| ServerScreen.ScreenPacket | src/net/server.cpp:193-258 | The chain of checks computes the verdict the lemmas speak of |
| ServerScreen.HandleRawPacket | src/net/server.cpp:169-258 | A raw packet on the server object does what clock, version store, checks, version rejection and dispatch say |
| ServerObject.GameServer.constructor | src/net/server.cpp:17-31 | A new server is the empty state |
| ServerObject.GameServer.Connect | src/net/server.cpp:108-118 | A new session gets the next id and is filed under it |
| ServerObject.GameServer.Disconnect | src/net/server.cpp:120-135 | Clears and drops the session and takes its id out of registry, party, guild, instance and character maps |
| ServerObject.GameServer.TickAll | src/net/server.cpp:145-155 | In every reachable state ticks every session, then removes exactly the dead ones |
| ServerObject.GameServer.LoginRequest | src/net/server.cpp:280-341 | Password, duplicate check, token, context and registry, in the source's order |
| ServerObject.GameServer.LogoutRequest | src/net/server.cpp:343-370 | Clears the context and the registry entry |
| ServerObject.GameServer.TakeOverSession | src/net/server.cpp:408-425 | Party, guild, instance and character pass to the new session and the old one is dropped |
| ServerObject.GameServer.DisplaceUser | src/net/server.cpp:404-428 | Removes whatever session the user is active on elsewhere and reports its sequence number |
| ServerObject.GameServer.ReconnectRequest | src/net/server.cpp:371-463 | The whole reconnect equals its specification |
| ServerObject.GameServer.IsMember | src/net/server.cpp:539-545 | The member search finds a session if and only if the party lists it |
| ServerObject.GameServer.TakePair | src/net/server.cpp:583-588 | Takes the first compatible pair out of the queue, or nothing |
| ServerObject.GameServer.PlaceMatches | src/net/server.cpp:594-655 | The placement loop over the matched parties, up to the frames it queues for other members |
| ServerObject.GameServer.MatchRequest | src/net/server.cpp:465-679 | The whole match request equals its specification, up to the frames it queues for other members |
| ServerObject.GameServer.EnterRequest | src/net/server.cpp:680-824 | Instance, ticket, party, membership and transition checks, then character and instance are set |
| ServerObject.GameServer.StoreLines | src/net/server.cpp:987-1015 | The loop of additions inside a transaction, committed or rolled back |
| ServerObject.GameServer.ResultNotify | src/net/server.cpp:825-1031 | The whole dungeon result equals its specification |
| ServerObject.GameServer.UpdateNotify | src/net/server.cpp:1032-1106 | The whole inventory update equals its specification |
| ServerObject.GameServer.GuildCreateRequest | src/net/server.cpp:1107-1163 | Creates a guild for the session's user or refuses |
| ServerObject.GameServer.GuildJoinRequest | src/net/server.cpp:1164-1212 | Joins a guild or refuses |
| ServerObject.GameServer.GuildLeaveRequest | src/net/server.cpp:1213-1279 | Leaves the named guild, or the current one for id 0 |
| ServerObject.GameServer.HandlePacket | src/net/server.cpp:169-1106 | Clock and protocol version, replay check, authentication and dispatch to the handlers |
| Registry.SessionRegistry.RegisterSession | src/net/server.cpp:68-80 | Refuses a user active elsewhere, otherwise replaces the session's old entry |
| Registry.SessionRegistry.RemoveSession | src/net/server.cpp:82-88 | Drops the record and the user it names |
| Registry.SessionRegistry.HasUser | src/net/server.cpp:98-106 | The session a user is active on |
| Registry.RegisterKeepsInverse | src/net/server.cpp:68-80 | Registration keeps the two maps inverse |
| Registry.RegistersExactly | src/net/server.cpp:68-80 | A registration goes through exactly if the user is active on no other session; then exactly the session's record and the entries of its old and new user change |
| Registry.RemovesExactly | src/net/server.cpp:82-88 | A removal takes the session's record and the entry of the user it names, and nothing else |
| Registry.ActiveWhereRecorded | src/net/server.cpp:68-80 | After a registration in inverse maps a user is active exactly on the session recorded for it |
| Registry.RemoveFrees | src/net/server.cpp:82-88 | Removal frees the user exactly when the session's record is the user's |
| Tokens.TokenLifetime | src/net/auth.cpp:11-31 | A token answers its user exactly while younger than 300 seconds, whatever else is issued or checked in between |
| Tokens.IssuedTokenLasts | src/net/auth.cpp:11-31 | An issued token answers its user if and only if it is younger than 300 000 milliseconds, through any calls that do not issue it again |
| Tokens.ChecksForgetExpired | src/net/auth.cpp:18-31 | A check forgets the token it is asked about if that has expired, and no other one |
| Tokens.TokenService.IssueToken | src/net/auth.cpp:11-16 | Files the token with its expiry |
| Tokens.TokenService.ValidateToken | src/net/auth.cpp:18-31 | Unknown or expired tokens fail, and an expired one is forgotten |
| Dispatcher.NothingLostOrDuplicated | src/net/worker_pool.cpp:24-130 | In every interleaving accepted jobs are evicted, queued, held, skipped, pooled, running or handled, each once; the queue keeps its capacity, the drop counter is the number of evictions plus the number of pushes refused under DropNewest with the queue full, and jobs are submitted in order of acceptance |
| Dispatcher.StopDrains | src/net/worker_pool.cpp:152-176 | With a handler and a worker, a stop that begins after the last enqueue returns only when every accepted job that was not evicted has been handled once |
| Dispatcher.DrainsExactly | src/net/worker_pool.cpp:152-176 | Every such stop drains if and only if there is a handler and at least one worker |
| Dispatcher.LosesTheJob | src/net/worker_pool.cpp:168-176 | Without handler or worker, one enqueued job is accepted and never handled |
| Dispatcher.PushesExactly | src/net/worker_pool.cpp:67-95 | Without capacity or below it a push appends, evicts nothing and counts nothing; at capacity the newest is refused or exactly the oldest dropped, each counted once |
| Dispatcher.WaitsExactly | src/net/worker_pool.cpp:67-95 | A blocking push waits exactly while the queue is at its capacity and not stopped |
| Dispatcher.PopsExactly | src/net/worker_pool.cpp:97-110 | A pop takes exactly the oldest job, waits while there is none, and ends once the queue is stopped and empty |
| Dispatcher.DropsAtCapacity | src/net/worker_pool.cpp:67-95 | In every run each eviction and each refusal for fullness happens at a queue length equal to the capacity |
| Dispatcher.OrderedExactly | src/net/worker_pool.cpp:47-63 | In every run jobs, all of them as well as those of each single connection, are handled in the order of their acceptance, if and only if there is no handler or at most one worker |
| Dispatcher.Overtakes | src/net/worker_pool.cpp:47-63 | With two workers, a run in which the second job is handled before the first |
| Dispatcher.PacketQueue.PushJob | src/net/worker_pool.cpp:67-95 | One critical section of push under each overflow policy |
| Dispatcher.PacketQueue.PopJob | src/net/worker_pool.cpp:97-110 | One critical section of pop: the oldest job, or none once stopped and empty |
| Dispatcher.PacketQueue.Stop | src/net/worker_pool.cpp:112-118 | Marks the queue stopped and keeps what is queued |
| Dispatcher.WorkerPool.Take | src/net/worker_pool.cpp:47-63 | One critical section of a worker: the oldest job, or the end |
| Dispatcher.WorkerPool.Submit | src/net/worker_pool.cpp:39-45 | Appends the job |
| Dispatcher.WorkerPool.RequestStop | src/net/worker_pool.cpp:24-37 | Tells workers to end once the pool is empty |
| CachedInventory.CacheIsInvisible | src/inventory/cached_inventory_storage.cpp:9-98 | From empty stores every run of calls, transactions included, is answered exactly as by the plain store |
| CachedInventory.RunRefines | src/inventory/cached_inventory_storage.cpp:9-98 | The coupling of live stores and of every pair of open snapshots is kept by every run, with equal replies |
| CachedInventory.LoadsExactly | src/inventory/cached_inventory_storage.cpp:36-47 | In any state a load answers what the cache holds, or else what is persisted, and keeps the answer for the next load, whatever has become of the persisted inventory |
| CachedInventory.WritesExactly | src/inventory/cached_inventory_storage.cpp:54-78 | In any state the persistent store answers; refused there, the cache is not touched; refused only by the cache, the cache takes over the persisted inventory |
| CachedInventory.RefusalHeals | src/inventory/cached_inventory_storage.cpp:67-78 | However far the cache is off, once it has refused a removal that went through, loads answer what is persisted again |
| CachedInventory.ColdCacheExact | src/inventory/cached_inventory_storage.cpp:36-98 | A cold cache is invisible if and only if every persisted inventory is empty |
| CachedInventory.ColdAddHidesItems | src/inventory/cached_inventory_storage.cpp:54-65 | Two calls on a cold cache whose replies differ from the plain store's |
| CachedInventory.CachedInventoryStorage.Begin | src/inventory/cached_inventory_storage.cpp:9-14 | Opens a pair of transactions |
| CachedInventory.CachedInventoryStorage.Commit | src/inventory/cached_inventory_storage.cpp:16-24 | Commits the pair, or nothing for an unknown id |
| CachedInventory.CachedInventoryStorage.Rollback | src/inventory/cached_inventory_storage.cpp:26-34 | Rolls back the pair, or nothing for an unknown id |
| CachedInventory.CachedInventoryStorage.Load | src/inventory/cached_inventory_storage.cpp:36-47 | Reads through and fills the cache |
| CachedInventory.CachedInventoryStorage.Save | src/inventory/cached_inventory_storage.cpp:49-52 | Saves to both stores |
| CachedInventory.CachedInventoryStorage.Add | src/inventory/cached_inventory_storage.cpp:54-65 | Persistent store first, then cache |
| CachedInventory.CachedInventoryStorage.Remove | src/inventory/cached_inventory_storage.cpp:67-78 | Persistent store first, then cache, which reloads if it refuses |
| CachedInventory.CachedInventoryStorage.SetQuantity | src/inventory/cached_inventory_storage.cpp:80-86 | Sets in both stores |
| CachedInventory.CachedInventoryStorage.Log | src/inventory/cached_inventory_storage.cpp:88-91 | The persistent store's log |
| InventoryStore.RunReplays | src/inventory/in_memory_inventory_storage.cpp:51-131 | Without bulk saves each inventory, live or in an open snapshot, is the replay of its change log |
| InventoryStore.RunOrdersIds | src/inventory/in_memory_inventory_storage.cpp:117-131 | Change ids rise along each log, are used once and stay below the next id |
| InventoryStore.RollbackRestores | src/inventory/in_memory_inventory_storage.cpp:7-35 | Whatever runs in between, a rollback puts inventories, logs and next change id back as at its begin |
| InventoryStore.AddsExactly | src/inventory/in_memory_inventory_storage.cpp:51-64 | An addition goes through if and only if its count is positive; that item then grows by it modulo 2^32 and every other item and inventory stays |
| InventoryStore.RemovesExactly | src/inventory/in_memory_inventory_storage.cpp:66-87 | A removal goes through if and only if its count is positive and at least that much is held; that item then falls by exactly it, is absent exactly when nothing is left, and every other item and inventory stays |
| InventoryStore.SetsExactly | src/inventory/in_memory_inventory_storage.cpp:89-101 | A set stores exactly the count, absent exactly at 0, and leaves every other item and inventory alone |
| InventoryStore.ReadsAndSaves | src/inventory/in_memory_inventory_storage.cpp:37-49 | A load answers the inventory if there is one; a save replaces exactly that one |
| InventoryStore.TransactionsExactly | src/inventory/in_memory_inventory_storage.cpp:7-35 | A begin files the present state under a new id, a commit forgets it, a rollback restores it if it is still open |
| InventoryStore.RunBalances | src/inventory/in_memory_inventory_storage.cpp:51-131 | Over every run without bulk saves an item's count is, modulo 2^32, what it was last set to plus the additions and minus the removals logged since |
| InventoryStore.InMemoryInventoryStorage.Begin | src/inventory/in_memory_inventory_storage.cpp:7-17 | Saves a snapshot under a new id |
| InventoryStore.InMemoryInventoryStorage.Commit | src/inventory/in_memory_inventory_storage.cpp:19-23 | Forgets the snapshot |
| InventoryStore.InMemoryInventoryStorage.Rollback | src/inventory/in_memory_inventory_storage.cpp:25-35 | Restores the snapshot if it is still open |
| InventoryStore.InMemoryInventoryStorage.Load | src/inventory/in_memory_inventory_storage.cpp:37-44 | The inventory, if there is one |
| InventoryStore.InMemoryInventoryStorage.Save | src/inventory/in_memory_inventory_storage.cpp:46-49 | Replaces the inventory |
| InventoryStore.InMemoryInventoryStorage.Add | src/inventory/in_memory_inventory_storage.cpp:51-64 | Adds modulo 2^32 and logs; refuses a zero count |
| InventoryStore.InMemoryInventoryStorage.Remove | src/inventory/in_memory_inventory_storage.cpp:66-87 | Removes what is there in sufficient quantity and logs; a refusal may leave an empty inventory behind |
| InventoryStore.InMemoryInventoryStorage.SetQuantity | src/inventory/in_memory_inventory_storage.cpp:89-101 | Sets or erases and logs |
| InventoryStore.InMemoryInventoryStorage.Log | src/inventory/in_memory_inventory_storage.cpp:103-110 | The inventory's log, in order |
| Party.RunAgrees | src/party/party.cpp:9-292 | After every run the index maps a session to a party exactly when that party exists and lists it under its own key, leaders are members, ids are below the next and invites belong to existing parties |
| Party.LeaderLeavingDisbands | src/party/party.cpp:152-218 | A leaving leader does to the service what disbanding does |
| Party.LazyAndEagerExpiryAgree | src/party/party.cpp:74-123 | Sweeping before or after an acceptance gives the same answer, the same state and the expected counts |
| Party.SweepIsComplete | src/party/party.cpp:267-292 | After a sweep no invite is past the timeout, and the count is the number removed |
| Party.ReplaceRenames | src/party/party.cpp:220-265 | Replacing a session by one in no party renames it in every party, leader and index, none of which names the old one any more; next id and timeout stay |
| Party.InvitesFollowExactly | src/party/party.cpp:220-265 | Pending invites are the image under the renaming, and none is left for the old session, if and only if the old session is in a party and the new one is not, or there was none; otherwise all stay as they were |
| Party.OwnInviteStays | src/party/party.cpp:252-262 | Where both sessions hold an invite to the same party, the new session's own is kept |
| Party.StepRevivesNone | src/party/party.cpp:9-33 | No call brings back the id of a party that is gone |
| Party.CreatesExactly | src/party/party.cpp:9-33 | Exactly a session in no party founds one, under the next id, as its leader and only member |
| Party.InvitesExactly | src/party/party.cpp:35-72 | An invite is filed if and only if the inviter is a member of the existing party and the session is in no party and not yet invited to it; no other invite is touched |
| Party.AcceptsExactly | src/party/party.cpp:74-123 | An acceptance goes through if and only if the invite is no older than the timeout and the session still in no party; any answer uses the invite up, and no other invite, party or session is touched |
| Party.RejectsExactly | src/party/party.cpp:125-150 | A rejection goes through exactly for a waiting invite and takes that one alone away |
| Party.DisbandsExactly | src/party/party.cpp:152-178 | A party is disbanded exactly by its leader, with its invites and the entries of its members and nothing else |
| Party.RemovesExactly | src/party/party.cpp:180-218 | A leader takes the party along; any other member leaves it alone, with the invite it may still have to it |
| Party.ReplacesExactly | src/party/party.cpp:220-265 | A replacement goes through exactly for the same session, or for a listed one by one in no party; otherwise nothing changes |
| Party.ExpiresExactly | src/party/party.cpp:267-292 | A sweep takes exactly the invites to existing parties that are older than the timeout |
| Party.InvitesLastFiveMinutes | src/party/party.cpp:74-123 | In every run without a timeout change an invite is accepted if and only if it is no older than 300 000 milliseconds, its party exists and the session is in none |
| Party.WithoutOneMore | src/party/party.cpp:180-218 | Removals of several sessions, leaders or members, amount to one simultaneous removal |
| Party.PartyService.CreateParty | src/party/party.cpp:9-33 | A session in no party gets a new one |
| Party.PartyService.Invite | src/party/party.cpp:35-72 | Files an invite from a member to a session in no party, once |
| Party.PartyService.Accept | src/party/party.cpp:74-123 | Uses up the invite; joins unless it expired or the invitee joined elsewhere |
| Party.PartyService.Reject | src/party/party.cpp:125-150 | Drops the invite |
| Party.PartyService.DisbandParty | src/party/party.cpp:152-178 | The leader dissolves the party and its invites |
| Party.PartyService.Remove | src/party/party.cpp:180-218 | Dissolves a leader's party, or takes the member out |
| Party.PartyService.ReplaceMemberSession | src/party/party.cpp:220-265 | Moves membership, leadership, index and pending invites to the new session |
| Party.PartyService.Expire | src/party/party.cpp:267-292 | The nested loop removes exactly the expired invites and counts them |
| Party.PartyService.SetInviteTimeout | src/party/party.cpp:326-328 | Sets the timeout |
| Guild.RunAgrees | src/guild/guild.cpp:7-196 | After every run guilds and index agree as for parties |
| Guild.RemovalIsLeaving | src/guild/guild.cpp:64-161 | Removal is leaving the indexed guild; leaving any other guild is refused |
| Guild.CreatesExactly | src/guild/guild.cpp:7-32 | Exactly a session in no guild, with a name, founds one of that name as its leader and only member |
| Guild.JoinsExactly | src/guild/guild.cpp:34-62 | Exactly a session in no guild joins an existing one, under its user's name; leader, name and other members stay |
| Guild.LeavesExactly | src/guild/guild.cpp:64-109 | Exactly a member leaves; a leader takes the guild along, and every other guild stays |
| Guild.RemovesExactly | src/guild/guild.cpp:111-161 | A session is removed exactly from the guild it is filed under, if that lists it; otherwise only its entry goes |
| Guild.ReplacesExactly | src/guild/guild.cpp:163-196 | A replacement goes through exactly for the same session, or for a listed one by one in no guild; otherwise nothing changes |
| Guild.NameStays | src/guild/guild.cpp:7-196 | Through any run a guild bears the name its founder gave it as long as it exists |
| Guild.ReplaceRenames | src/guild/guild.cpp:163-196 | Replacing a session by one in no guild is a renaming, after which no guild names the old one; the next id stays |
| Guild.WithoutOneMore | src/guild/guild.cpp:111-161 | Removals of several sessions amount to one simultaneous removal |
| Guild.GuildService.CreateGuild | src/guild/guild.cpp:7-32 | A session in no guild and with a name gets a new guild |
| Guild.GuildService.JoinGuild | src/guild/guild.cpp:34-62 | Joins an existing guild |
| Guild.GuildService.LeaveGuild | src/guild/guild.cpp:64-109 | Dissolves the leader's guild, or takes the member out |
| Guild.GuildService.Remove | src/guild/guild.cpp:111-161 | The same by session, forgetting a stale index entry |
| Guild.GuildService.ReplaceMemberSession | src/guild/guild.cpp:163-196 | Moves membership, leadership and index to the new session |
| Instances.Lifecycle | src/dungeon/instance_manager.cpp:24-57 | Over every run an instance changes phase at most four times, never sees both Clear and Fail and never leaves Terminate |
| Instances.ReadyMeansExists | src/dungeon/instance_manager.cpp:72-84 | In every reachable party service a party is ready exactly when it exists |
| Instances.RequestsExactly | src/dungeon/instance_manager.cpp:33-84 | A transition is granted if and only if it is one of the nine listed, and to Ready and Playing only for an existing party that lists its leader; exactly the phase changes |
| Instances.CreatesExactly | src/dungeon/instance_manager.cpp:9-22 | Exactly an existing party gets an instance, a waiting one under the next id |
| Instances.TerminatesExactly | src/dungeon/instance_manager.cpp:24-31 | Exactly an instance there is is terminated, from every phase, and no other one touched |
| Instances.InstanceManager.CreateInstance | src/dungeon/instance_manager.cpp:9-22 | A new waiting instance for an existing party |
| Instances.InstanceManager.TerminateById | src/dungeon/instance_manager.cpp:24-31 | Terminates from any phase |
| Instances.InstanceManager.Request | src/dungeon/instance_manager.cpp:33-57 | Grants the allowed transitions, with a ready party for Ready and Playing |
| Reward.AtomicExactly | src/reward/reward_service.cpp:5-26 | Failed grants restore the items for all inventories and lists if and only if the capacity is below 2^32 |
| Reward.GrantIsAtomic | src/reward/reward_service.cpp:5-26 | A completed grant adds exactly the list, with positive counts, within capacity and once per id; any other outcome leaves the items |
| Reward.TakeAllUndoes | src/reward/inventory.cpp:38-51 | Taking items back front to back undoes adding them, repeated ids included |
| Reward.PutAllComplete | src/reward/inventory.cpp:26-36 | A list goes in completely exactly when all counts are positive and fit |
| Reward.GrantsExactly | src/reward/reward_service.cpp:5-26 | A grant is a duplicate exactly when pending or completed, completes otherwise if and only if every count is positive and all fit, and fails otherwise |
| Reward.OneItemOnly | src/reward/inventory.cpp:26-51 | Adding counts modulo 2^32, taking counts down to nothing and then drops the item; every other item stays |
| Reward.WrapLosesItems | src/reward/inventory.cpp:26-51 | With a larger capacity, a failed grant that erases an item |
| Reward.ValidateClientRewards | src/reward/reward_service.cpp:37-57 | Accepts exactly the lists that are short enough, positive, and whose true sum is within the limit |
| Reward.GrantRewardsDetailed | src/reward/reward_service.cpp:5-26 | The apply and undo loops equal the specification |
| Reward.Inventory.AddItem | src/reward/inventory.cpp:26-36 | Adds what fits, modulo 2^32 |
| Reward.Inventory.RemoveItem | src/reward/inventory.cpp:38-51 | Takes off or erases |
| Reward.Inventory.TotalQuantity | src/reward/inventory.cpp:61-67 | The sum of all quantities |
| Reward.Inventory.BeginGrant | src/reward/inventory.cpp:9-16 | Starts a grant unless it is pending or completed |
| Reward.Inventory.CommitGrant | src/reward/inventory.cpp:18-20 | Marks the grant completed |
| Reward.Inventory.FailGrant | src/reward/inventory.cpp:22-24 | Marks the grant failed, so that it may be tried again |
| MatchQueue.MatchMaker.FindMatch | src/match/match_queue.cpp:64-79 | Takes out the lexicographically first compatible pair, or nothing if there is none |
| MatchQueue.FindsWhenThereIs | src/match/match_queue.cpp:64-79 | Nothing is found exactly when no two waiting parties are compatible |
| MatchQueue.MatchKeeps | src/match/match_queue.cpp:64-79 | A match removes two different parties and leaves the others in place |
| MatchQueue.CompatibilityLasts | src/match/match_queue.cpp:85-102 | Compatibility is symmetric and, with non-negative expansion, never lost by waiting |
| MatchQueue.BoundedWaiting | src/match/match_queue.cpp:85-102 | With positive expansion any two well-sized parties become compatible by a computable time |
| MatchQueue.CompatibleExactly | src/match/match_queue.cpp:85-102 | Two parties fit if and only if both sizes are within the rule and the gap beyond the base tolerance is covered by the widening of the shorter wait, its fraction dropped |
| MatchQueue.CompatibleFrom | src/match/match_queue.cpp:85-102 | Under a widening rule a pair with a larger gap fits exactly from when both have waited the excess divided by the rate |
| MatchQueue.DefaultRuleExactly | src/match/match_queue.cpp:85-102 | With the default rule: parties of 1 to 5, once both have waited a second for each 5 points beyond 100 |
| MatchQueue.EnqueuesExactly | src/match/match_queue.cpp:10-30 | A party is queued exactly if it is not party 0 and its size is within the rule, in place of its entry or at the back |
| MatchQueue.CancelsExactly | src/match/match_queue.cpp:32-42 | Exactly a waiting party is taken out and the others keep their order |
| MatchQueue.UpdatesExactly | src/match/match_queue.cpp:44-61 | A waiting party gets the new size and starts waiting anew, or leaves if the size is outside the rule |
| MatchQueue.MatchMaker.Add | src/match/match_queue.cpp:10-30 | Queues a party once, replacing its entry |
| MatchQueue.MatchMaker.CancelParty | src/match/match_queue.cpp:32-42 | Takes the party out |
| MatchQueue.MatchMaker.UpdatePartySize | src/match/match_queue.cpp:44-61 | Updates size and waiting start, or removes a party of a wrong size |
| Session.RateBound | src/net/session.cpp:17-26 | Over any window what is granted plus what is left is at most what was there plus the refill |
| Session.SendRateBound | src/net/session.cpp:54-97 | The bytes a run accepts obey the same bound |
| Session.ConsumeExactly | src/net/session.cpp:17-26 | A request is granted if and only if it is at most the capacity and what the tokens and the refill since come to; what is left is exactly that less what was granted |
| Session.GrantedFrom | src/net/session.cpp:17-26 | A request within the capacity is granted exactly from the moment the missing tokens have been earned |
| Session.RefusalsAreFree | src/net/session.cpp:17-26 | After any run of refused requests a request is granted exactly as if none had been made |
| Session.RateFloor | src/net/session.cpp:17-26 | The bound from below: over any window what is granted plus what is left is at least the smaller of the capacity and what was there plus the refill |
| Session.EnqueueExactly | src/net/session.cpp:54-97 | A payload is accepted if and only if the session is connected, the rate allows it and it fits or the policy makes room; the bytes are counted exactly |
| Session.EnqueueQueues | src/net/session.cpp:54-97 | What an accepted payload displaces: nothing while it fits, else the oldest just until it does |
| Session.DequeueExactly | src/net/session.cpp:182-190 | The oldest payload leaves and its bytes with it |
| Session.PassesExactly | src/net/server.cpp:240-258 | A stamp passes if and only if its number is above the last and its nonce outside the window; a refused one leaves no trace |
| Session.SendRunConserves | src/net/session.cpp:54-97 | The byte counter is exact, the queue bounded per policy, and accepted payloads are dropped, sent or queued, in order |
| Session.TrimKeepsLongest | src/net/session.cpp:76-81 | Dropping the oldest keeps the longest suffix that fits |
| Session.ReplayWindow | src/net/session.cpp:155-167 | The window is the last accepted nonces without duplicates, and a nonce is refused exactly when among them |
| Session.PassedSequenceRises | src/net/server.cpp:240-258 | The sequence numbers that pass on one session rise strictly |
| Session.TokenBucket.ConsumeTokens | src/net/session.cpp:17-26 | Refill, cap, then take or refuse |
| Session.ClientSession.EnqueueSend | src/net/session.cpp:54-97 | Rate limit and overflow policies, with the drop loop |
| Session.ClientSession.DequeueSend | src/net/session.cpp:182-190 | The oldest payload |
| Session.ClientSession.Record | src/net/session.cpp:155-167 | Set and deque stay in step while old nonces are evicted |
| Session.ClientSession.Admit | src/net/server.cpp:240-258 | Sequence check, then nonce check, then the new sequence number |
| Session.ClientSession.Tick | src/net/session.cpp:107-117 | Alive exactly when connected and heard from within the timeout |
| Framing.CutsDoNotMatter | src/net/io_layer.cpp:24-40 | However the bytes are cut into reads, the frames dispatched and the tail left are those of the whole |
| Framing.FramesSurviveAnyCut | src/net/codec.cpp:34-67 | Encoded frames with payloads under 2^32 bytes come out again, in order, with an empty buffer |
| Framing.FrameBytes | src/net/codec.cpp:34-43 | The header is four bytes of payload length, two of packet type and two of version |
| Framing.DigitsAddUp | src/net/codec.cpp:20-30 | The bytes of a number add up to it with the highest first |
| Framing.HeadBytes | src/net/codec.cpp:49-67 | A frame is there exactly when its eight header bytes and as many more as the first four say are, and it is what those bytes say |
| Framing.FrameDecoder.NextFrame | src/net/codec.cpp:49-67 | Takes the first frame off if it is complete |
| Framing.FrameDecoder.Append | src/net/codec.cpp:45-47 | Appends the bytes read |
| Framing.PacketPipeline.RegisterConnection | src/net/io_layer.cpp:16-18 | A new connection has an empty decoder, a known one keeps its own |
| Framing.PacketPipeline.RemoveConnection | src/net/io_layer.cpp:20-22 | Forgets the connection and its unread bytes |
| Framing.PacketPipeline.OnRead | src/net/io_layer.cpp:24-40 | Appends and drains: dispatches every complete frame of a known connection |
| Protocol.RoundTrip | src/net/protocol.cpp:10-145 | Decoding an encoding gives the fields with strings and lists clipped to 65535 |
| Protocol.RoundTripExact | src/net/protocol.cpp:78-145 | Nothing is lost exactly when nothing exceeds the limit |
| Protocol.NumberBytes | src/net/protocol.cpp:10-62 | A boolean is one byte, a number its bytes with the highest first |
| Protocol.TextBytes | src/net/protocol.cpp:78-83 | A string is at most its first 65535 bytes behind two bytes of their number |
| Protocol.TextListBytes | src/net/protocol.cpp:104-112 | A list of strings is at most 65535 of them behind two bytes of their number |
| Protocol.ItemListBytes | src/net/protocol.cpp:136-145 | A list of items is at most 65535 of them, four bytes of id and four of count each, behind two bytes of their number |
| Protocol.Reencodes | src/net/protocol.cpp:10-145 | What decodes re-encodes to itself, up to a leading boolean normalised to 0 or 1 |
| Protocol.EveryMessageRoundTrips | src/net/protocol.cpp:149-924 | Both directions for the layouts listed for the protocol's messages, a corollary; four of the layouts are tied to encode and decode members below |
| MessageCodec.EncodeLoginRequest | src/net/protocol.cpp:149-154 | Writes the message's layout |
| MessageCodec.DecodeLoginRequest | src/net/protocol.cpp:156-165 | Reads the message's layout, and all of the payload |
| MessageCodec.EncodeGuildEvent | src/net/protocol.cpp:401-409 | Writes the message's layout, with its string list |
| MessageCodec.DecodeGuildEvent | src/net/protocol.cpp:411-431 | Reads the message's layout, and all of the payload |
| MessageCodec.EncodeMatchFoundNotify | src/net/protocol.cpp:651-661 | Writes the message's layout, with its leading boolean |
| MessageCodec.DecodeMatchFoundNotify | src/net/protocol.cpp:663-689 | Reads the message's layout, and all of the payload |
| MessageCodec.EncodeDungeonResultNotify | src/net/protocol.cpp:748-755 | Writes the message's layout, with its reward items |
| MessageCodec.DecodeDungeonResultNotify | src/net/protocol.cpp:757-775 | Reads the message's layout, and all of the payload |
| MessageCodec.ByteReader.ReadText | src/net/protocol.cpp:64-76 | Reads a length-prefixed string at the offset |
| MessageCodec.ByteReader.ReadTexts | src/net/protocol.cpp:85-102 | Reads a list of strings at the offset |
| MessageCodec.ByteReader.ReadItems | src/net/protocol.cpp:114-134 | Reads a list of reward items at the offset |
| MessageCodec.ByteWriter.WriteText | src/net/protocol.cpp:78-83 | Appends a clipped, length-prefixed string |
| MessageCodec.ByteWriter.WriteTexts | src/net/protocol.cpp:104-112 | Appends a clipped list of strings |
| MessageCodec.ByteWriter.WriteItems | src/net/protocol.cpp:136-145 | Appends a clipped list of reward items |
| Security.UnwrapsWhatWasWrapped | src/net/security.cpp:107-147 | Unwrapping a wrapped payload gives number, nonce and payload back, and the signature checks |
| Security.WrapsWhatWasUnwrapped | src/net/security.cpp:107-147 | An unwrapped envelope checks exactly when it is the wrapping of what it carries |
| Security.EnvelopeBytes | src/net/security.cpp:114-126 | The envelope is four bytes of number, eight of nonce, sixteen of signature over number, nonce and payload, and the payload |
| Security.UnwrapsExactly | src/net/security.cpp:128-147 | Exactly what is no shorter than 28 bytes unwraps, into those parts |
| Security.WrapSecurePayload | src/net/security.cpp:114-126 | Builds the envelope |
| Security.UnwrapSecurePayload | src/net/security.cpp:128-147 | Splits the envelope or reports it too short |
| EndToEnd.MessagesArrive | src/net/io_layer.cpp:24-40 | Through codec, envelope, framing and any cutting of the stream the receiver gets every message, clipped, in order, and no more |

## Left out

- HandlePacket: takes requests already decoded; the message codec of `Protocol.dfy` and `MessageCodec.dfy` is joined to it by an arbitrary decoding function in `ServerScreen.HandleRawPacket`.
- HandlePacket: frames queued on other members' sessions are not enqueued; a session that its send buffer disconnects is the event `LoseConnection`.
- HandleRawPacket: decoding is an arbitrary function of the inner payload, and chat packets are left out, as for HandlePacket.
- HandlePacket: chat requests, reply texts, log lines, trace ids and metrics carry no state the model keeps.
- EveryReachableState: packets and connection losses come from live sessions; that indexes are keyed by live sessions assumes in addition what `ServerInvariant.Allowed` says: party calls enter live sessions, and no reconnect merges two memberships.
- PlaceMatches: frames that tell other members of their match are not enqueued on their sessions; a session that its send buffer disconnects is the event `LoseConnection`.
- MatchRequest: the same frames are not enqueued.
- TakeOver: the two map moves are modelled as the code means them; that the source keeps an iterator across an insertion is not modelled.
- IssueToken: the random token is an input, as are tickets and seeds; two issued tokens may coincide.
- StoreStep: the second, database-named store has the same body as the in-memory one and is the same class here; wall-clock time stamps of changes are left out.
- Compatible: waiting times are exact reals and ratings unbounded integers; floating-point rounding and `int` overflow are left out.
- ConsumeTokens: token arithmetic is over exact reals.
- Verify: the signature is an arbitrary deterministic function of key, number, nonce and payload; nothing is claimed about its strength.
- EveryMessageRoundTrips: states both directions on message layouts; encode and decode methods are written out for four messages that together use every field kind.
- StopDrains: condition-variable wake-ups, fairness and liveness of the blocking policy are left out; each critical section is one atomic step that is taken only when its wait is over.
- StopDrains: restarting a stopped dispatcher and enqueues after `stop()` began are outside the drain theorem; the conservation theorem covers them.
- ReplaceRenames: inviter ids inside pending invites are not renamed by the code and not claimed.
- Identifier and change counters are unbounded; the source's 64-bit counters would wrap.
- Concurrent calls into the server or the cached store: neither takes a lock across its updates, so calls are serial steps.
- Sorting of member lists in party and guild information, and the events the services emit, are output only.
- Combat, movement validation, the admin interface, the I/O event loop's callbacks, the load simulator and scripts are left out.
