# Verified model of the IRCord server

The server of IRCord keeps a set of in-memory and table-backed state machines: throttling and bans, channels
and nicknames, the session registry with presence, store-and-forward delivery, voice rooms, file transfer, key
material, and the wire framing. This project models each of them as it is coded and proves what holds in every
run. Each handler of the server is one atomic step, except in `Registry.dfy`, where the critical sections of
different sessions interleave freely. Clocks are arguments: each handler reads its clock once.

Code that changes state is a class whose fields are reassigned. Each method is proved equal to a pure function of
the old state (`ensures State() == ...`), and the theorems about runs are lemmas about that function. Loops of the
server are loops here, and a walk over an unordered container is a walk in an arbitrary order.

| file | what it is about |
|---|---|
| `Base.dfy`, `Text.dfy` | shared types, ceiling division, case folding |
| `RateLimiter.dfy` | the fixed-window limiter and its sliding bound |
| `AbuseRecords.dfy` | violation records, bans and the cleanup nobody can observe |
| `ChannelNames.dfy` | the channel-name sanitizer |
| `Channels.dfy`, `ChannelRules.dfy` | what each command does to channels and nicknames, and what all of them keep |
| `ChannelEffects.dfy` | when each command is carried out, what is different then, and what a refusal says |
| `CommandHandler.dfy` | the handler: gate, limiters and dispatch |
| `CommandRuns.dfy`, `ChannelRuns.dfy`, `BanRuns.dfy`, `LimitRuns.dfy`, `SweepRuns.dfy` | whole runs of the handler |
| `Registry.dfy` | the two session maps, atomically and under interleaving |
| `Presence.dfy` | presence updates and every client's view |
| `OfflineStore.dfy`, `Delivery.dfy`, `DeliveryRuns.dfy` | the offline table, end-to-end delivery, and what each step does for whom |
| `VoiceRooms.dfy`, `VoiceSessions.dfy` | the room index and its delta protocol, alone and with the registry |
| `FileTransfer.dfy`, `FileEffects.dfy` | upload, reassembly and download |
| `KeyStore.dfy`, `KeyRuns.dfy` | identity keys, prekeys and their epochs, and the accounts behind every served bundle |
| `Framing.dfy` | the length-prefixed frames |

Where the code and what is written about it disagree, the model follows the code:

- `docs/server-architecture.md` (line 524) names 500 offline messages per user; the code has 100.
- The comment on the sanitizer (`src/utils/channel_utils.hpp`, lines 53 to 69) promises a result with a `#` prefix;
  `ab#cd` is a counterexample, and `SanitizedStartsWithHash` says exactly when the promise holds.

Some properties one would expect do not hold without a condition. The model states the exact condition, and where
it fails a concrete run:

- Operators are members until an operator bans an operator, because banning leaves the operator and voice bits in
  place, unlike part and kick (`OperatorsAreMembersIff`, `BannedOperatorRun`).
- The two nickname tables mirror one another until a user without a nickname takes one while somebody else goes by
  that user's id (`NicksMirroredIff`, `ErasedNickRun`).
- A download counts in chunks of 65536 bytes whatever chunk size the upload used (`DownloadWholeIff`,
  `SmallChunksCutDownload`).
- An upload request that follows the expiry of its own file keeps the old bits (`RequestAgreesIff`, `StaleBits`).
- The cap on offline messages counts expired rows (`SaveSeesCleanup`, `ExpiredRowsBlockSave`).
- A session that outlives a reset of its user's identity key can still upload prekeys (`UploadGenuineIff`,
  `StaleSessionUpload`). The second login is admitted once the first session has been reported gone, which after a
  ping timeout leaves it open (`src/net/session.cpp`, lines 1105 and 1128).
- A voice client misses what is sent while its user cannot be found (`ViewStepIff`, `UnreachedJoin`), and a session
  that has been reported gone, but is open still, can take its user into a room (`PresentIff`, `GhostInRoom`).
- Nickname check and registration are two critical sections (`RegisterDistinctIff`, `RaceBreaksDistinctness`).

The cleanup of the abuse records, `cleanup_old_abuse_records`, is private and has no caller in the repository. The
model lets it run at any point of any run, and shows that it would make no difference.

## Model

| member | source | states |
|---|---|---|
| RateLimit.RateLimiter.TryAcquire | src/net/rate_limiter.hpp:18-29 | a call rolls the window over when it has run out and is let through while the window has budget left; the new state is the one of the specification |
| RateLimit.RateLimiter.Reset | src/net/rate_limiter.hpp:31-34 | a reset limiter is a fresh one |
| RateLimit.SlidingBound | src/net/rate_limiter.hpp:18-29 | the fixed window gives a sliding bound: from any state and for any calls in time order, a half-open interval of length T > 0 admits at most maxTokens * (ceil((T - 1) / window) + 1) calls, which is at most maxTokens * (ceil(T / window) + 1); an empty one none |
| RateLimit.SlidingBoundIsTight | src/net/rate_limiter.hpp:18-29 | the bound is the best possible: every limiter reaches it for every length |
| RateLimit.RefusedOnlyWhenSpent | src/net/rate_limiter.hpp:18-29 | a call is refused only if at least the whole budget was admitted less than one window before it |
| RateLimit.WindowCount | src/net/rate_limiter.hpp:18-29 | the counter is the number of calls admitted since the window began |
| Abuse.CleanupUnobservable | src/commands/command_handler.cpp:774-858 | cleanups at any points of a run in time order change no answer of track_abuse or is_abuser, provided recorded violations are in order and not in the future |
| Abuse.CleanupBisimilar | src/commands/command_handler.cpp:833-858 | the bisimulation behind it: records that lack some stale ones give the same answers for ever |
| Abuse.CleanupEffect | src/commands/command_handler.cpp:833-858 | a cleanup keeps exactly the bans that are at most 30 minutes old and the other records whose first violation is at most 10 minutes old |
| SweepRuns.SweepsUnobservable | src/commands/command_handler.cpp:55-93 | and no reply of the whole command handler to anybody, in any run |
| SweepRuns.AdmitAlike | src/commands/command_handler.cpp:55-93 | gates that differ in stale records only give the same verdict on every command and stay that way |
| BanRuns.BanSoundness | src/commands/command_handler.cpp:774-806 | in every run: a record is banned exactly when it counts five violations, never more; a ban implies five refusals of that user by a limiter, the last at the time of the ban, all within ten minutes of the first |
| BanRuns.FiveRefusalsBan | src/commands/command_handler.cpp:774-806 | conversely, from any state in which the user has no record or only one that has run out, the record counts the refusals one by one, and the fifth within ten minutes bans, not an earlier one |
| BanRuns.BanHolds | src/commands/command_handler.cpp:808-831 | for thirty minutes after the fifth violation every command of the user is refused and changes nothing, whatever else happens in the run |
| BanRuns.BanEnds | src/commands/command_handler.cpp:808-831 | the first command after that passes the ban check and both limiters, and the record is gone |
| BanRuns.DispatchBound | src/commands/command_handler.cpp:67-81 | in every run, whatever other users do, at most 30 * (ceil((T - 1) / minute) + 1) commands of a user are dispatched in any interval of length T > 0 |
| BanRuns.LimiterFollowsGate | src/commands/command_handler.cpp:62-81 | the command limiter of a user inside the handler is the plain limiter, run on the times at which that user passes the ban check |
| BanRuns.RunGateIsGate | src/commands/command_handler.cpp:55-93 | bans and limits of a run depend on its gate events only |
| LimitRuns.JoinBound | src/commands/command_handler.cpp:123-135 | in every run, whatever other users do, at most 5 * (ceil((T - 1) / minute) + 1) joins of a user are let through in any interval of length T > 0 |
| LimitRuns.JoinLimiterFollowsGate | src/commands/command_handler.cpp:123-135 | the join limiter of a user inside the handler is the plain limiter, run on the times at which joins of that user get past the command limiter |
| LimitRuns.CountsAsJoinIff | src/commands/command_handler.cpp:107-135 | a request is put to the join limiter exactly if its word is join in any case and its sanitized name is "#" and valid characters |
| LimitRuns.CommandRefusalHasCause | src/commands/command_handler.cpp:67-81 | in every run a command is refused by the limiter only if 30 commands of that user were dispatched within the minute before |
| LimitRuns.JoinRefusalHasCause | src/commands/command_handler.cpp:123-135 | and a join only if 5 joins of that user were let through within the minute before |
| Text.NormalizeNickname | src/utils/nickname_utils.hpp:13-20 | the loop computes the case folding |
| Text.NicknamesEqual | src/utils/nickname_utils.hpp:25-34 | the comparison by index decides equality of the folded nicknames |
| Text.FoldIdempotent | src/utils/nickname_utils.hpp:13-20 | folding twice is folding once |
| Text.FoldsCapitals | src/utils/nickname_utils.hpp:13-20 | the 26 capital letters become the small ones, one for one, and every other character stays |
| ChannelNames.Sanitize | src/utils/channel_utils.hpp:70-123 | the flagged loop equals: valid characters before the first prefix character, "#", valid characters after it; or "#" and all valid characters if there is no prefix character |
| ChannelNames.SanitizeIdempotent | src/utils/channel_utils.hpp:70-123 | sanitizing twice is sanitizing once |
| ChannelNames.SanitizedShape | src/utils/channel_utils.hpp:70-123 | every result is valid characters around exactly one "#" |
| ChannelNames.SanitizedParts | src/utils/channel_utils.hpp:70-123 | the first of the four prefix characters becomes "#", and the parts before and behind it are filtered; without one "#" goes in front of the filtered name |
| ChannelNames.KeptConcat | src/utils/channel_utils.hpp:104-109 | filtering goes piece by piece, so it keeps order and number of the valid characters |
| ChannelNames.ValidChars | src/utils/channel_utils.hpp:29-50 | the valid characters are the letters, the digits and ten marks |
| ChannelNames.AcceptedNameIsKey | src/utils/channel_utils.hpp:131-141 | whatever was typed, a sanitized name that is accepted is "#" and one or more valid characters |
| ChannelNames.SanitizedStartsWithHash | src/utils/channel_utils.hpp:70-123 | the result begins with "#" exactly if no valid character stands before the first prefix character |
| ChannelNames.SanitizedWithoutHash | src/utils/channel_utils.hpp:70-123 | a concrete input whose result does not begin with "#" |
| Commands.CommandHandler.HandleCommand | src/commands/command_handler.cpp:55-93 | ban check, command limiter, dispatch by the lower-cased word; reply and whole new state |
| Commands.CommandHandler.CmdJoin | src/commands/command_handler.cpp:107-159 | join limiter after validation, creation, ban and invitation checks, first member becomes operator |
| Commands.CommandHandler.CmdPart | src/commands/command_handler.cpp:161-193 | leaving, with operator and voice bits; an emptied channel is destroyed |
| Commands.CommandHandler.CmdNick | src/commands/command_handler.cpp:195-232 | the old entry, or the one under the own id, is erased before the new one is set |
| Commands.CommandHandler.CmdKick | src/commands/command_handler.cpp:324-377 | operators only; the target loses membership and bits; an emptied channel stays |
| Commands.CommandHandler.CmdBan | src/commands/command_handler.cpp:379-409 | operators only; the target is banned and loses membership, but not the bits |
| Commands.CommandHandler.CmdInvite | src/commands/command_handler.cpp:411-447 | operators only; the target is put on the invitation list |
| Commands.CommandHandler.CmdSet | src/commands/command_handler.cpp:449-484 | operators only; one of three options |
| Commands.CommandHandler.CmdMode | src/commands/command_handler.cpp:486-532 | operators only; one bit of a member |
| Commands.CommandHandler.PartChannel | src/commands/command_handler.cpp:653-664 | as in part |
| Commands.CommandHandler.CmdQuit | src/commands/command_handler.cpp:710-732 | collects the channels of the user, then leaves them one by one |
| Commands.CommandHandler.GetOrCreateChannel | src/commands/command_handler.cpp:95-105 | the channel of that name, created on demand |
| Commands.CommandHandler.IsAbuser | src/commands/command_handler.cpp:808-831 | the ban check; a ban that has run out is forgotten on the way |
| Commands.CommandHandler.TrackAbuse | src/commands/command_handler.cpp:774-806 | one violation: windows that have passed start over, the fifth violation bans |
| Commands.CommandHandler.CleanupOldAbuseRecords | src/commands/command_handler.cpp:833-858 | erasing while walking over the records leaves exactly the records that are not stale, in whatever order they are walked |
| CommandRuns.RunKeepsWorld | src/commands/command_handler.cpp:95-193 | in every run: no member is banned, operators and voiced users are members or banned, every channel is filed under its own name, which is "#" and valid characters, and every nickname entry is mirrored by its user |
| ChannelEffects.HandledIff | src/commands/command_handler.cpp:55-93 | a command changes the world, and is answered, by what it does exactly if the gate lets it pass |
| ChannelEffects.UnknownIff | src/commands/command_handler.cpp:34-52 | a word is no command exactly if it is not, in any case, one of nineteen words |
| ChannelEffects.WordsForComingAndGoing | src/commands/command_handler.cpp:34-52 | the words for joining, parting (two of them) and quitting |
| ChannelEffects.WordsForOperators | src/commands/command_handler.cpp:34-52 | the words kick, ban and invite |
| ChannelEffects.WordsForModes | src/commands/command_handler.cpp:34-52 | the words set, mode and nick |
| ChannelEffects.JoinEffect | src/commands/command_handler.cpp:107-159 | a join is carried out exactly if the name is valid and an existing channel bans the user not and is open or has invited the user; the user is then a member, and an operator if nobody else is in; a new channel has the user as only member and operator; nothing else changes |
| ChannelEffects.PartEffect | src/commands/command_handler.cpp:161-193 | a part is carried out exactly for a member; the user is then in none of the three sets, the channel is gone exactly if nobody else was in it, and nothing else changes |
| ChannelEffects.QuitEffect | src/commands/command_handler.cpp:710-732 | a quit takes the user out of every channel, destroys exactly those with nobody else, and leaves the rest |
| ChannelEffects.KickEffect | src/commands/command_handler.cpp:324-377 | a kick is carried out exactly if the caller is an operator and the name stands for a member, who is then in none of the three sets; nothing else changes, and a refused kick changes nothing |
| ChannelEffects.BanEffect | src/commands/command_handler.cpp:379-409 | a ban is carried out exactly if the caller is an operator; the target is then banned and no member, and nothing else changes |
| ChannelEffects.InviteEffect | src/commands/command_handler.cpp:411-447 | an invitation is carried out exactly if the caller is an operator; the target is then on the list, and nothing else changes |
| ChannelEffects.SetEffect | src/commands/command_handler.cpp:449-484 | an option is set exactly if the caller is an operator and it is one of three; it is then on exactly for three values, and nothing else changes |
| ChannelEffects.ModeDoneIff | src/commands/command_handler.cpp:486-532 | a mode is changed exactly if the caller is an operator, the name stands for a member and the mode is one of four |
| ChannelEffects.ModeEffect | src/commands/command_handler.cpp:500-525 | and then exactly one bit of that member is set or cleared |
| ChannelEffects.NickEffect | src/commands/command_handler.cpp:195-232 | a nick is taken exactly if it is free or the own one; the entry under the former nick, or else under the own id, is gone, and nothing else changes |
| ChannelEffects.NoSuchChannelIff | src/commands/command_handler.cpp:161-532 | which requests are told that there is no such channel |
| ChannelEffects.NotOperatorIff | src/commands/command_handler.cpp:161-532 | which requests about a channel are told that the caller is no operator, or no member |
| ChannelEffects.OperatorIsToldIff | src/commands/command_handler.cpp:324-532 | what an operator is told exactly when: no such user, not in the channel, unknown option, unknown mode |
| ChannelEffects.RefusedJoinIff | src/commands/command_handler.cpp:107-146 | a join is told of an invalid name, a ban or a missing invitation exactly when |
| Channels.ActKeepsGood | src/commands/command_handler.cpp:324-532 | every single command keeps these channel invariants |
| CommandRuns.StepMovesMembers | src/commands/command_handler.cpp:137-193 | a step puts only its caller, and only by a join, into a member set, and takes somebody else out only if the caller is then an operator of that channel |
| Channels.ActMakesOperator | src/commands/command_handler.cpp:137-152 | the only ways to become an operator: being alone in the channel after a join, or a "+o" by an operator to a member |
| CommandRuns.OperatorProvenance | src/commands/command_handler.cpp:500-525 | in every run each operator bit held at the end traces back, through a finite chain of strictly earlier "+o" grants by users who were operators at every point from getting the bit until granting it, to a join that left the joiner the only member; and its holder has had it at every point since |
| Channels.OperatorsAreMembersIff | src/commands/command_handler.cpp:395-406 | if in every channel the operators are members, a command keeps it so exactly if it is not a ban of an operator by an operator |
| ChannelRuns.OperatorsAreMembersInRuns | src/commands/command_handler.cpp:395-406 | in every run in which no such ban has been carried out before the last step, operators are members at the end exactly if the last step does not carry one out |
| ChannelRuns.BannedOperatorRun | src/commands/command_handler.cpp:395-406 | a concrete run (join, join, +o, ban) with an operator who is no member |
| Channels.BannedOperatorIsForever | src/commands/command_handler.cpp:395-406 | nobody can take the operator bit from a banned operator as long as the channel exists |
| ChannelRuns.EntryThroughDoor | src/commands/command_handler.cpp:137-152 | whoever is a member at the end of a run and was none at its beginning came in by a join of their own, at a time when the channel was new, or they were not banned and, in an invite-only channel, invited or an operator |
| ChannelRules.GrantedJoin | src/commands/command_handler.cpp:147-152 | who is a member and who an operator after a join |
| ChannelRuns.QuitLasts | src/commands/command_handler.cpp:710-732 | whoever has quit is in no member set at any later point of any run until joining again |
| ChannelRuns.BannedForGood | src/commands/command_handler.cpp:379-409 | over whole runs: whoever is banned is not a member at any later point, and keeps the operator bit if there was one, for as long as the channel exists |
| ChannelRuns.InvitationLasts | src/commands/command_handler.cpp:411-447 | over whole runs: whoever has been invited may enter at any later point of the life of the channel, invite-only or not, exactly if not banned by then |
| ChannelRuns.SettingsAreGoverned | src/commands/command_handler.cpp:324-532 | if a channel that lives through a run has other bans, invitations or options at its end, some step in between was taken by a user who was then an operator |
| ChannelRuns.PlacesAreGoverned | src/commands/command_handler.cpp:324-532 | and if a user is a member, operator or voiced at one end of the run only, some step was taken by that user or by a then-operator |
| ChannelRules.BanIsForever | src/commands/command_handler.cpp:379-409 | no command lifts a ban; it shuts the door as long as the channel exists |
| Channels.NicksAreInjective | src/commands/command_handler.cpp:195-214 | no user owns two nickname entries |
| Channels.NicksMirroredIff | src/commands/command_handler.cpp:195-214 | a command breaks the mirror image of the two nickname tables in exactly one case: a user without a nickname takes a free one while somebody else goes by that user's id |
| ChannelRuns.ErasedNickRun | src/commands/command_handler.cpp:195-214 | a concrete run of two nick commands after which the tables differ |
| CommandRuns.NicksMirroredInRunsIff | src/commands/command_handler.cpp:195-214 | in every run in which no such request has been carried out before the last step, the tables mirror one another at the end exactly if the last step carries out none |
| CommandRuns.NicksMirroredInRuns | src/commands/command_handler.cpp:195-214 | in particular they do in every run in which no request for another user's id as nickname is carried out |
| Registries.InverseUnderInterleaving | src/net/listener.cpp:196-247 | under all interleavings of the critical sections the two session maps stay inverse |
| Registries.RegisterInverseIff | src/net/listener.cpp:196-217 | registering keeps them inverse exactly if the session is not registered for somebody else |
| Registries.UnregisterKeepsInverse | src/net/listener.cpp:231-247 | unregistering keeps the maps inverse, leaves the session unregistered, and every user of another session registered |
| Registries.RegisterDistinctIff | src/net/listener.cpp:196-217 | registering keeps online ids distinct after case folding exactly if nobody else online clashes |
| Registries.DistinctWhenAtomic | src/net/session.cpp:436-456 | if check and registration are atomic, online ids are pairwise distinct after case folding |
| Registries.RaceBreaksDistinctness | src/net/session.cpp:436-456 | if they are not, two ids that differ in case only can be online together: a concrete schedule |
| Registries.AvailabilityIgnoresCase | src/net/listener.cpp:310-330 | availability depends on the nicknames only up to case |
| Registries.TakenOrOwn | src/net/listener.cpp:310-330 | a nickname that an online user has in any case is taken for everybody else and free for that user |
| Registries.RegisteredAfter | src/net/listener.cpp:196-217 | after a registration the user has the session and the session the user, a session the user had before is out, and nobody else is touched |
| Registries.UnregisteredAfter | src/net/listener.cpp:231-247 | after an unregistration the session and its user are out, and nobody else is touched |
| Presences.Listener.FindSession | src/net/listener.cpp:288-295 | the session of a user, if any |
| Presences.Listener.FindSessionByNickname | src/net/listener.cpp:297-308 | null exactly if the nickname is available; otherwise the session of a user who has it |
| Presences.Listener.IsNicknameAvailable | src/net/listener.cpp:310-330 | available exactly if no online user other than the excluded one folds to the same nickname |
| Presences.Listener.OnSessionAuthenticated | src/net/listener.cpp:196-229 | replacement, registration, and the snapshot of the established users, in whatever order they are walked |
| Presences.Listener.CompleteAuthentication | src/net/session.cpp:567-615 | registration, snapshot to the newcomer, ONLINE to everybody else |
| Presences.Listener.OnSessionDisconnected | src/net/listener.cpp:231-255 | a registered session is unregistered and OFFLINE sent; any other report changes nothing |
| Presences.Listener.SendPresenceSnapshot | src/net/listener.cpp:347-371 | one ONLINE update per listed user |
| Presences.Listener.Broadcast | src/net/listener.cpp:263-286 | the update goes to every registered session but the excluded one, once |
| Presences.PresenceAgreement | src/net/listener.cpp:196-286 | in every run of authentications, disconnect reports and deaths, the replay of what a registered session was sent contains every registered user with an established session and only registered users |
| Presences.ViewsExactWhenAlive | src/net/listener.cpp:209-213 | if all registered sessions are established, every view is exactly the registry |
| Presences.ReplacementSupersedes | src/net/listener.cpp:203-211 | a replaced session is no longer registered |
| Presences.LateReportIsSilent | src/net/listener.cpp:231-255 | a report of a superseded session, however late, unregisters nobody and sends nothing |
| Presences.GoneEffect | src/net/listener.cpp:231-255 | in every run, a report of a registered session takes it and its user out of the registry and leaves every other pair; every session still registered is sent exactly one OFFLINE of that user and sees the user no more; no other inbox changes |
| Presences.AuthenticatedRegisters | src/net/session.cpp:567-615 | in every run, an authentication registers the user under the session, takes the session the user had before out, and leaves every other pair |
| Presences.AuthenticatedTells | src/net/session.cpp:567-615 | and sends the newcomer one ONLINE for each established user and everybody else registered one ONLINE for the newcomer, nobody anything else |
| Presences.DiedEffect | src/net/session.cpp:1134-1140 | the death of a session changes neither the registry nor any inbox |
| Offline.OfflineStore.SaveMessage | src/db/offline_store.cpp:20-78 | refused at the cap of the recipient; at the global limit the oldest row goes; one row is appended |
| Offline.OfflineStore.FetchAndDelete | src/db/offline_store.cpp:80-117 | hands out the live rows of the user in order and deletes all rows of the user |
| Offline.OfflineStore.Cleanup | src/db/offline_store.cpp:119-136 | drops the expired rows and counts them |
| Offline.OfflineStore.GetPendingCount | src/db/offline_store.cpp:138-151 | counts the live rows of the user |
| Offline.QueueStep | src/db/offline_store.cpp:20-136 | the table refines one queue per recipient: a save appends to one queue, after at most the head of one queue was evicted; a fetch empties one queue; a cleanup thins all; nothing else happens |
| Offline.FetchedIff | src/db/offline_store.cpp:80-117 | a fetch hands out exactly the rows of the user that have not expired, leaves exactly the rows of everybody else, and hands out as many rows as the pending count says |
| Offline.RunIsBoundedAndOrdered | src/db/offline_store.hpp:40-42 | in every run at most 100 rows for each recipient and 100000 in all, with ids and expiry times ordered alike |
| Offline.CleanupDropsPrefix | src/db/offline_store.cpp:119-136 | so a cleanup drops a prefix of the table |
| Offline.CleanupUnobservable | src/db/offline_store.cpp:80-151 | a cleanup changes no later fetch and no later count, as long as nothing is saved |
| Offline.ExpiredRowsBlockSave | src/db/offline_store.cpp:20-46 | a concrete run: a hundred saves, and after they have expired one more, which is refused, or accepted after a cleanup |
| Offline.SaveSeesCleanup | src/db/offline_store.cpp:20-46 | a save can tell: the outcome differs exactly if expired rows fill the cap |
| Deliveries.Relay.HandleChat | src/net/session.cpp:628-677 | sender check, channel fan-out, direct delivery or storage |
| Deliveries.Relay.RouteTo | src/net/session.cpp:658-676 | to the session if there is one, to the table otherwise |
| Deliveries.Relay.Broadcast | src/net/listener.cpp:263-286 | channel chat goes to every session but the sender's and is not stored |
| Deliveries.Relay.BroadcastToChannel | src/commands/command_handler.cpp:589-617 | the members of the channel in some order, online or stored, the excluded session left out |
| Deliveries.Relay.CompleteAuthentication | src/net/session.cpp:587-608 | registration, then delivery of what is stored, in order |
| Deliveries.Relay.CleanupExpired | src/db/offline_store.cpp:119-136 | the expired rows are accounted for |
| Deliveries.EndToEndFifo | src/net/session.cpp:567-676 | in every run with a clock that does not run backwards, for every user: what was handed to the user's sessions, followed by what is pending, is what was accepted for the user in order of acceptance, minus exactly what expired or was evicted; nothing is pending for an online user |
| Deliveries.ExactlyOneFate | src/db/offline_store.cpp:20-136 | every accepted row is accepted once and is exactly one of pending, delivered, expired, evicted |
| Deliveries.ChatAcceptance | src/net/session.cpp:628-677 | which chat envelopes are accepted, for whom, and that a refused one changes nothing |
| Deliveries.RunIsGood | src/net/session.cpp:587-608 | the inductive core: registered implies no pending rows |
| DeliveryRuns.ArrivalRegisters | src/net/listener.cpp:196-217 | after every run that ends in an authentication the user is online under that session, and everybody else under the one before |
| DeliveryRuns.LeavingUnregisters | src/net/listener.cpp:231-247 | a report of a registered session takes exactly it and its user out, and touches neither table nor what was handed over |
| DeliveryRuns.StaysOnline | src/net/listener.cpp:196-247 | through every later run without a report of that session and without another arrival of either, the user is online under it |
| DeliveryRuns.StaysRegistered | src/net/listener.cpp:196-247 | and the session is registered for the user, if it was nobody else's before |
| DeliveryRuns.OnlineDelivery | src/net/session.cpp:658-676 | all that time every accepted direct message to the user is handed over at once, as exactly one more envelope for this user and none for anybody else, and the table is left alone |
| DeliveryRuns.OfflineStorage | src/db/offline_store.cpp:20-78 | a direct message to an offline user becomes the last row, to expire after 604800 seconds, unless 100 rows of the user are there; only the first of 100000 rows goes; nobody is handed anything |
| DeliveryRuns.ArrivalDelivers | src/net/session.cpp:587-608 | an authentication hands over exactly the live rows of the user in order and empties the queue of the user; everybody else keeps everything |
| DeliveryRuns.PurgeEffect | src/db/offline_store.cpp:119-136 | a cleanup takes away exactly the expired rows and hands nothing over |
| DeliveryRuns.NoticeReaches | src/commands/command_handler.cpp:589-617 | a channel notice reaches each member once: who is online is handed it, but for the excluded session, and for who is offline it is stored if there is room |
| DeliveryRuns.NoticeSparesOthers | src/commands/command_handler.cpp:589-617 | and nobody who is no member |
| DeliveryRuns.ChatRefusedIff | src/net/session.cpp:628-677 | a chat envelope is refused for a false sender, no recipient, or a full queue exactly when |
| VoiceRooms.VoiceRoomManager.JoinRoom | src/voice/voice_room_manager.cpp:10-59 | leaves the present room, checks the capacity, tells the room |
| VoiceRooms.VoiceRoomManager.LeaveRoom | src/voice/voice_room_manager.cpp:61-83 | only from a room the user is in; an emptied room is dropped |
| VoiceRooms.VoiceRoomManager.OnDisconnect | src/voice/voice_room_manager.cpp:85-108 | from whatever room the user is in |
| VoiceRooms.VoiceRoomManager.Participants | src/voice/voice_room_manager.cpp:110-116 | the users whose room it is |
| VoiceRooms.VoiceRoomManager.IsInVoice | src/voice/voice_room_manager.cpp:118-121 | whether the user is in some room |
| VoiceRooms.RunIndexed | src/voice/voice_room_manager.cpp:10-108 | in every run the room index and its inverse agree exactly, no room is empty and none has more than 8 users |
| VoiceRooms.JoinSucceedsIff | src/voice/voice_room_manager.cpp:10-59 | a join succeeds exactly if fewer than 8 others are in the room; a failed join leaves the user in no room |
| VoiceRooms.ViewStepIff | src/voice/voice_room_manager.cpp:10-133 | a client that shows the room of its user, or the last one when in none, goes on doing so exactly if its user does not miss the step: is left in a room that is not as last shown, and cannot be reached |
| VoiceRooms.VoiceViewAgreement | src/voice/voice_room_manager.cpp:10-133 | in every run in which a user has missed nothing before the last step, replaying STATE, JOIN and LEAVE yields exactly the room the user is in, exactly if the user does not miss the last step; others may come and go, reachable or not |
| VoiceRooms.JoinHeals | src/voice/voice_room_manager.cpp:42-57 | a join by a user who can be reached sets the view right, whatever was missed before |
| VoiceRooms.VoiceViewAfterJoin | src/voice/voice_room_manager.cpp:10-133 | so the view is right in every run from such a join on in which nothing is missed |
| VoiceRooms.UnreachedJoin | src/voice/voice_room_manager.cpp:10-133 | a concrete run: a user joins while nobody can find them, is in the room, and sees nothing |
| VoiceRooms.JoinEffect | src/voice/voice_room_manager.cpp:10-59 | a join takes the user out of the present room, as a disconnect does, and then, exactly if fewer than eight others are there, into the new one: the user is told who is there, the others who can be reached are told of the user, nobody else anything |
| VoiceRooms.LeaveEffect | src/voice/voice_room_manager.cpp:61-83 | leaving the room one is in takes exactly this user out of exactly this room, and each remaining peer who can be reached is sent exactly one LEAVE; leaving any other room changes nothing |
| VoiceRooms.DisconnectEffect | src/voice/voice_room_manager.cpp:85-108 | a disconnect does so in whatever room the user is |
| VoiceSessions.PresentIff | src/net/listener.cpp:231-261 | if everybody in a voice room is registered, an event keeps it so exactly if it is not a granted join from a session that has been reported gone |
| VoiceSessions.RegisteredVoiceViews | src/net/listener.cpp:231-261 | registry and voice rooms together: in every run without such a join everybody in a room is registered, so can be reached, and has the room as view; nothing about reachability is assumed |
| VoiceSessions.ReportEffect | src/net/listener.cpp:231-261 | in every reachable state, a report of a registered session takes its user out of the registry and out of whatever voice room, and tells exactly those who remain there |
| VoiceSessions.GhostInRoom | src/net/listener.cpp:231-261 | a concrete run with such a join: the user is in a room, not registered, and sees nothing |
| VoiceRooms.VoiceViewAgreementFromStart | src/voice/voice_room_manager.cpp:10-133 | in particular in every run from the start of the server in which the user misses nothing |
| FileTransfers.FileServer.RequestUpload | src/net/session.cpp:787-853 | the checks, the file row, and the upload state, which keeps its old bits |
| FileTransfers.FileServer.ReceiveChunk | src/net/session.cpp:855-982 | limiter, upload, index and table checks, then bit and byte count; at the last chunk assembly, scan and completion or deletion |
| FileTransfers.FileServer.Download | src/net/session.cpp:984-1035 | chunk after chunk from the requested one until one is missing |
| FileTransfers.Assemble | src/net/session.cpp:913-926 | the loop joins the chunks that exist in the order of their indices |
| FileEffects.RequestEffect | src/net/session.cpp:787-853 | a request is accepted exactly for 1 to 104857600 bytes and a new id; then there is an empty file that expires after 604800 seconds and an upload with ceil(size / chunk) bits; nothing else changes, and a refused one changes nothing |
| FileEffects.ChunkEffect | src/net/session.cpp:855-982 | a chunk is refused for the first of four reasons, or stored, its bit set and its bytes counted; every other file, upload, row and bit stays |
| FileEffects.LastChunkEffect | src/net/session.cpp:908-975 | the marked chunk ends the upload: a threat takes the file away, otherwise the file is complete and the answer is the byte count with this chunk |
| FileEffects.DownloadEffect | src/net/session.cpp:984-1035 | a download sends the rows of the table from the one asked for on, one after the other, up to exactly the first that is missing or the number of 64 KB chunks, with the mark on the final one only |
| FileEffects.CloseEffect | src/net/session.hpp:136-146 | a closed session takes its own uploads with it and nothing else |
| FileEffects.CleanupEffect | src/db/file_store.cpp:320-338 | a cleanup takes away exactly the files whose deadline has come, and no upload |
| FileTransfers.GetMissingChunks | src/db/file_store.cpp:274-300 | the rows are marked in whatever order they come; the result is the list of specification |
| FileTransfers.GetReceivedBytes | src/db/file_store.cpp:302-318 | the sum over the rows in whatever order they come |
| FileTransfers.MissingIsExact | src/db/file_store.cpp:274-300 | the missing chunks are every index without a row, once, in increasing order |
| FileTransfers.TotalChunksInRange | src/net/session.cpp:836-837 | the number of chunks of an accepted file is ceil(size / chunk) and lies in 1..104857600, so no cast truncates |
| FileTransfers.UploadAgreement | src/net/session.cpp:881-906 | in every run of all sessions in which the cleanup does not drop the file while it is being uploaded: one session at most uploads it, its bits agree with the rows, and the bytes counted are the bytes in the table and those overwritten by re-sends |
| FileTransfers.SoundIff | src/net/session.cpp:881-906 | an index that agrees with the table goes on agreeing through every event but one: a cleanup that drops the file under an open upload |
| FileTransfers.MissingChunksAreUnsetBits | src/db/file_store.cpp:274-300 | then the missing chunks are exactly the unset bits, in increasing order |
| FileTransfers.RequestAgreesIff | src/net/session.cpp:831-839 | an accepted request starts in agreement with the table exactly if no left-over upload of the session has a bit set |
| FileTransfers.StaleBits | src/net/session.cpp:831-839 | a concrete run in which it does not |
| FileTransfers.ReassemblyInvertsChunking | src/net/session.cpp:893-930 | for every chunk size: if every slice of a file is sent, in any order and any number of times, the last one marked as such, with anything else going on in between, chunks turned down by the limiter included, what is assembled is the file, and the table holds exactly its slices |
| FileTransfers.DownloadInOrder | src/net/session.cpp:998-1031 | for chunks of 65536 bytes a download from index k gives exactly the bytes from k * 65536 on, in order, with is_last on the final chunk only |
| FileTransfers.RestLasts | src/db/file_store.cpp:320-338 | a complete file that nobody is uploading stays as it is through every run, whatever sessions do, until a cleanup at or after its deadline |
| FileTransfers.UploadThenDownload | src/net/session.cpp:893-1031 | end to end: slices of 64 KB uploaded in any order, then any run up to the deadline, then a download from index k, which gives exactly the bytes from there on |
| FileTransfers.SmallChunksCutDownload | src/net/session.cpp:998-1031 | a concrete run: two bytes in chunks of one, of which the download gives only the first, marked as the last |
| FileTransfers.DownloadWholeIff | src/net/session.cpp:998-1031 | for any other chunk size a download of the whole file succeeds and gives the file exactly if ceil(size / chunk) equals ceil(size / 65536) |
| KeyStores.UserStore.HandleAuth | src/net/session.cpp:486-565 | registration, verification, backfill of a password, recovery by password, and the refusals |
| KeyStores.UserStore.HandleKeyUpload | src/net/session.cpp:727-746 | the signed prekey is replaced, the one-time prekeys are appended one by one up to the first empty one, which ends the upload |
| KeyStores.UserStore.HandleKeyRequest | src/net/session.cpp:748-785 | the bundle, with one unused prekey marked used |
| KeyStores.UserStore.ConsumeOpk | src/db/user_store.cpp:162-187 | some unused row of the user is marked used; none is found only if there is none |
| KeyStores.IdentityChangesOnlyByPassword | src/net/session.cpp:521-539 | a known user's identity key changes only when that user authenticates with the password on file, and then none of the old prekeys is left |
| KeyStores.PasswordChangesOnlyByPassword | src/db/user_store.cpp:269-280 | a password, once set, changes only when a session of its user gives the old one |
| KeyStores.RunInEpoch | src/db/user_store.cpp:77-187 | in every run every stored prekey was stored no earlier than its user's last identity change |
| KeyStores.ServedBundleInEpoch | src/net/session.cpp:748-785 | so a served bundle never mixes epochs |
| KeyStores.OneTimeKeysConserved | src/db/user_store.cpp:153-187 | in every run each one-time prekey is served at most once and never after it was cleared, and stored = unused + served + cleared unused |
| KeyStores.AuthAccounted | src/db/user_store.cpp:99-113 | clearing the keys of a user moves exactly the unused ones among them to the cleared, so every id ever assigned stays in exactly one of unused, served, cleared |
| KeyStores.UploadAccounted | src/db/user_store.cpp:153-160 | the rows of an upload get ids never assigned before, all unused, so the accounts stay exact |
| KeyStores.UploadGenuineIff | src/net/session.cpp:727-746 | if every stored prekey comes from a session that proved to hold its user's present identity key, then it is so after an upload exactly if the upload stores nothing or its session proved to hold that key |
| KeyStores.GenuineInRunsIff | src/net/session.cpp:727-746 | in every run in which no session has stored keys of another than its user's present identity before the last step, no such key is stored at the end exactly if the last step stores none |
| KeyStores.OthersKeepGenuine | src/net/session.cpp:486-565 | every other step keeps that |
| KeyStores.StaleSessionUpload | src/net/session.cpp:727-746 | a concrete run in which every login finds the nickname free: a session is reported gone but stays open, its user resets the key, and the old session uploads a prekey made for the old key |
| KeyRuns.TablesHoldAccounts | src/net/session.cpp:486-565 | in every run the tables hold for every user exactly the account that the requests add up to: the identity key, the password, and the signed prekey of the last registration, recovery or upload that set one since the identity was set |
| KeyRuns.RowsAreStored | src/db/user_store.cpp:153-160 | and every row of a one-time prekey holds the key that was stored under that number, for the user whose session stored it |
| KeyRuns.ServedAsUploaded | src/net/session.cpp:748-785 | round trip: a bundle carries exactly the identity key and the signed prekey of the account, with key and signature as they came, and as one-time prekey exactly the one that was stored under the number found, if it is not empty |
| KeyRuns.RequestEffect | src/db/user_store.cpp:162-187 | a request marks the found row as used and changes nothing else |
| KeyRuns.VerdictTells | src/net/session.cpp:486-565 | which of the six outcomes an authentication has, told from the account |
| KeyRuns.PasswordUpdateIff | src/db/user_store.cpp:269-280 | a password is replaced exactly if the one on file is given |
| Framing.BigEndian | src/net/session.cpp:1043-1046 | the 4-byte header reads back as the length |
| Framing.FrameReader.Fill | src/net/session.cpp:116-178 | filling a buffer and acting on it when it is full equals reading byte by byte |
| Framing.FrameReader.Receive | src/net/session.cpp:116-178 | and so does reading buffer after buffer |
| Framing.SplitIrrelevant | src/net/session.cpp:116-178 | however the stream is cut up, the same frames are recovered |
| Framing.FramingRoundTrip | src/net/session.cpp:1037-1046 | for payloads of 1..65536 bytes the reader recovers exactly the list of payloads from their frames |
| Framing.PrefixYieldsCompleteFrames | src/net/session.cpp:116-178 | any prefix of the stream yields exactly its complete frames |
| Framing.StopsAtBadLength | src/net/session.cpp:136-150 | the reader stops for good at the first length that is 0 or above the limit |

## Left out

- Boost.Asio, TLS, sockets, timers, threads and signals: steps and clock arguments stand for them.
- Protobuf, SQLite, libsodium and Argon2id: serialization is taken to be a round trip, tables are sequences or maps,
  signatures are taken to have been checked, a stored password is compared as such; failures of the database are
  ignored, except that a chunk needs its file row and an empty chunk violates the NOT NULL constraint on its data.
- Interleavings inside a handler, for presence and delivery: the code releases its lock before it broadcasts.
- Reading the clock more than once in a handler.
- The order in which maps are walked is arbitrary in the model; the order of the query for one unused prekey as well.
- `active_connections_`, which a repeated disconnect report decrements again.
- `cleanup_dead_sessions` and `shutdown`, which drop registry entries without OFFLINE updates.
- `join_channel`, which has no caller and skips the ban check.
- A claim that no channel is empty: kicking or banning the last member leaves an empty channel.
- The commands whois, me, topic, msg, password and resetdb in the channel model; they are accepted and do nothing.
  The effect of password is a step of the key model. What resetdb deletes, users, prekeys and offline messages, is no
  part of the key and delivery models either: their runs are runs without it.
- Topics, notices, user lists, texts of replies, and nickname suggestions.
- Per-file encryption at rest.
- Completeness of a file marked complete: the code does not check it.
- The limit on frame sizes, in the file-transfer model: transfer is modelled at the level of the handlers.
- Checksums, MIME types, recipients and listings of files; all sessions share one map of uploads, keyed by session.
- The scanner: its verdict is an argument, and what it was given is part of the outcome.
- The per-session message limiter in file upload: its verdict is an argument.
- Limits on connections and on new sessions per address, pings, voice signals and other presence states.
- The validity and reservation rules for user ids.
- Whether a session that was sent something received it.
- Commands.CommandHandler.CmdQuit: does not model that the session of the user is disconnected, because sessions are no part of the channel model.
- Presences.Listener.OnSessionAuthenticated: the disconnection of a replaced session is not part of it, because the code only posts a task that sets the session to Dead later; the step `Died` models that task.
- Presences.Listener.OnSessionDisconnected: the removal from the voice rooms that follows is not part of it; it is modelled, with the registry, in `VoiceSessions.dfy`.
- VoiceRooms.VoiceViewAgreement: messages are kept per user, so a session that replaces another of the same user is taken to know what that one was sent.
- Deliveries.Relay.HandleChat: does not model that a sender who claims another id is disconnected; the reply tells the case, and `LeaveStep` models the report that follows.
- Deliveries.EndToEndFifo: says nothing about stored payloads that the server cannot parse again when it delivers them, because serialization is taken to be a round trip.
- KeyStores.RunInEpoch: sessions stay logged in for ever, and logins are not refused for a nickname in use, because this only adds runs.
- The directory client, the HTTP API, the terminal interface and its commands, configuration, and server ownership.
