# Deft: verified models of its concurrent and transactional cores

This project models, and proves properties of, five parts of Deft:

1. **Huddles and realtime access** (`HuddleModel`, `HuddleRooms`, `Presence`, `Realtime*`). The in-memory
   huddle rooms, the presence maps, and the Socket.IO handlers that drive them. Node runs one piece of
   JavaScript at a time, so the protocol is a transition system (`Realtime`) whose steps are what runs between
   two `await`s, with every other handler, eviction, timer, disconnect and database change free to run in
   between. The design claim is that one global generation counter is enough: a stale authorization either
   acts before an eviction scans the rooms and is evicted, or sees the new generation and rolls back.
   `RealtimeTheorems` proves this for every run, for the seats in huddles and for the sockets in rooms, and says
   exactly what is left when a revocation is committed without an eviction. `RealtimeServer` is the imperative
   form of the eviction, of `huddle:create` and of `huddle:join`: whatever runs at their awaits, what they do is a
   run of that system.
   `RealtimeSteps` says what each kind of step does to seats, sockets, access and evictions.
   `HuddleRooms` is `huddle-rooms.ts` as a class with its loops, proved against the value functions of
   `HuddleModel` that the transition system uses.
2. **Vendoring modules** (`Ordering`, `Text`, `Semver`, `ModuleLock`, `ModuleFormats`, `SourceRepository`,
   `VendoredModules`, `Vendoring*`, `VendorModule`). The vendor lock, the two-file commit, the verifier and the
   version order.
   `Vendoring` is a transition system of any number of vendor processes whose every file-system call may succeed,
   throw or be the last thing its process does, with an operator who may delete a stale vendor lock or restore the
   last version.
   `VendorModule` is `vendorModule` in the program's order, with its `finally` blocks, and refines that system.
3. **Canonical app data JSON** (`CodeUnits`, `ArrayIndex`, `AppDataJson`, `JsonText`, `JsonForm`). The recursive
   `visit` with its shared node counter, JavaScript's listing order of object keys, `JSON.stringify`, and a reader
   that inverts it; of all legal texts of a string the one written is the shortest.
4. **The self-host upgrade** (`UpgradeArgs`, `Upgrade`). Both argument parsers, the arguments one prints for the
   other, the plan, and running it with recovery.
5. **Mentions** (`Mentions`). Splitting a message into code and plain text and rewriting `@Firstname`.

## What was found

- **Some revocations are not followed by an eviction**, and then nothing takes the user out. Deleting an agent
  conversation archives any space its requester is a member of (`apps/api/src/routes/agent.ts:1033-1056`), removing
  an agent employee deactivates a membership (`apps/api/src/routes/agent-employees.ts:2450-2454`), and a role update
  that compares with a role read before another update skips its eviction
  (`apps/api/src/routes/members.ts:1373-1402`). With nothing under way a participant can then be in a huddle, and a
  socket in a space's or the members-only room, that the database no longer allows, and a handler that read access
  before the archiving completes after it (`RealtimeSilent`). With no eviction outstanding every participant, and
  with no handshake or `space:join` under way either every socket, is allowed where it is exactly if no such change
  took that away (`RealtimeTheorems.QuiescentParticipantsAuthorized`, `RealtimeTheorems.QuiescentSocketsAllowed`);
  without such changes all are (`RealtimeTheorems.ToldParticipantsAuthorized`,
  `RealtimeTheorems.ToldSocketsAllowed`).
- **Vendoring can leave a tree that does not verify.** A successful `vendorModule` reaches a verifying tree
  exactly when three guards hold that readers enforce and the writer does not: the source repository is a fixed
  point of `validateSourceRepository`, the pretty-printed manifest is at most 128 KiB, and the new lock at most
  1 MiB (`VendoringSuccess.SuccessVerifies`). The first fails exactly for paths that end, trailing slashes aside, in
  `.git` after a slash, after another `.git`, or after a dot segment, which the URL parser resolves only once the
  `.git` is gone (`SourceRepository.CanonicalAgain`): `/a/.git`, `/a/b.git.git`, `/a/..git`, `/a/%2e.git`.
  From an empty tree such a request succeeds and the tree never verifies (`VendorModule.Vendor.VendorFirst`).
- **A failed write of the staged manifest blocks vendoring.** `replaceVendoredPair` removes what it staged only once
  both files have names, so a write that fails leaves its own temporary file, and nothing else
  (`VendorModule.Vendor.VendorModule`, `VendorModule.FailedWriteStays`). The manifest's lies in the module's folder,
  where verification allows the manifest only: the vendor lock is free, but until somebody removes the file no tree
  verifies and no `vendorModule` succeeds (`VendorModule.FailedManifestWriteBlocks`).
- **A release upgrade backs up with different Compose files.** `backupArgs` does not pass `--release` on, so the
  backup's Compose files equal the upgrade's exactly when the upgrade is not a release upgrade
  (`UpgradeArgs.SameComposeProject`).
- **Presence per organization.** A user's first-socket and last-socket broadcasts alternate, but with sockets in
  two organizations one of them may hear a coming without the going (`Presence.TwoOrgsDisagree`); an organization
  hears all of them exactly when all were addressed to it (`Presence.SeesAllIffOneOrg`). The last broadcast of a user
  is their status, but that a new socket ends idleness without a word (`Presence.IdleEndsUnheard`), and in no other
  way on any run (`RealtimeTheorems.PresenceSound`).

## Assumptions

UUIDs are fresh; emits and `socket.leave` do not throw. Each change to the database is a grant, a revocation whose
eviction comes later (`apps/api/src/routes/spaces.ts:545-563`, `apps/api/src/routes/members.ts:105-134`), or one of
the revocations without an eviction named above; nothing is assumed about when an eviction comes. The bookkeeping
`toldArchived` and `toldRoles` tells the kinds apart. Git ancestry is a fixed relation, transitive where a lemma
says so. A manifest is taken up to the canonical form its digest is taken over, so reading back a pretty-printed
manifest gives the same manifest; digests have the schema's format. A number stands for its JSON text, which tells
finite numbers apart except 0 and -0. Unicode character classes and case folding are parameters.

## Model

| member | source | states |
|---|---|---|
| HuddleRooms.HuddleRooms.CreateRoom | apps/api/src/huddle-rooms.ts:96-107 | the new room is last in the map, under its id, with no participants; all else stands |
| HuddleRooms.HuddleRooms.ReserveRoom | apps/api/src/huddle-rooms.ts:109-118 | an existing room of the space is returned; otherwise one is created |
| HuddleRooms.HuddleRooms.GetRoomBySpace | apps/api/src/huddle-rooms.ts:124-129 | the loop finds the first room of that space and organization, or none exists |
| HuddleRooms.HuddleRooms.AddParticipant | apps/api/src/huddle-rooms.ts:131-143 | refused for a missing room or another socket; otherwise this record is set, every other seat in every room stands as it was, and the room's timer is cleared |
| HuddleRooms.HuddleRooms.GetParticipantSocketId | apps/api/src/huddle-rooms.ts:150-152 | the participant's socket, if there |
| HuddleRooms.HuddleRooms.RemoveParticipant | apps/api/src/huddle-rooms.ts:159-172 | removes that user on that socket only, and reports removal and emptiness |
| HuddleRooms.HuddleRooms.SetMuted | apps/api/src/huddle-rooms.ts:174-179 | changes one flag, only for that user on that socket |
| HuddleRooms.HuddleRooms.DestroyRoom | apps/api/src/huddle-rooms.ts:181-185 | the room and its pending timeout are gone, all else stands |
| HuddleRooms.HuddleRooms.SetGraceTimer | apps/api/src/huddle-rooms.ts:187-192 | the room's old timeout is cancelled and a new one armed for it |
| HuddleRooms.HuddleRooms.FireTimer | apps/api/src/socket.ts:784-791 | a timeout that runs destroys the room it was armed for |
| HuddleRooms.HuddleRooms.GetParticipantList | apps/api/src/huddle-rooms.ts:194-202 | every participant exactly once, in the order of their user ids under the collation |
| HuddleRooms.HuddleRooms.GetRoomIdsForSocket | apps/api/src/huddle-rooms.ts:218-226 | exactly the rooms with that socket, in map order |
| HuddleRooms.HuddleRooms.GetRoomIdsForUser | apps/api/src/huddle-rooms.ts:228-234 | exactly the organization's rooms with that user, in map order |
| HuddleRooms.HuddleRooms.GetRoomIdsForScope | apps/api/src/huddle-rooms.ts:236-245 | exactly the rooms in scope, in map order; an empty filter means any |
| HuddleRooms.HuddleRooms.GetConflictingRoomId | apps/api/src/huddle-rooms.ts:247-249 | the first of the user's rooms that is not the allowed one |
| HuddleModel.ReserveKeeps | apps/api/src/huddle-rooms.ts:109-118 | reserving keeps one room per space; it creates, exactly when the space had none, a new last room with nobody in it, and changes nothing else |
| HuddleModel.AddKeeps | apps/api/src/huddle-rooms.ts:131-143 | adding keeps every invariant if the user is in no other room; refused exactly for a missing room or another socket; otherwise whoever was seated anywhere still is, with the same record, and the only new seat is this one |
| HuddleModel.RemoveKeeps | apps/api/src/huddle-rooms.ts:159-172 | removing keeps every invariant, takes out that user of that room and nobody else, and `removed` and `empty` mean what they say |
| HuddleModel.SetMutedKeeps | apps/api/src/huddle-rooms.ts:174-179 | muting keeps every invariant and changes one flag of one seat |
| HuddleModel.DestroyKeeps | apps/api/src/huddle-rooms.ts:181-185 | destroying keeps every invariant, leaves no timeout for the room, and every other room as it was |
| HuddleModel.SetGraceTimerKeeps | apps/api/src/huddle-rooms.ts:187-192 | arming the timer of an empty room keeps every invariant: that room and no other has a new live timeout, all seats stand |
| HuddleModel.FireKeeps | apps/api/src/socket.ts:782-793 | a timeout that fires destroys its own, empty, room |
| HuddleModel.RoomBySpaceMeans | apps/api/src/huddle-rooms.ts:124-129 | the scan finds a room of that space and organization exactly if there is one |
| HuddleModel.RoomsForSocketMean | apps/api/src/huddle-rooms.ts:218-226 | the ids of exactly the rooms in which somebody sits on the socket, each once |
| HuddleModel.RoomsForUserMean | apps/api/src/huddle-rooms.ts:228-234 | the ids of exactly the organization's rooms in which the user sits, each once |
| HuddleModel.RoomsForScopeMean | apps/api/src/huddle-rooms.ts:236-245 | the ids of exactly the rooms in scope, each once |
| HuddleModel.ConflictingRoomMeans | apps/api/src/huddle-rooms.ts:247-249 | a room of the user's other than the allowed one, or there is none |
| HuddleModel.ScansIgnoreOrder | apps/api/src/huddle-rooms.ts:124-129 | the first-match scans answer alike in any map order |
| Presence.PresenceMaps.OnConnected | apps/api/src/socket.ts:387-407 | tracking a socket: the sets, idleness and the first-socket broadcast |
| Presence.PresenceMaps.OnDisconnect | apps/api/src/socket.ts:887-903 | dropping a socket: no empty set is kept, and the last socket is broadcast |
| Presence.PresenceMaps.OnIdle | apps/api/src/socket.ts:468-476 | going idle is recorded and broadcast once |
| Presence.PresenceMaps.OnActive | apps/api/src/socket.ts:478-487 | coming back is recorded and broadcast once |
| Presence.TrackKeeps | apps/api/src/socket.ts:387-407 | tracking adds one socket to one user and ends that user's idleness; only a user's first socket is broadcast; what was last broadcast of anybody is still right, or "idle" of a user now online |
| Presence.UntrackKeeps | apps/api/src/socket.ts:887-903 | untracking takes one socket from one user; only the last is broadcast, and ends the user's presence; the broadcasts stay right |
| Presence.IdlingKeeps | apps/api/src/socket.ts:468-487 | going idle and coming back set one user's status, and are broadcast exactly when it changes; the broadcasts stay right |
| Presence.IdleEndsUnheard | apps/api/src/socket.ts:387-407 | a new socket of an idle user makes the user online without a broadcast: listeners still take them to be idle |
| Presence.SeesAllIffOneOrg | apps/api/src/socket.ts:400-405 | an organization hears every coming and going of a user exactly when all were addressed to it |
| Presence.TwoOrgsDisagree | apps/api/src/socket.ts:887-903 | a user with sockets in two organizations: one hears a coming and no going |
| RealtimeServer.Server.EvictActiveHuddleParticipants | apps/api/src/socket.ts:166-233 | whatever runs at its awaits, the eviction ends, is a run of the protocol and returns how many it took out; then nobody in its scope holds an older authorization and no socket it covers is in a room it covers |
| RealtimeServer.Server.EvictTarget | apps/api/src/socket.ts:183-190 | one target is out of the room before others run, nobody else is, and it counts exactly if it was seated |
| RealtimeServer.Server.EvictFromRoom | apps/api/src/socket.ts:175-221 | one room: everybody in scope is out of it at some point, and at the end it is not empty or is gone |
| RealtimeServer.Server.Revoke | apps/api/src/socket.ts:137-164 | by reason, exactly the user's sockets leave the space's room, exactly the space's sockets leave it, or exactly the user's sockets are gone; no covered socket is left in a covered room |
| RealtimeServer.Server.TryToCreate | apps/api/src/socket.ts:531-574 | from the access check to the join: enters a fresh room under a current generation, everybody else staying where they sat, or ends with no seat changed; without interference it enters exactly if the user sits in no room of the organization and the space has no occupied one |
| RealtimeServer.Server.Enter | apps/api/src/socket.ts:539-574 | replaces an empty room, reserves, and seats the creator on this socket |
| RealtimeServer.Server.FinishCreate | apps/api/src/socket.ts:575-593 | succeeds exactly if the join did and the generation still stands; otherwise the seat is given up, a room left empty is gone, and everybody else stays |
| RealtimeServer.Server.HuddleCreate | apps/api/src/socket.ts:513-593 | `huddle:create` is a run of the protocol and succeeds only if no eviction began meanwhile; left alone, exactly for a user with access who sits in no room of the organization while the space has no occupied one, and then nobody else moves |
| RealtimeServer.Server.CheckJoin | apps/api/src/socket.ts:679-703 | goes on to the join only while the room may be entered under a current generation |
| RealtimeServer.Server.FinishJoin | apps/api/src/socket.ts:713-751 | on success the user sits in the room on this socket, the generation is the captured one, and every seat from before the join is still there with the same socket |
| RealtimeServer.Server.HuddleJoin | apps/api/src/socket.ts:656-751 | `huddle:join` is a run of the protocol; its last step seats this user on this socket and moves nobody else, and no eviction began meanwhile; left alone it succeeds exactly for a user with access, in no other room of the organization, and not in this one on another socket |
| RealtimeServer.OthersLeaveIt | apps/api/src/socket.ts:166-233 | nothing anybody else does changes a running eviction's remaining rooms and targets |
| RealtimeServer.OthersLeaveHandler | apps/api/src/socket.ts:513-751 | nothing anybody else does moves a suspended handler |
| RealtimeAuthProof.CreateEntersFreshRoom | apps/api/src/socket.ts:539-574 | `huddle:create` is refused exactly when the user is busy elsewhere or the space has an occupied room; otherwise it enters the new room alone |
| RealtimeSteps.LeaveTakesOut | apps/api/src/socket.ts:766-793 | `huddle:leave`: the user's seat on this socket is gone, every other seat stands, and a room left empty has a live timeout |
| RealtimeSteps.DisconnectTakesOut | apps/api/src/socket.ts:861-886 | after a disconnect nobody sits on the socket in any room, every other seat stands, and each room so emptied has a live timeout |
| RealtimeSteps.EvictDisconnectTakesOut | apps/api/src/socket.ts:137-164 | the same when an eviction disconnects the socket |
| RealtimeSteps.JoinFinishSeats | apps/api/src/socket.ts:713-751 | the last step of `huddle:join` seats the user and moves nobody exactly if the socket joined, no eviction began, and the user may enter; otherwise no room changes |
| RealtimeSteps.JoinResumeGoesOn | apps/api/src/socket.ts:679-703 | the step before goes on exactly with access, in the same generation, into a room that may be entered, and changes nothing else |
| RealtimeSteps.CreateFinishGivesUp | apps/api/src/socket.ts:575-593 | `huddle:create` that failed to join or joined too late gives up its seat and no other |
| RealtimeSteps.TimerCloses | apps/api/src/socket.ts:782-793 | a timeout closes its own room, in which nobody is, and nothing else |
| RealtimeSteps.MuteMutes | apps/api/src/socket.ts:837-858 | muting changes the user's own flag, on the socket they sit on, and nothing else |
| RealtimeSteps.EvictionBegins | apps/api/src/socket.ts:166-175 | an eviction begins with a new generation and exactly the rooms with somebody or something in its scope |
| RealtimeSteps.EvictedRoomCloses | apps/api/src/socket.ts:191-221 | an eviction done with a room closes it exactly if nobody is left; all seats and other rooms stand |
| RealtimeSteps.EvictionCloses | apps/api/src/socket.ts:137-164 | its last section takes exactly the covered sockets out of the space's room, or marks exactly the user's sockets to be disconnected |
| RealtimeSteps.SpaceLeaveLeaves | apps/api/src/socket.ts:447-450 | `space:leave` takes this socket out of this space's room and does nothing else |
| RealtimeSteps.SpaceJoinGates | apps/api/src/socket.ts:419-445 | `space:join` awaits the join exactly with access in the same generation, lands unless the socket is gone, and leaves again in a newer generation; no other room changes |
| RealtimeSteps.HandshakeGates | apps/api/src/socket.ts:294-385 | each step of a handshake goes on exactly with a role, an accepted second look and an unchanged generation; otherwise the socket is gone |
| RealtimeSteps.ConnectionJoins | apps/api/src/socket.ts:365-371 | a connection joins the organization's and the user's own rooms, and the members' room exactly if it is no guest's |
| RealtimeSteps.DbStepAccess | apps/api/src/socket.ts:22-44 | each change to the database takes access away from exactly whom it names, or gives it to nobody else |
| RealtimeSteps.AccessIsRead | apps/api/src/socket.ts:513-531 | what a handler asks is answered by the database of that moment |
| RealtimeAuthProof.StepKeepsAuth | apps/api/src/socket.ts:90-233 | every step keeps: seats and granted checks are justified or outdated, and evictions still have ahead whom they must remove |
| RealtimeTimerProof.StepKeepsTimers | apps/api/src/socket.ts:575-593 | every step keeps: an empty unarmed room is being visited by an eviction |
| RealtimeSocketProof.StepKeepsSockets | apps/api/src/socket.ts:294-433 | every step keeps: a socket in a room is allowed there as far as anybody was told, covered by an outstanding revocation, or about to be taken out |
| RealtimeSocketCleanProof.StepKeepsClean | apps/api/src/socket.ts:294-433 | every step keeps: what an eviction that has come to its sockets leaves in its rooms was checked since, or is about to be disconnected or to leave |
| RealtimePresenceProof.StepKeepsPresence | apps/api/src/socket.ts:380-407 | every step keeps the presence maps equal to the initialized sockets |
| RealtimePresenceProof.ReadyIsTold | apps/api/src/socket.ts:387-407 | a socket that becomes ready makes its user online; its organization is told exactly if the user had none |
| RealtimePresenceProof.GoneIsTold | apps/api/src/socket.ts:887-903 | a ready socket that disconnects changes its user's status only if it was the last, and then its organization is told |
| RealtimePresenceProof.IdleStepsSet | apps/api/src/socket.ts:468-487 | idle and active set the user's own status, and tell that user's organization exactly of a change |
| RealtimeScopeProof.StepKeepsScopes | apps/api/src/socket.ts:166-190 | every step keeps: a running eviction's rooms lie in its scope, and so do the targets in its present room |
| RealtimeTheorems.RunInv | apps/api/src/socket.ts:90-905 | all these invariants, the scopes of evictions included, hold in every state of every run |
| RealtimeTheorems.ParticipantsAuthorized | apps/api/src/socket.ts:166-233 | every huddle participant is authorized now, or covered by a committed revocation whose eviction has not begun or still has them ahead, or lost the space or organization without an eviction |
| RealtimeTheorems.QuiescentParticipantsAuthorized | apps/api/src/socket.ts:167-169 | with no eviction outstanding a participant is authorized, whatever handlers are suspended, exactly if no change without an eviction took the space or organization away |
| RealtimeTheorems.ToldParticipantsAuthorized | apps/api/src/socket.ts:167-169 | on a run where an eviction follows every revocation they are authorized outright |
| RealtimeTheorems.ArchivedHasCause | apps/api/src/routes/agent.ts:1048-1051 | a space counts as archived without an eviction only after a step that archived it so |
| RealtimeTheorems.RemovedHasCause | apps/api/src/routes/agent-employees.ts:2450-2454 | and a user as removed without an eviction only after such a deactivation |
| RealtimeTheorems.DemotedHasCause | apps/api/src/routes/members.ts:1392-1402 | and as demoted only after that or such a change of role |
| RealtimeSilent.ArchivingStrands | apps/api/src/routes/agent.ts:1033-1056 | a run ending with nothing under way and a user without access seated in a huddle, its socket in the space's room |
| RealtimeSilent.ArchivingAdmits | apps/api/src/routes/agent.ts:1033-1056 | a run on which access read before the archiving seats the user after it |
| RealtimeSilent.DeactivationStrands | apps/api/src/routes/agent-employees.ts:2450-2454 | the same end after a membership is deactivated without an eviction |
| RealtimeSilent.DemotionStays | apps/api/src/routes/members.ts:1373-1402 | a run ending with nothing under way and a guest's socket in the members-only room |
| RealtimeTheorems.EvictionComplete | apps/api/src/socket.ts:166-233 | when an eviction that bumped the generation to G returns, and ever after, no participant in its scope holds an authorization below G |
| RealtimeTheorems.EvictionSpares | apps/api/src/socket.ts:175-190 | on every run an eviction takes out nobody its scope does not cover |
| RealtimeTheorems.QuiescentSocketsAllowed | apps/api/src/socket.ts:294-433 | with no eviction, handshake or `space:join` in flight a live socket in an org, org-user, members or space room is allowed there exactly if no change without an eviction took that away |
| RealtimeTheorems.ToldSocketsAllowed | apps/api/src/socket.ts:294-433 | on a run where an eviction follows every revocation it is then allowed there outright |
| RealtimeTheorems.SocketsAllowedOrLeaving | apps/api/src/socket.ts:137-164 | at any time a socket not allowed in its room will be taken out by a revocation or by its own later check, or lost its right without an eviction |
| RealtimeTheorems.SocketEvictionComplete | apps/api/src/socket.ts:137-233 | when an eviction of generation G returns, and ever after, a covered socket is in the room only on a check made at G or later, or has its own failing check still ahead |
| RealtimeTheorems.RoomsUnique | apps/api/src/socket.ts:537-574 | one room per space, each user in at most one room of an organization, on one socket of their own |
| RealtimeTheorems.ScansIgnoreOrder | apps/api/src/huddle-rooms.ts:247-249 | on every run the scans answer alike in any map order |
| RealtimeTheorems.TimersSound | apps/api/src/socket.ts:782-793 | a live timeout belongs to an empty room; an empty room has its timer armed or an eviction on it |
| RealtimeTheorems.PresenceSound | apps/api/src/socket.ts:236-266 | online users are exactly those with an initialized live socket, idle users are online, first and last socket broadcasts alternate, and the last broadcast of a user says their status, or "idle" of one who is online |
| Semver.CompareSemver | scripts/modules-cli.ts:680-703 | the result is -1, 0 or 1 as the left text, split at its dots, hyphen and plus, is below, level with or above the right: by the numbers its digits write, then by section 11's rules on the pre-release identifiers |
| Semver.CompareIsPrecedence | scripts/modules-cli.ts:680-703 | on parsed versions, the precedence of Semantic Versioning 2.0.0, section 11, in both directions |
| Semver.ValidIsSpelled | scripts/modules-cli.ts:661-678 | a version is accepted exactly if it is three numbers without leading zeros, an optional pre-release and optional build metadata, as section 2, 9 and 10 spell them |
| Semver.SpelledOrder | scripts/modules-cli.ts:680-703 | any two versions so spelled are accepted, and compare as the spelled parts do, digit by digit |
| Semver.OrderIsVersionBelow | scripts/modules-cli.ts:680-703 | below zero exactly if the left text is the lower version, above exactly if the right is |
| Semver.OrderAntisymmetric | scripts/modules-cli.ts:680-703 | swapping the arguments negates the result |
| Semver.OrderTransitive | scripts/modules-cli.ts:680-703 | the order is transitive, strictly where either step is strict |
| Semver.OrderZeroIsSameUpToBuild | scripts/modules-cli.ts:661-703 | 0 exactly for versions equal up to build metadata (section 10) |
| ModuleLock.SortedTest | scripts/modules-cli.ts:527-531 | comparing ids with their sorted copy accepts exactly sorted locks |
| ModuleLock.UpsertIs | scripts/modules-cli.ts:833-836 | replacing an entry: sorted, ids unique, that entry in, others kept, nothing else |
| ModuleLock.UpsertPins | scripts/modules-cli.ts:833-836 | every other id stays pinned to what it was |
| ModuleLock.PinnedMeans | scripts/modules-cli.ts:793-798 | the pinned entry is the first with that id, or there is none |
| ModuleFormats.IdentityIs | packages/shared/src/modules.ts:86-130 | ids, slugs and versions are accepted exactly if spelled as words of lower-case letters and digits between hyphens, of those between dots, and as a version, within the length limits |
| ModuleFormats.OriginIs | scripts/modules-cli.ts:312-324 | digests, commits and licenses are accepted exactly as `sha256:` with 64 lower-case hexadecimal digits, 40 or 64 of them, and a simple SPDX identifier |
| ModuleFormats.EntryIs | scripts/modules-cli.ts:461-497 | a lock entry is accepted exactly if its fields are spelled so and its repository is canonical already |
| ModuleFormats.AcceptedFormats | scripts/modules-cli.ts:571-652 | every entry of a tree that verifies is |
| ModuleFormats.AcceptedFiles | scripts/modules-cli.ts:535-616 | its path names its manifest, its folder holds that manifest, of at most 128 KiB, and nothing else, and the lock has at most 1 MiB |
| SourceRepository.CanonicalAgain | scripts/modules-cli.ts:280-297 | a canonical path is canonical again exactly if it did not end, trailing slashes aside, in `.git` after a slash, another `.git` or a dot segment |
| SourceRepository.GitAfterDots | scripts/modules-cli.ts:294-296 | `.git` after a dot segment in any spelling: accepted, then changed or refused by a second reading |
| SourceRepository.GitAfterDot | scripts/modules-cli.ts:294-296 | `/a/..git` becomes `/a/.`, and that `/a` |
| SourceRepository.GitAfterSlash | scripts/modules-cli.ts:294-296 | `/a/.git` becomes `/a/`, and that `/a` |
| SourceRepository.GitAfterGit | scripts/modules-cli.ts:294-296 | `.git` twice: each reading drops one |
| SourceRepository.ReadAgain | scripts/modules-cli.ts:482-485 | the lock's second reading of a whole repository URL agrees with the first exactly under that condition |
| SourceRepository.DotGoes | scripts/modules-cli.ts:280-293 | a single-dot segment stands for nothing, or for the trailing slash |
| SourceRepository.DotsCancel | scripts/modules-cli.ts:280-293 | a double-dot segment takes the segment before it away |
| SourceRepository.EndsInGitIs | scripts/modules-cli.ts:294-296 | the suffix dropped is `.git` in any case |
| VendoredModules.VerifyVendoredModules | scripts/modules-cli.ts:571-652 | succeeds exactly if the tree is consistent, unlocked (unless allowed) and mirrored by the catalog; returns the lock entries in order |
| VendoredModules.VerifyEntries | scripts/modules-cli.ts:592-616 | ids and slugs are unique and every entry is backed by its artifact |
| VendoredModules.ListVendoredArtifactSlugs | scripts/modules-cli.ts:535-569 | lists the folders once each in code-unit order, or throws exactly if some entry is not a folder holding one manifest |
| VendoredModules.VerifyArtifacts | scripts/modules-cli.ts:618-624 | every artifact is locked and every entry has its artifact |
| VendoredModules.VerifyCatalog | scripts/modules-cli.ts:626-650 | the catalog is a two-way allowlist |
| VendoredModules.LockIsArtifacts | scripts/modules-cli.ts:592-624 | the loops accept exactly if lock and artifacts are the same set of (id, slug, version, digest), none repeated |
| VendoredModules.CatalogIsLock | scripts/modules-cli.ts:626-650 | the catalog loops accept exactly if the catalog is that same set |
| VendoringProof.WriterSafe | scripts/modules-cli.ts:729-733 | a half-done tree never verifies; one that does is the last version |
| VendoringProof.StagedRefused | scripts/modules-cli.ts:552-564 | a staged manifest beside its target makes verification refuse |
| VendoringProof.PlacedRefused | scripts/modules-cli.ts:729-733 | after the manifest rename and before the lock rename verification refuses, for new and for pinned modules |
| VendoringProof.StepKeepsTree | scripts/modules-cli.ts:770-861 | every call, throw, crash and clean-up keeps the tree safe and the holder exclusive |
| VendoringTheorems.FailClosed | scripts/modules-cli.ts:582-584 | with the vendor lock present verification refuses; under it a tree that verifies is the last committed version |
| VendoringTheorems.OneVendorAtATime | scripts/modules-cli.ts:742-768 | two processes never hold the vendor lock at once |
| VendoringTheorems.OldOrNew | scripts/modules-cli.ts:720-740 | after a crash at any call a tree that verifies is exactly the old version or exactly the new one |
| VendoringTheorems.CommitsSerialized | scripts/modules-cli.ts:829-856 | each commit replaces one entry and one artifact of the version just before it, which verified |
| VendoringTheorems.SuccessCommits | scripts/modules-cli.ts:846-857 | a process that succeeds made a commit, of its own entry |
| VendoringTheorems.ModuleHistory | scripts/modules-cli.ts:793-827 | a pinned module stays pinned, and between any two versions of the tree its entry is the same, or has the same slug, repository and license, a version text strictly above the earlier, and a commit descending from the earlier |
| VendoringTheorems.LockIsCommitted | scripts/modules-cli.ts:582-592 | whenever the lock is read, it is the lock of a committed version that stays in the history, whatever vendors do before the artifacts are read |
| VendoringSuccess.CommitVerifies | scripts/modules-cli.ts:829-856 | a committed tree verifies exactly if the repository is a fixed point and both files are within the readers' limits |
| VendoringSuccess.SuccessVerifies | scripts/modules-cli.ts:770-861 | the same for the tree a successful vendorModule leaves, every other entry and file unchanged |
| VendoringSuccess.UnstableRepositoryBreaks | scripts/modules-cli.ts:482-485 | a run that succeeds from a repository with an unstable path leaves a tree that does not verify |
| VendorModule.Vendor.VendorModule | scripts/modules-cli.ts:770-861 | for any failing calls it is a run of the machine, returns an entry exactly on success, and leaves the old or the new version; unless a clean-up fails, the vendor lock is as before and of the staged files only one whose own writing failed is left; with no call failing it succeeds exactly for a free, verifying tree where nobody else has the slug and the pinned entry has the same slug, repository and license, a lower version and an ancestor commit |
| VendorModule.FailedWriteStays | scripts/modules-cli.ts:705-740 | a lock whose writing throws stays where it was staged, though every clean-up runs |
| VendorModule.FailedManifestWriteBlocks | scripts/modules-cli.ts:705-740 | so does a manifest, and from then on no tree verifies and no vendoring succeeds, though the vendor lock is free |
| VendorModule.Vendor.VendorFirst | scripts/modules-cli.ts:770-861 | the first module, no call failing: it succeeds, and the tree verifies exactly if the path is stable and both files are within the readers' limits |
| VendorModule.Vendor.AcquireVendorLock | scripts/modules-cli.ts:742-768 | takes the lock exclusively or fails without it |
| VendorModule.Vendor.ReplaceVendoredPair | scripts/modules-cli.ts:720-740 | both files are staged, at the next step the manifest is in place and the lock untouched, at the next the lock is; or the lock is untouched and it fails |
| VendorModule.Vendor.RenameBoth | scripts/modules-cli.ts:733-735 | the manifest is renamed in one step, the lock in the next; if it fails the lock is untouched |
| VendorModule.Vendor.MayReplace | scripts/modules-cli.ts:799-827 | the checks in order allow exactly: nobody else has the slug, and whatever is pinned under the id has the same slug, repository and license, a version text below the new one, and a commit the new one descends from |
| Vendoring.PermittedIsMayFollow | scripts/modules-cli.ts:793-827 | so does the check as the transition system makes it |
| AppDataJson.CanonicalAppData | packages/app-kit/src/app-data-json.ts:2-18 | the call of `visit`: accepted exactly with at most 65536 nodes, none deeper than 32, no reserved name and JSON leaves only; the counter then equals the size |
| AppDataJson.Visitor.Visit | packages/app-kit/src/app-data-json.ts:3-17 | one subtree: acceptance, the counter's advance and the normal form |
| AppDataJson.Visitor.VisitItems | packages/app-kit/src/app-data-json.ts:7-7 | array items in order, sharing the counter |
| AppDataJson.Visitor.VisitFields | packages/app-kit/src/app-data-json.ts:9-14 | fields in sorted key order, sharing the counter |
| AppDataJson.AcceptableMeans | packages/app-kit/src/app-data-json.ts:3-16 | the checks node by node amount to depth, leaves and names of the whole tree |
| AppDataJson.NormalObject | packages/app-kit/src/app-data-json.ts:9-14 | a normal object has the normalized fields once each, array indices first, then by code unit |
| ArrayIndex.IndexIs | packages/app-kit/src/app-data-json.ts:9-13 | the keys listed first are exactly the decimals, without leading zeros, of the numbers below 2^32 - 1 |
| ArrayIndex.KeyOrderIs | packages/app-kit/src/app-data-json.ts:9-13 | those are listed in the order of their numbers, the others by code unit |
| AppDataJson.NormalDecides | packages/app-kit/src/app-data-json.ts:1-19 | two trees have one normal form exactly if they hold the same data up to key order at any depth |
| AppDataJson.NormalIdempotent | packages/app-kit/src/app-data-json.ts:1-19 | normalizing a normal tree changes nothing |
| JsonText.StringRoundTrip | packages/app-kit/src/app-data-json.ts:18-18 | a quoted string reads back, escapes, lone surrogates and pairs included |
| JsonText.ValueBack | packages/app-kit/src/app-data-json.ts:18-18 | a written value reads back and leaves what followed |
| JsonText.CanonicalAppDataJson | packages/app-kit/src/app-data-json.ts:1-19 | accepted under those conditions, and then the canonical text |
| JsonText.CanonicalDecides | packages/app-kit/src/app-data-json.ts:1-19 | two trees have one canonical text exactly if they hold the same data |
| JsonText.CanonicalIdempotent | packages/app-kit/src/app-data-json.ts:1-19 | the canonical text of the tree read back is the same text |
| JsonForm.EscapesAre | packages/app-kit/src/app-data-json.ts:18-18 | the text written for every code unit: seven short escapes, four lower-case hexadecimal digits for other controls and lone surrogates, otherwise itself |
| JsonForm.WrittenIsShortest | packages/app-kit/src/app-data-json.ts:18-18 | the text of a string is legal, stands for it, and no legal text that does is shorter |
| JsonForm.WrittenForm | packages/app-kit/src/app-data-json.ts:18-18 | the words and the punctuation of arrays and objects |
| JsonForm.ReservedIs | packages/app-kit/src/app-data-json.ts:10-12 | the reserved names are `__proto__`, `constructor` and `prototype` |
| UpgradeArgs.ParseUpgradeArgs | scripts/selfhost-upgrade.ts:23-81 | the loop computes the parse, errors and help included |
| UpgradeArgs.TokensMean | scripts/selfhost-upgrade.ts:36-79 | well-formed options mean: flags anywhere, files in order, the last directory and backup choice win |
| UpgradeArgs.ParsedIsTokens | scripts/selfhost-upgrade.ts:36-79 | an accepted argument list is a list of well-formed options |
| UpgradeArgs.NoArguments | scripts/selfhost-upgrade.ts:23-35 | with no arguments: a backup to `backups`, and nothing special; likewise for the backup's parser |
| UpgradeArgs.UpgradeStops | scripts/selfhost-upgrade.ts:36-79 | after well-formed options, anything else ends the parse: help, an option without its value, or an unknown argument |
| UpgradeArgs.ParseBackupArgs | scripts/selfhost-backup.ts:10-28 | the loop computes the parse, errors included |
| UpgradeArgs.BackupTokensMean | scripts/selfhost-backup.ts:10-28 | well-formed options mean: flags anywhere, files in order, the last directory wins |
| UpgradeArgs.BackupIsTokens | scripts/selfhost-backup.ts:10-28 | an accepted argument list is a list of well-formed options |
| UpgradeArgs.BackupStops | scripts/selfhost-backup.ts:10-28 | after well-formed options, anything else is refused: an option without its value, or an unknown argument |
| UpgradeArgs.BuildBackupArgs | scripts/selfhost-upgrade.ts:91-97 | builds the printed arguments |
| UpgradeArgs.BackupRoundTrip | scripts/selfhost-upgrade.ts:91-97 | the printed arguments parse back to the same choices exactly if no value is empty; otherwise they are refused |
| UpgradeArgs.AcceptedRoundTrip | scripts/selfhost-backup.ts:10-28 | so for every accepted command line |
| UpgradeArgs.ComposeArgsAre | scripts/selfhost-upgrade.ts:83-89 | `compose`, then `-f` before each file: the base file, those of the two modes, and the ones given, in order |
| UpgradeArgs.SameComposeProject | scripts/selfhost-backup.ts:30-35 | backup and upgrade address the same Compose files exactly without `--release` |
| Upgrade.BuildUpgradePlan | scripts/selfhost-upgrade.ts:99-136 | builds the plan step by step |
| Upgrade.PlanShape | scripts/selfhost-upgrade.ts:99-136 | stop first, any backup second, one migration, no recovery step |
| Upgrade.PlanCommands | scripts/selfhost-upgrade.ts:99-136 | every step's literal command and arguments |
| Upgrade.PlanOrder | scripts/selfhost-upgrade.ts:99-136 | which steps there are, for every option, and in which order |
| Upgrade.ExecuteUpgradePlan | scripts/selfhost-upgrade.ts:158-190 | for every failure pattern, exactly which commands are issued and whether the upgrade succeeds |
| Upgrade.RestartExactlyBeforeMigration | scripts/selfhost-upgrade.ts:178-181 | the old container is restarted exactly if a real run failed after stop and before migration, and then by `docker`, the Compose arguments and `start deft`, as the last command |
| Upgrade.StartIsTheRestart | scripts/selfhost-upgrade.ts:158-181 | some command ends in `start deft` exactly then, and it is the last and only one |
| Upgrade.SecondStopIsRecovery | scripts/selfhost-upgrade.ts:182-187 | some command after the first ends in `stop deft` exactly if a real run failed after migration began, and it is the last and only one |
| Upgrade.FailureAfterMigrationStops | scripts/selfhost-upgrade.ts:182-187 | a failure after migration began leaves `docker`, the Compose arguments and `stop deft` as the last command |
| Upgrade.MigrationNeedsStopAndBackup | scripts/selfhost-upgrade.ts:99-120 | migration begins only after stop and any enabled backup succeeded |
| Upgrade.DryRunIssuesNothing | scripts/selfhost-upgrade.ts:167-177 | a dry run issues no real command |
| Mentions.SplitCodeRegions | docs/deprecated/openclaw/openclaw-chat-envelope.ts:512-557 | the loop divides the text by the region grammar |
| Mentions.DivisionExists | docs/deprecated/openclaw/openclaw-chat-envelope.ts:512-557 | the region grammar divides every text |
| Mentions.DivisionUnique | docs/deprecated/openclaw/openclaw-chat-envelope.ts:512-557 | that grammar divides a text in one way only |
| Mentions.DividesIsLossless | docs/deprecated/openclaw/openclaw-chat-envelope.ts:512-557 | the regions concatenate to the text |
| Mentions.BuildTables | docs/deprecated/openclaw/openclaw-chat-envelope.ts:485-499 | counts and first holders of every first name |
| Mentions.CountOne | docs/deprecated/openclaw/openclaw-chat-envelope.ts:485-499 | the count is one exactly if one member has the name, and the table holds that member |
| Mentions.PiecesUnique | docs/deprecated/openclaw/openclaw-chat-envelope.ts:565-573 | the pattern cuts a text in one way: mentions as long as they can be, none missed |
| Mentions.FirstNameIs | docs/deprecated/openclaw/openclaw-chat-envelope.ts:491-492 | the first name is the name up to its first white space |
| Mentions.MentionIs | docs/deprecated/openclaw/openclaw-chat-envelope.ts:565-573 | a mention of a first name that one member alone has, up to case, becomes `<@id|first>` with that member's id and first name; any other stays |
| Mentions.BackfillMentions | docs/deprecated/openclaw/openclaw-chat-envelope.ts:479-508 | code regions are copied; elsewhere exactly the mentions of a unique first name become that member's |

## Left out

- Socket rooms of huddles: who is in a `huddle:` Socket.IO room is not modelled; a second stale join leaves that room.
- Connectedness of participants: create and join do not check `socket.connected` after their awaits, and no claim is made.
- Display names, muted state beyond `setMuted`, signal relay, typing, notifications, ring fan-out, `huddle:list` snapshots, payload schemas: they do not change the protocol.
- Per-packet middleware and session expiry: a packet is taken to reach its handler; expiry is a disconnect.
- Participant objects are values in a map field here; the source updates `muted` inside the object, which nothing else holds.
- Step granularity in `Realtime`: an eviction may pause between any two targets and any two disconnected sockets, more often than the program does; every run of the program is a run of the model.
- The collation of `localeCompare` is a parameter, and the order it leaves among equal ids is not modelled.
- `proveGitProvenance`, `checkModule` on the input, `init`, `format`: the request starts with a manifest proven to be the committed blob.
- Symlinks along a path: a place is a real file or folder, or it is odd and refused.
- Vendor verification under the vendor lock is one step in `Vendoring`, as the lock keeps other writers away during its awaits; of a reader without the lock only what it can read as the lock is stated (`VendoringTheorems.LockIsCommitted`). A partly written temporary file counts as a file with other contents.
- Durability of renames across power loss: a crash ends a process, not the file system.
- `validateSourceRepository` is a parameter of vendoring; its path part, the URL parser's dot segments included, is modelled in `SourceRepository` for paths of characters the parser leaves alone. Percent-encoding of others, hosts, queries and fragments are not.
- Node output of the upgrade, `process.exit`, and the backup's own work.
- Cyclic values, array holes and getters in `canonicalAppDataJson`.
