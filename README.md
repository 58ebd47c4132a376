# Charge-Finder-Backend: a verified model of the charging-session core

This project models, in Dafny, the core of the Charge-Finder-Backend
service, an EV-charging station locator and reservation backend. The model
does not capture the HTTP routes, MongoDB, Redis or WebSockets. It keeps the
rules those layers carry out:

- **The charging ticket service** (`ticket_service.dfy`, module `ChargingTickets`):
  - time-derived progress against the fixed five-minute duration, and the estimated completion time;
  - the ticket payload and the vehicle it shows;
  - the conditional `$inc` on a station's connector port counter;
  - the vehicle charging-status setters;
  - the finalisation transaction. It deletes the ticket, pulls its id from the user, releases one port and resets the vehicle, all or nothing.
- **The realtime progress hub** (`progress_hub.dfy`, module `ProgressHub`), a class `Hub` holding:
  - the subscriber registry (key to set of sockets) with add, remove and broadcast-with-pruning;
  - the timer registry (ticket id to interval handle) with its start guard and clear;
  - the decision each tick takes: complete, stop, or broadcast progress.
- **The battery model** (`battery.dfy`, module `Battery`):
  - status tiers and the percent clamp;
  - the lazy drain of 5 percent per whole ten-minute tick;
  - the write decision, the refresh of a list of snapshots, and the default-filling of stored vehicles.
- **Charging history** (`history.dfy`, module `History`):
  - the normalisers and id resolution;
  - recording into an append-only store with a unique ticket id;
  - the per-user query, sorted by end time, latest first.
- **The fixed-window rate limiter** (`rate_limit.dfy`, module `RateLimit`):
  - `Number.parseInt` for the environment settings;
  - the client, route and store keys;
  - the per-key counter whose expiry is set on a window's first hit;
  - the admit/reject rule and its headers.
- **Smaller rule sets:**
  - the image path helpers (`image_paths.dfy`), with POSIX join and normalisation written out;
  - station seeding by `name|address` key (`seed_stations.dfy`);
  - the admin user update, with its request checks and the unique-email rule (`admin_update.dfy`);
  - the admin bootstrap decision table (`ensure_admin.dfy`).
- **Shared pieces:**
  - JavaScript runtime values in `common.dfy`: number tags, dates, `Math.round`, `String(n)`, `trim`;
  - the duck-typed id resolution in `ids.dfy`, which the ticket and history services each carry an identical copy of;
  - the user collection in `users.dfy`.

How the model stands in for the runtime:

- **State.**
  - Where the source updates documents in place, the model is a class whose
    methods change its fields: `ChargingStore`, `Hub`, `HistoryStore`,
    `RateStore`, `StationCollection`, `UserTable`.
  - Each method is proved against a specification function. Examples:
    `Finalized` for the transaction, `Broadcasted` for a broadcast,
    `UpdateUserOutcome` for the admin update, `ToInsert` for seeding.
  - The lemmas state what the source promises about those functions.
- **Values.**
  - Times are integer milliseconds passed in as `nowMs`.
  - A JavaScript number is a finite value or a `NonFinite`/`NotFinite` tag.
  - A Date is a timestamp or `InvalidDate`.
- **Faults.** Where a datastore or hashing error is modelled, it is a `fault` parameter naming the call that throws. The single-call store methods of `ChargingTickets.ChargingStore` have none (see "## Left out").
- **Parameters for code outside the model.** Functions the core calls but that are not part of this model become parameters:
  - `hashOf` is bcrypt;
  - `emailCheck` is express-validator's `normalizeEmail().isEmail()`;
  - `relativeDest` is the result of `path.relative`;
  - `durationMs` is `resolveChargingDurationMsFromSnapshot`;
  - `batteryFor` is `appendChargingBatteryPercentage`;
  - `freshId` is the id a new document gets;
  - the environment is a record of optional strings.
- **Notes on the source:**
  - The payload builder's estimated completion is the start plus the fixed
    five minutes (`CHARGING_DURATION_MS`), whatever duration the ticket
    carries. The builder neither refreshes the vehicle's battery nor derives
    a battery percentage.
  - `calculateChargingProgressPercent` in
    src/services/charging-ticket-service.ts takes two arguments and uses the
    fixed duration. The hub calls it with a third argument, the ticket's
    duration, which JavaScript ignores, so the code as written always uses
    300000 ms. The hub is modelled with the duration variant
    `ProgressPercentFor`, which applies the corrected two-argument rule to
    the ticket's duration. It agrees with the written rule only at
    300000 ms (`ProgressForFixedDuration`).
  - The client key puts `ip:` in front of `req.ip` and of `unknown` too, not
    only in front of a forwarded address.
  - The ticket schema (`src/models/charging-ticket.ts`) lacks `vehicle`,
    `chargingStatus`, `startedAt` and `progressPercent`. Other code reads these
    fields, so the model's `Ticket` carries them as optional fields.
  - Progress reaches 100 once 298.5 s have elapsed (`ProgressFullIff`). That is
    half-up rounding of the percentage, 1.5 s before the five minutes are over.
  - A subscribed socket can close or start failing at any time; a broadcast
    reads the sockets' state when it runs (`SocketStates`), so a socket that
    closed after subscribing is pruned (`ClosedSubscriberPruned`).

## Model

| member | source | states |
|---|---|---|
| `Common.ParseDate` | src/services/charging-history-service.ts:64-79 | parseDate: no time for a falsy value, an Invalid Date or another type; a Date, a non-empty string or a non-zero number in the Date range gives its time |
| `Common.Round` | src/services/charging-history-service.ts:45 | Math.round gives the integer within half of x, a half rounded up |
| `Common.Clamp100` | src/services/charging-ticket-service.ts:24 | Math.min(100, Math.max(0, n)) lies in [0, 100], is n inside the range and the nearer bound outside it |
| `Common.IntString` | src/utils/image-paths.ts:8 | String(year) is non-empty and starts with a digit exactly when the number is not negative |
| `Common.NatString` | src/utils/image-paths.ts:9 | String(n) of a natural number is a non-empty run of digits without a leading zero |
| `Common.TrimStart` | src/middleware/rateLimit.ts:9 | the leading white space parseInt skips: a suffix of the input that does not start with white space, and only white space precedes it |
| `Common.TrimEnd` | src/middleware/rateLimit.ts:36 | the trailing half of trim: a prefix of the input that does not end with white space, and only white space follows it |
| `Common.Trim` | src/middleware/rateLimit.ts:36 | trim gives a contiguous slice of the input with no white space at either end, and only white space is cut off before and after it |
| `Common.TrimmedSlice` | src/middleware/rateLimit.ts:36 | cutting white space off the front and then off the back leaves a slice with only white space cut on either side |
| `Common.FirstIndex` | src/services/charging-ticket-service.ts:196-213 | MongoDB's first match in natural order: a matching position with no match before it, none only when nothing matches |
| `Common.LastIndex` | src/services/charging-ticket-service.ts:111-126 | a descending `_id` sort then findOne: a matching position with no match after it, none only when nothing matches |
| `Ids.ResolveId` | src/services/charging-ticket-service.ts:65-94 | resolveId (also src/services/charging-history-service.ts:9-38): null for a falsy value, a string as itself, an object by `id`, then `_id`, then its own toString unless that is "[object Object]" |
| `ChargingTickets.ElapsedPercent` | src/services/charging-ticket-service.ts:23-24 | the rounded, clamped percentage of elapsed over duration lies in [0, 100] |
| `ChargingTickets.ProgressPercentAsWritten` | src/services/charging-ticket-service.ts:10-25 | the progress as written is NaN exactly for an Invalid Date start, 0 without a start, and otherwise agrees with ProgressPercent |
| `ChargingTickets.ProgressPercent` | src/services/charging-ticket-service.ts:10-25 | progress lies in [0, 100] and is 0 without a start, for an Invalid Date, and while now is not after the start |
| `ChargingTickets.ProgressPercentFor` | src/realtime/charging-progress.ts:149-153 | the hub's duration-parameterised progress lies in [0, 100]; it is 0 before the start or for a negative duration, and 100 for a zero duration |
| `ChargingTickets.ProgressForFixedDuration` | src/services/charging-ticket-service.ts:8 | at the five-minute duration the parameterised progress equals the two-argument one |
| `ChargingTickets.RoundedPercentIsQuotient` | src/services/charging-ticket-service.ts:23-24 | Math.round((e / 300000) * 100) is the integer quotient (e + 1500) / 3000 |
| `ChargingTickets.ProgressIsHalfUpQuotient` | src/services/charging-ticket-service.ts:18-24 | progress from a recorded start is the clamped integer quotient (elapsed + 1500) / 3000 |
| `ChargingTickets.ProgressFullIff` | src/services/charging-ticket-service.ts:18-24 | progress is exactly 100 iff at least 298500 ms have elapsed |
| `ChargingTickets.ProgressMonotone` | src/services/charging-ticket-service.ts:18-24 | progress never decreases as the clock advances |
| `ChargingTickets.EstimatedCompletionAt` | src/services/charging-ticket-service.ts:27-40 | an estimate exists iff the start is a valid Date, and it is the start plus 300000 ms |
| `ChargingTickets.ProgressFullAtEstimate` | src/services/charging-ticket-service.ts:10-40 | from the estimated completion time on, progress is 100 |
| `ChargingTickets.AppendChargingEstimate` | src/services/charging-ticket-service.ts:42-55 | the snapshot is returned unchanged without an estimate; otherwise only `estimatedCompletionAt` is added, start plus five minutes |
| `ChargingTickets.VehicleById` | src/services/charging-ticket-service.ts:128-141 | findById finds a stored vehicle with that id, and finds none only when no vehicle has it |
| `ChargingTickets.MostRecentActiveVehicle` | src/services/charging-ticket-service.ts:111-126 | none for a falsy user id; otherwise the owner's active vehicle with the greatest `_id`, none only when the owner has no active vehicle |
| `ChargingTickets.BuildChargingTicketPayload` | src/services/charging-ticket-service.ts:143-173 | null iff the ticket is null; the snapshot carries the estimate; the vehicle is the ticket's own when its id resolves, else the user's most recent active one; the station is found iff the option's or the ticket's station id is non-empty and stored, and is then that stored station |
| `ChargingTickets.SetVehicleStatus` | src/services/charging-ticket-service.ts:177-194 | ok iff the id is non-empty and a vehicle has it; then that vehicle's status is set and nothing else changes; otherwise nothing changes |
| `ChargingTickets.SetActiveVehicleStatus` | src/services/charging-ticket-service.ts:196-213 | ok iff the user has an active vehicle; the first one in natural order gets the status, nothing else changes |
| `ChargingTickets.ClearChargingStatus` | src/services/charging-ticket-service.ts:215-229 | updateMany sets every CHARGING vehicle of the user to IDLE; an empty user id changes nothing |
| `ChargingTickets.ClearChargingStatusEffect` | src/services/charging-ticket-service.ts:224-228 | afterwards none of the user's vehicles is CHARGING, other owners' vehicles are untouched, and a second clear changes nothing |
| `ChargingTickets.BumpFirstOfKind` | src/services/charging-ticket-service.ts:256-260 | `$inc` of `connectors.$.availablePorts` moves the first connector of the kind by delta and leaves the others |
| `ChargingTickets.AdjustConnectors` | src/services/charging-ticket-service.ts:236-267 | not_found with no change for an empty id or type, a zero or non-finite delta; applied iff the filter matches; no_available_ports only for a decrement; no change unless applied |
| `ChargingTickets.AdjustDecision` | src/services/charging-ticket-service.ts:246-266 | a decrement that does not match reports no_available_ports with no change; an increment applies iff the station has the kind, with no ceiling, else not_found |
| `ChargingTickets.AdjustChangesOneCounter` | src/services/charging-ticket-service.ts:256-260 | an applied adjustment changes exactly one counter, the first connector of the kind at that station, by delta |
| `ChargingTickets.BumpKeepsFirstOfKind` | src/services/charging-ticket-service.ts:258 | moving a counter keeps every connector's kind, so the first connector of the kind stays the same |
| `ChargingTickets.BumpThenUnbump` | src/services/charging-ticket-service.ts:258 | moving the same counter by delta and back restores the connectors |
| `ChargingTickets.ReserveThenReleaseRestores` | src/services/charging-ticket-service.ts:251-266 | an applied reservation (delta -1) followed by a release (delta 1) is applied and restores every station |
| `ChargingTickets.DecrementCanGoBelowZero` | src/services/charging-ticket-service.ts:246-253 | without $elemMatch a decrement matches a station whose CCS2 connector has 0 ports because its Type2 connector has 1, and, with the model's first-of-kind choice for the positional `$`, drives the CCS2 counter to -1; MongoDB may instead point `$` at the Type2 connector and decrement the wrong connector |
| `ChargingTickets.AdjustConnectorsElemMatch` | src/services/charging-ticket-service.ts:236-266 | the $elemMatch filter agrees with the as-written update on increments; a decrement applies iff the station has a connector of the kind with a free port, moves the first such connector by delta and changes nothing else; otherwise not_found or no_available_ports with no change |
| `ChargingTickets.ElemMatchKeepsPortsNonNegative` | src/services/charging-ticket-service.ts:246-266 | with $elemMatch, reservations (delta -1) and releases keep every counter non-negative |
| `ChargingTickets.Pull` | src/services/charging-ticket-service.ts:281-285 | `$pull` removes every occurrence of the id and keeps every other element as often as it occurred (multiset counts) |
| `ChargingTickets.PullAppend` | src/services/charging-ticket-service.ts:281-285 | pulling from a concatenation pulls from each part and keeps them in order, so the kept elements keep their order |
| `ChargingTickets.PullUserTicket` | src/services/charging-ticket-service.ts:281-285 | only the user's `tickets` list changes, by the pull; a missing user changes nothing |
| `ChargingTickets.Finalized` | src/services/charging-ticket-service.ts:269-315 | a committed finalisation deletes the ticket and pulls its id from the user |
| `ChargingTickets.ReleasedStations` | src/services/charging-ticket-service.ts:287-297 | the port release of the transaction; what it does to the stations is stated by FinalizeReleasesOnePort |
| `ChargingTickets.ResetVehicles` | src/services/charging-ticket-service.ts:299-306 | the vehicle reset of the transaction; what it does to the vehicles is stated by FinalizeResetsVehicle |
| `ChargingTickets.FinalizeReleasesOnePort` | src/services/charging-ticket-service.ts:287-297 | a ticket naming its station and connector type releases exactly one port of that type there |
| `ChargingTickets.FinalizeTwiceReleasesOnce` | src/services/charging-ticket-service.ts:277-297 | a second finalisation releases nothing and leaves tickets and users as they are |
| `ChargingTickets.FinalizeResetsVehicle` | src/services/charging-ticket-service.ts:299-306 | the ticket's own vehicle goes back to IDLE and no other vehicle changes; a ticket naming no vehicle clears every CHARGING vehicle of the user; a truthy vehicle reference that resolves to no id changes nothing |
| `ChargingTickets.ChargingStore.AdjustStationConnectorAvailability` | src/services/charging-ticket-service.ts:236-267 | the store's stations and the result are those of AdjustConnectors; the other collections are unchanged |
| `ChargingTickets.ChargingStore.SetVehicleChargingStatus` | src/services/charging-ticket-service.ts:177-194 | the vehicles and `ok` are those of SetVehicleStatus |
| `ChargingTickets.ChargingStore.SetActiveVehicleChargingStatus` | src/services/charging-ticket-service.ts:196-213 | the vehicles and `ok` are those of SetActiveVehicleStatus |
| `ChargingTickets.ChargingStore.ClearChargingStatusForUserVehicles` | src/services/charging-ticket-service.ts:215-229 | the vehicles are those of ClearChargingStatus |
| `ChargingTickets.ChargingStore.DeleteTicket` | src/services/charging-ticket-service.ts:277-279 | findOneAndDelete returns the stored ticket, or null, and removes it |
| `ChargingTickets.ChargingStore.PullTicketFromUser` | src/services/charging-ticket-service.ts:281-285 | the users are those of PullUserTicket |
| `ChargingTickets.ChargingStore.FinalizeChargingTicket` | src/services/charging-ticket-service.ts:269-315 | the transaction commits to Finalized, or aborts on a fault with the whole store as before |
| `ChargingTickets.ChargingStore.UpdateTicketProgress` | src/realtime/charging-progress.ts:199-214 | the tick's updateOne matches iff the ticket exists, and then sets its status, progress and start |
| `ProgressHub.BuildChargingProgressKey` | src/realtime/charging-progress.ts:45-47 | the key is the user id, a colon, then the station id |
| `ProgressHub.FirstColonOfKey` | src/realtime/charging-progress.ts:45-47 | for a user id without a colon, the key's first colon sits right after the user id |
| `ProgressHub.ProgressKeyInjective` | src/realtime/charging-progress.ts:45-47 | keys of colon-free user ids name one (user, station) pair each |
| `ProgressHub.Added` | src/realtime/charging-progress.ts:23-31 | the key's set gains the socket, and is created if absent; other keys are untouched |
| `ProgressHub.Removed` | src/realtime/charging-progress.ts:33-43 | the socket leaves the key's set and the key goes when the set empties; an absent key is a no-op; other keys are untouched |
| `ProgressHub.Survivors` | src/realtime/charging-progress.ts:59-70 | the sockets kept by a broadcast are exactly those that are OPEN and whose send does not throw when it runs |
| `ProgressHub.Broadcasted` | src/realtime/charging-progress.ts:49-75 | a broadcast leaves an absent key alone, keeps the survivors under the sockets' current state, and deletes the key when none survives |
| `ProgressHub.RegistryKeepsNoEmptySets` | src/realtime/charging-progress.ts:23-75 | add, remove and broadcast all keep every key's set non-empty |
| `ProgressHub.AddThenRemoveRestores` | src/realtime/charging-progress.ts:23-43 | adding a socket that was not subscribed and removing it again restores the registry |
| `ProgressHub.BroadcastIdempotent` | src/realtime/charging-progress.ts:49-75 | while no socket changes state, a second broadcast to the same key prunes nothing more |
| `ProgressHub.ClosedSubscriberPruned` | src/realtime/charging-progress.ts:59-70 | a socket that subscribed and then closed, or whose send now throws, is dropped by the next broadcast, and the others that still deliver stay |
| `ProgressHub.ToStringOf` | src/realtime/charging-progress.ts:116-121 | `x?.toString?.()`: undefined for a missing value, a string as itself, an object's own toString |
| `ProgressHub.ProgressRefId` | src/realtime/charging-progress.ts:117-121 | `x?.toString?.() ?? x?.id ?? x` is unresolved only for a missing value or an object with neither toString nor id |
| `ProgressHub.EnsureGuard` | src/realtime/charging-progress.ts:111-129 | a timer starts iff the ticket is IN_PROGRESS with a start, its ticket, user and station ids resolve non-empty, and no timer is registered for it |
| `ProgressHub.Registered` | src/realtime/charging-progress.ts:239-240 | registration maps the ticket to the new handle, which is then running |
| `ProgressHub.RegisterKeepsConsistent` | src/realtime/charging-progress.ts:239-240 | registering a fresh handle for a ticket without a timer keeps one running interval per registered ticket |
| `ProgressHub.RegistrationGapOrphansTimer` | src/realtime/charging-progress.ts:127-240 | two calls that both pass the guard before either registers leave the first interval running with no entry that could clear it |
| `ProgressHub.TickKindFor` | src/realtime/charging-progress.ts:155-236 | complete iff progress reaches 100 and finalize succeeds; stop iff progress is below 100 and the update matched nothing; otherwise progress |
| `ProgressHub.Hub.AddSubscriber` | src/realtime/charging-progress.ts:23-31 | the registry becomes Added and the invariant is kept |
| `ProgressHub.Hub.RemoveSubscriber` | src/realtime/charging-progress.ts:33-43 | the registry becomes Removed and the invariant is kept |
| `ProgressHub.Hub.Broadcast` | src/realtime/charging-progress.ts:49-75 | the registry becomes Broadcasted; the message reached exactly the prior subscribers that are OPEN now and whose send did not throw, each once |
| `ProgressHub.Hub.ClearTimer` | src/realtime/charging-progress.ts:101-109 | the ticket's entry and its interval are gone; no entry is a no-op |
| `ProgressHub.Hub.EnsureChargingProgressTimer` | src/realtime/charging-progress.ts:111-242 | a timer is registered iff the guard passes and the payload build succeeds, under the ticket id, with the key, start and duration of the ticket; otherwise nothing changes |
| `ProgressHub.Hub.Tick` | src/realtime/charging-progress.ts:148-237 | the tick completes (finalize, broadcast, clear the timer and its interval), keeps its timer when finalize throws, stops without broadcasting and clears the timer when the update matched nothing, or persists and broadcasts progress, with the battery write only on a changed percentage |
| `Battery.ParseBatteryStatus` | src/services/vehicle-battery-service.ts:9-17 | isBatteryStatus accepts exactly the five status names |
| `Battery.StatusName` | src/services/vehicle-battery-service.ts:9-17 | the stored name of each status; StatusNameRoundTrip states that it parses back |
| `Battery.StatusNameRoundTrip` | src/services/vehicle-battery-service.ts:9-17 | a stored status name reads back as that status |
| `Battery.CalculateBatteryStatus` | src/services/vehicle-battery-service.ts:65-79 | FULL iff at least 80, HIGH iff 60-79, MEDIUM iff 40-59, LOW iff 20-39, CRITICAL below 20 |
| `Battery.StatusMonotone` | src/services/vehicle-battery-service.ts:65-79 | a fuller battery never has a lower tier |
| `Battery.ClampBatteryPercent` | src/services/vehicle-battery-service.ts:19-25 | the result lies in [0, 100]; a non-finite value gives 100; otherwise the value rounded to within a half, or the nearer bound |
| `Battery.ClampWhole` | src/services/vehicle-battery-service.ts:19-25 | on an integer the clamp is Math.min(100, Math.max(0, n)) |
| `Battery.ResolveVehicleId` | src/services/vehicle-battery-service.ts:44-63 | a string `id`, else a string `_id`, else an object `_id`'s toString, else null |
| `Battery.CurrentPercent` | src/services/vehicle-battery-service.ts:126-130 | the current percent lies in [0, 100] and is 100 when the stored value is not a number |
| `Battery.NormalizedStatus` | src/services/vehicle-battery-service.ts:132-137 | a valid stored status is kept as it is stored; otherwise the tier of the current percent |
| `Battery.Drains` | src/services/vehicle-battery-service.ts:139-148 | the drain condition: active, not CHARGING, with a valid stamp; DrainSteps and NoDrainKeepsValues state its effect |
| `Battery.DrainSteps` | src/services/vehicle-battery-service.ts:148-151 | whole ticks are counted only for an active, not CHARGING vehicle with a valid stamp |
| `Battery.NextFields` | src/services/vehicle-battery-service.ts:143-164 | the new percent lies in [0, 100] and the new status is always the tier of the new percent |
| `Battery.UpdateNeeded` | src/services/vehicle-battery-service.ts:169-173 | the four reasons to write; BatteryUpdateOf states that an update is returned exactly when one holds |
| `Battery.BatteryUpdateOf` | src/services/vehicle-battery-service.ts:122-191 | the snapshot carries the new fields, and an update is returned iff one of the four write reasons holds |
| `Battery.DrainByWholeTicks` | src/services/vehicle-battery-service.ts:148-158 | after at least one tick, the percent is max(0, current - 5 * ticks) and the stamp advances by whole ticks to less than one tick before now |
| `Battery.NoDrainKeepsValues` | src/services/vehicle-battery-service.ts:143-164 | an inactive or CHARGING vehicle, or one stamped less than a tick ago, keeps its percent and stamp; a missing stamp becomes now |
| `Battery.SecondBuildWritesNothing` | src/services/vehicle-battery-service.ts:169-188 | building again from the refreshed snapshot at the same time changes nothing and writes nothing |
| `Battery.BuildBatteryUpdate` | src/services/vehicle-battery-service.ts:122-191 | the method with its reassigned locals returns BatteryUpdateOf |
| `Battery.WritesFor` | src/services/vehicle-battery-service.ts:205-216 | there are never more writes than snapshots |
| `Battery.WriteOfUpdate` | src/services/vehicle-battery-service.ts:206-216 | a snapshot is written iff it has an update and a resolvable id, under that id with that update |
| `Battery.WritesForStep` | src/services/vehicle-battery-service.ts:205-216 | each snapshot appends its own write, if any, after those of the snapshots before it |
| `Battery.WritesForExactly` | src/services/vehicle-battery-service.ts:205-216 | the writes are exactly those of the snapshots that need one |
| `Battery.RefreshVehicleBatterySnapshots` | src/services/vehicle-battery-service.ts:193-226 | one refreshed snapshot per input, in order, [] for no input, and exactly the writes of WritesFor |
| `Battery.RefreshVehicleBatterySnapshot` | src/services/vehicle-battery-service.ts:228-237 | null for no snapshot, else its refreshed snapshot and at most its one write |
| `Battery.EnsureBatteryDefaults` | src/services/vehicle-battery-service.ts:81-120 | every stored vehicle gets its defaults, one result per vehicle |
| `Battery.BatteryDefaults` | src/services/vehicle-battery-service.ts:81-115 | one vehicle's defaults: afterwards it has a percent, a stamp and a status; BatteryDefaultsEffect states the values |
| `Battery.BatteryDefaultsEffect` | src/services/vehicle-battery-service.ts:81-120 | afterwards all three fields exist; one without status gets a clamped percent and its tier; existing status and stamp are kept; a second run changes nothing |
| `History.ClampPercent` | src/services/charging-history-service.ts:40-46 | null iff non-finite; otherwise in [0, 100], the rounded value or the nearer bound |
| `History.NormalizePercent` | src/services/charging-history-service.ts:48-54 | null for a non-number, else clampPercent |
| `History.NormalizeDurationMs` | src/services/charging-history-service.ts:56-62 | present iff a finite number; then never negative and the rounded value for a positive input |
| `History.ResolveConnectorType` | src/services/charging-history-service.ts:81-87 | only "CCS2", "Type2" and "CHAdeMO" survive |
| `History.SnapshotInfo` | src/services/charging-history-service.ts:110-112 | resolveSnapshotInfo keeps the info value exactly when it is an object |
| `History.ResolveSnapshotId` | src/services/charging-history-service.ts:89-108 | the direct reference when it resolves non-empty; else resolveId of the raw info value: a non-empty string itself, an object's id, otherwise null |
| `History.EntryFor` | src/services/charging-history-service.ts:114-167 | no entry iff the user id, snapshot or outcome is missing or the ticket id does not resolve; the entry carries user, outcome and ticket id, and an invalid end date falls back to now |
| `History.RecordOutcome` | src/services/charging-history-service.ts:114-180 | a call records iff there is an entry, its ticket id is not stored and the save does not fail, and then appends exactly that entry; it rethrows iff only the save fails; otherwise null; the rows change only when it records |
| `History.EntryWellFormed` | src/services/charging-history-service.ts:160-166 | the stored percent fields are absent or in [0, 100] and a duration is never negative |
| `History.Matching` | src/services/charging-history-service.ts:190-191 | the query keeps exactly the user's rows that ended at or after `since` |
| `History.InsertByEnded` | src/services/charging-history-service.ts:196 | insertion keeps the rows sorted by end time, latest first, and adds exactly the one row |
| `History.ConsSorted` | src/services/charging-history-service.ts:196 | a row that ended no earlier than the head can go in front of a sorted sequence |
| `History.SortByEndedDesc` | src/services/charging-history-service.ts:196 | `.sort({ endedAt: -1 })` is a permutation sorted latest first |
| `History.FetchChargingHistoryForUser` | src/services/charging-history-service.ts:182-198 | [] for an empty user id; otherwise a permutation of the matching rows, latest first |
| `History.FetchExactly` | src/services/charging-history-service.ts:182-198 | the fetched rows are exactly the user's rows since `since` |
| `History.HistoryStore.RecordChargingHistory` | src/services/charging-history-service.ts:114-180 | the result and the new rows are RecordOutcome's: null and no write without an entry or for a duplicate ticket id; other save errors rethrown with no write; otherwise the entry is appended; ticket ids stay unique and old rows stay |
| `History.HistoryStore.FetchForUser` | src/services/charging-history-service.ts:182-198 | returns FetchChargingHistoryForUser of the stored rows |
| `History.SecondRecordIsDuplicate` | src/services/charging-history-service.ts:169-177 | recording the same session a second time, at any time and whatever the save fault, returns null and leaves the rows of the first call, in which exactly one row has the ticket id |
| `RateLimit.LeadingDigits` | src/middleware/rateLimit.ts:9 | the longest run of digits at the start of the string |
| `RateLimit.ParseIntReads` | src/middleware/rateLimit.ts:9 | NaN iff no digit follows the leading white space and one optional sign; otherwise the decimal value of the digit run there, negated after a minus sign |
| `RateLimit.ParseInt` | src/middleware/rateLimit.ts:9 | Number.parseInt(s, 10): the sign-and-digits parse after the leading white space; what it reads is stated by ParseIntReads |
| `RateLimit.ParseSigned` | src/middleware/rateLimit.ts:9 | the sign-and-digits part of parseInt; ParseIntReads states its result |
| `RateLimit.DecimalValueOfNatString` | src/middleware/rateLimit.ts:9 | decimal digits read back as their number |
| `RateLimit.LeadingDigitsOfDigits` | src/middleware/rateLimit.ts:9 | a digit string followed by a non-digit is the digit run |
| `RateLimit.ParseIntOfDigits` | src/middleware/rateLimit.ts:9 | parseInt of digits then a non-digit is their value |
| `RateLimit.ParseIntOfNegativeDigits` | src/middleware/rateLimit.ts:9 | parseInt of a minus sign, digits, then a non-digit is the negated value |
| `RateLimit.ParseIntOfPlusDigits` | src/middleware/rateLimit.ts:9 | parseInt of a plus sign, digits, then a non-digit is their value |
| `RateLimit.ParseIntSkipsSpace` | src/middleware/rateLimit.ts:9 | a leading white-space character does not change the parse |
| `RateLimit.ParseIntOfIntString` | src/middleware/rateLimit.ts:8-11 | parseInt reads back String(n) followed by anything not starting with a digit |
| `RateLimit.ParsePositiveInt` | src/middleware/rateLimit.ts:8-11 | the parsed value when it is positive, else the fallback; a missing value gives the fallback |
| `RateLimit.ResolveLimitValue` | src/middleware/rateLimit.ts:47-51 | a finite positive option, else the fallback |
| `RateLimit.FirstField` | src/middleware/rateLimit.ts:36 | `split(",")[0]` is the prefix before the first comma |
| `RateLimit.ResolveClientKey` | src/middleware/rateLimit.ts:28-39 | "user:" and the user id when there is one; else "ip:" and the forwarded or request address; else "ip:unknown" |
| `RateLimit.RequestUserId` | src/middleware/rateLimit.ts:29 | `req.user?.id ?? req.session?.user?.id`: the request user's id when present, even an empty one, else the session user's |
| `RateLimit.RequestIp` | src/middleware/rateLimit.ts:34-36 | with a forwarded header, a comma-free entry without white space at either end; otherwise req.ip |
| `RateLimit.RedisKey` | src/middleware/rateLimit.ts:70-72 | the prefix, a colon, the client key, a colon, then the route key, stated by position |
| `RateLimit.UserAndIpKeysDiffer` | src/middleware/rateLimit.ts:28-39 | a signed-in user and an anonymous client never share a client key |
| `RateLimit.ForwardedFirstEntry` | src/middleware/rateLimit.ts:34-36 | only the first forwarded entry counts, trimmed |
| `RateLimit.FirstFieldBeforeComma` | src/middleware/rateLimit.ts:36 | the first field of `first + "," + rest` is `first` |
| `RateLimit.ResolveRouteKey` | src/middleware/rateLimit.ts:41-45 | the route key starts with the method and a colon |
| `RateLimit.KeyPrefix` | src/middleware/rateLimit.ts:59 | "rate:" and the option when one is given, else "rate" |
| `RateLimit.CreateLimiter` | src/middleware/rateLimit.ts:13-59 | window and max are positive; a finite positive option wins; otherwise the setting is ParsePositiveInt of RATE_LIMIT_WINDOW_MS / RATE_LIMIT_MAX with fallback 60000 / 60; the prefix is KeyPrefix |
| `RateLimit.Incr` | src/middleware/rateLimit.ts:75 | INCR adds one to a live counter and starts an expired or missing one at 1 |
| `RateLimit.Hit` | src/middleware/rateLimit.ts:75-78 | the count is at least 1, and a count of 1 gets the expiry now plus the window |
| `RateLimit.Pttl` | src/middleware/rateLimit.ts:85 | -1 for a counter without expiry; otherwise the time left until the expiry, positive iff the counter is live |
| `RateLimit.Hits` | src/middleware/rateLimit.ts:75-78 | no hits leave the counter as it was; any hit leaves a counter |
| `RateLimit.CeilDiv` | src/middleware/rateLimit.ts:90 | Math.ceil(a / b) is the least q with a at most q * b |
| `RateLimit.Remaining` | src/middleware/rateLimit.ts:80 | max(0, max - count) |
| `RateLimit.Decide` | src/middleware/rateLimit.ts:80-101 | 429 iff the count exceeds max; Retry-After and X-RateLimit-Reset only when the ttl is positive, ceil(ttl / 1000) and ceil((now + ttl) / 1000) |
| `RateLimit.HitsWithinWindow` | src/middleware/rateLimit.ts:75-78 | within one window the k-th hit counts k and the expiry stays that of the first hit |
| `RateLimit.ExactlyMaxPerWindow` | src/middleware/rateLimit.ts:80-101 | the k-th request of a window is admitted iff k is at most max |
| `RateLimit.WindowResets` | src/middleware/rateLimit.ts:75-78 | once the expiry has passed, the next hit opens a new window |
| `RateLimit.LostExpiryNeverResets` | src/middleware/rateLimit.ts:75-78 | a counter whose first PEXPIRE failed never expires: past max, every later request is refused with no Retry-After |
| `RateLimit.RateStore.Handle` | src/middleware/rateLimit.ts:61-107 | OPTIONS and a closed store pass without counting; otherwise the counter is hit and the request decided by Decide; a store error lets the request through |
| `ImagePaths.PadStart2` | src/utils/image-paths.ts:9 | padStart(2, "0") keeps two or more characters and left-pads shorter ones with zeros to two |
| `ImagePaths.ImageUploadDir` | src/utils/image-paths.ts:7-11 | uploads/images/<year>/<MM>, MM the month number with two digits; an Invalid Date gives NaN/NaN |
| `ImagePaths.UploadSubdir` | src/utils/image-paths.ts:8-10 | the year, a slash and the two-digit month number; NaN/NaN for an Invalid Date |
| `ImagePaths.Collapse` | src/utils/image-paths.ts:16 | the segment walk of path.posix.normalize keeps a normalised shape: no empty or "." segment, and every ".." before all other segments |
| `ImagePaths.PublicImagePathFromFile` | src/utils/image-paths.ts:13-17 | path.posix.join of the root, the destination's segments and the file name; what it gives for a stored upload is stated by UploadedFileIsPublic and JoinPlainFile |
| `ImagePaths.UploadedFileIsPublic` | src/utils/image-paths.ts:7-17 | a file stored in the upload dir is served at that dir plus its name, which the delete guard accepts |
| `ImagePaths.JoinPlainFile` | src/utils/image-paths.ts:16 | joining the root, two plain segments and a plain filename concatenates them with "/" |
| `ImagePaths.ParentSegmentsLeaveTheRoot` | src/utils/image-paths.ts:13-17 | a destination two levels above the upload root climbs out of uploads/images altogether |
| `ImagePaths.NormalizePublicPath` | src/utils/image-paths.ts:19-20 | every backslash becomes a slash, and nothing else changes |
| `ImagePaths.NormalizeIdempotent` | src/utils/image-paths.ts:19-20 | the result holds no backslash and normalising again changes nothing |
| `ImagePaths.ReadsAsNormalized` | src/utils/image-paths.ts:19-26 | for a prefix without backslashes, the normalised path starts with it iff the path does, reading a backslash as a slash |
| `ImagePaths.IsImagePublicPath` | src/utils/image-paths.ts:22-28 | public iff the path begins with the characters uploads/images or /uploads/images, any backslash among them read as a slash |
| `ImagePaths.UnderRootIsPublic` | src/utils/image-paths.ts:22-28 | anything that starts with the characters uploads/images, with or without a leading slash, is public |
| `ImagePaths.BackslashesCountAsSlashes` | src/utils/image-paths.ts:22-28 | a path is public iff its normalised form is |
| `ImagePaths.RelativeImagePath` | src/utils/image-paths.ts:30-36 | the normalised path without one leading slash |
| `ImagePaths.OnlyOneSlashStripped` | src/utils/image-paths.ts:30-36 | a path starting with two slashes keeps one |
| `ImagePaths.DeleteTarget` | src/utils/image-paths.ts:38-44 | the delete touches a file iff the path is public, and then the relative image path |
| `ImagePaths.DeleteTargetUnderRoot` | src/utils/image-paths.ts:38-44 | the relative path the guard hands to path.resolve starts with the characters uploads/images (its `..` segments can still resolve outside the upload root) |
| `SeedStations.StationKey` | src/startup/ensure-stations.ts:6-8 | the key is the name, a bar, then the address |
| `SeedStations.KeyOf` | src/startup/ensure-stations.ts:17-23 | the key of a stored or seed station, StationKey of its name and address |
| `SeedStations.KeyCanCollide` | src/startup/ensure-stations.ts:6-8 | ("A\|B", "C") and ("A", "B\|C") have the same key |
| `SeedStations.KeyInjectiveWithoutBar` | src/startup/ensure-stations.ts:6-8 | names without a bar give distinct keys to distinct stations |
| `SeedStations.ExistingKeys` | src/startup/ensure-stations.ts:17-19 | the key set is exactly the keys of the stored stations |
| `SeedStations.ToInsert` | src/startup/ensure-stations.ts:21-23 | no inserted document's key is already stored |
| `SeedStations.ToInsertExactly` | src/startup/ensure-stations.ts:21-23 | the inserted documents are exactly the seeds' stations whose key is absent |
| `SeedStations.ToInsertAppend` | src/startup/ensure-stations.ts:21-23 | the filter keeps seed order |
| `SeedStations.AllPresentInsertsNothing` | src/startup/ensure-stations.ts:25-28 | nothing is inserted when every seed key exists |
| `SeedStations.SeedDuplicatesBothInserted` | src/startup/ensure-stations.ts:17-23 | two seeds sharing a key that is not stored are both inserted |
| `SeedStations.StationCollection.EnsureStationsSeeded` | src/startup/ensure-stations.ts:10-35 | the missing seeds are appended after the stored stations; the returned `inserted` stands for the count the source only logs (it returns nothing); an error leaves the collection as it was |
| `SeedStations.RerunInsertsNothing` | src/startup/ensure-stations.ts:17-30 | after a run a rerun inserts nothing, and the stations stored before come first, unchanged |
| `AdminUpdate.ViewOf` | src/controllers/admin-controllers.ts:84-91 | the response has every user field except the password |
| `AdminUpdate.MergeFields` | src/controllers/admin-controllers.ts:56-76 | name and region are copied only from strings, the role only from "admin" or "user", the password only as the hash of a string |
| `AdminUpdate.UpdateUserOutcome` | src/controllers/admin-controllers.ts:17-92 | 422 for failed request checks, 500 on a failed lookup, 404 for a missing user, 422 for a taken email, no change on any failure; an update changes only that user |
| `AdminUpdate.UpdateKeepsEmailsUnique` | src/controllers/admin-controllers.ts:39-54 | an update keeps every email unique |
| `AdminUpdate.UpdateUser` | src/controllers/admin-controllers.ts:17-92 | the field-by-field method yields UpdateUserOutcome's response and table |
| `EnsureAdmin.GetAdminSeedConfig` | src/startup/ensure-admin.ts:11-25 | no config iff email or password is unset or empty; name defaults to "Admin", region to "" |
| `EnsureAdmin.Promote` | src/startup/ensure-admin.ts:46-52 | the user becomes an admin, nothing else changes, an admin exists |
| `EnsureAdmin.NewAdmin` | src/startup/ensure-admin.ts:54-61 | the new admin has the seed name, email and region, and the hashed password |
| `EnsureAdmin.Create` | src/startup/ensure-admin.ts:54-64 | exactly one user is added, the new admin, and emails stay unique |
| `EnsureAdmin.EnsureAdminUser` | src/startup/ensure-admin.ts:27-68 | nothing changes when an admin exists or there is no config; otherwise the user with the seed email is promoted, or a new admin is created; without an error an admin exists afterwards |

## Left out

- The WebSocket upgrade, URL and session parsing and the connection handler (src/realtime/charging-progress.ts:245-400). These are network plumbing.
- Real timers, the interleaving of asynchronous ticks, and clocks. An interval is a handle, and the time is the `nowMs` parameter. `RegistrationGapOrphansTimer` shows what the gap between the guard and the registration allows; "at most one timer per ticket" is proved only for calls that run to completion one after another.
- `appendChargingBatteryPercentage`, `resolveChargingDurationMs*` and `updateVehicleBatteryPercentage`. They are called but not part of this model: a battery write is recorded as a value, the duration and battery percentage are parameters, and their effects are not modelled.
- MongoDB's choice of the `$` target. The model takes the first connector of the requested type.
- Bulk-write and insert mechanics: partial failure of `bulkWrite` and `insertMany` with `ordered: false`. A write is all or nothing.
- `Battery.RefreshVehicleBatterySnapshots` and `Battery.EnsureBatteryDefaults`: a `bulkWrite` that rejects outright makes both throw; the model has no fault for it, and returns the writes the call attempts.
- Floating point. Percentages and times are integers or reals with exact `Math.round`. A non-finite number is only a tag. `Whole` holds integers only, so a fractional delta or limiter option (0.5, which `Number.isFinite` accepts) is not expressible.
- bcrypt, express-validator, multer, Redis and session setup, and Node's `path.relative`, `path.resolve` and `fs.unlink`. They are parameters, or left out.
- Windows path separators. `path.join` is taken to be the POSIX one.
- getPublicImagePathFromFile's `relativeDest` is taken as given, since path.relative is not part of this model.
- Console logging.
- The log and swallow of errors in the startup tasks. A swallowed error is a fault parameter that leaves the collection unchanged.
- The other route handlers and the application wiring.
- The seed station data (src/startup/data/stations.ts) and the backfill script.
- `RateLimit.ParsePositiveInt`: a digit run too long for a double makes JavaScript's parseInt give Infinity, which `Number.isFinite` rejects. The model reads the exact integer.
- `RateLimit.ResolveRouteKey`: the contract states only that the key begins with the method and a colon. The rest is the base URL and the path concatenated.
- `AdminUpdate.UpdateUserOutcome`: express-validator reads every request location for `check(...)`; the model reads only the body. A non-string email is checked, and sanitised, through its string form.
- `ChargingTickets.ProgressPercentFor`: an Invalid Date start gives 0, the corrected rule; the hub passes `new Date(ticket.startedAt)`, so a start that does not parse would meet the NaN of the as-written rule, whose propagation through the tick is not modelled.
- `ProgressHub.Hub.Tick`: the interval keeps firing after a failed finalize and the completed snapshot's fields are not modelled; only the broadcast message's kind and progress are.
- `Battery.ResolveVehicleId`: an `_id` object without a `toString` function is modelled as unresolved.
- `ChargingTickets.ChargingStore.AdjustStationConnectorAvailability`: never throws. The awaited MongoDB call propagates store errors and cast errors (an id that is not an ObjectId), which are not modelled; in the model such an id names nothing.
- `ChargingTickets.ChargingStore.SetVehicleChargingStatus`: never throws. The awaited MongoDB call propagates store errors and cast errors (an id that is not an ObjectId), which are not modelled; in the model such an id names nothing.
- `ChargingTickets.ChargingStore.SetActiveVehicleChargingStatus`: never throws. The awaited MongoDB call propagates store errors and cast errors (an id that is not an ObjectId), which are not modelled; in the model such an id names nothing.
- `ChargingTickets.ChargingStore.ClearChargingStatusForUserVehicles`: never throws. The awaited MongoDB call propagates store errors and cast errors (an id that is not an ObjectId), which are not modelled; in the model such an id names nothing.
- `ChargingTickets.ChargingStore.DeleteTicket`: never throws. The awaited MongoDB call propagates store errors and cast errors (an id that is not an ObjectId), which are not modelled; in the model such an id names nothing.
- `ChargingTickets.ChargingStore.PullTicketFromUser`: never throws. The awaited MongoDB call propagates store errors and cast errors (an id that is not an ObjectId), which are not modelled; in the model such an id names nothing.

## Findings

| source | as written | input that shows it | evidently intended | confidence | as-written member | corrected member |
|---|---|---|---|---|---|---|
| src/services/charging-ticket-service.ts:14-24 | `!startedAt` lets an Invalid Date through, so progress is NaN | `startedAt = new Date("x")` at any `now` | an Invalid Date counts as no start (progress 0), as calculateEstimatedCompletionAt already treats it | medium, not executed | `ChargingTickets.ProgressPercentAsWritten` | `ChargingTickets.ProgressPercent` |
| src/services/charging-ticket-service.ts:246-253 | the decrement filter tests `connectors.type` and `connectors.availablePorts > 0` on possibly different connectors | a station with CCS2 at 0 free ports and Type2 at 1, decremented for CCS2: the CCS2 counter goes to -1, or, if `$` points at the Type2 element, the Type2 counter is decremented instead | one `$elemMatch` condition, so only a connector of the type with a free port is decremented | high, not executed | `ChargingTickets.DecrementCanGoBelowZero` | `ChargingTickets.ElemMatchKeepsPortsNonNegative` |

The rest of the model uses `ProgressPercent`. The port counter keeps the filter as written. It is the only filter the finalisation path needs, because finalisation only increments, and on increments the two filters agree (`AdjustConnectorsElemMatch`).
