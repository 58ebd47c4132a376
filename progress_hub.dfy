/** The realtime progress hub (src/realtime/charging-progress.ts): the
    subscriber registry, the timer registry, the guard that starts a timer and
    the decision each tick takes. Sockets, timers and the clock are abstract:
    a socket is an identity whose readiness and send behaviour are read at
    broadcast time from a `SocketStates` parameter, a timer is an opaque
    handle, and the time is the `nowMs` parameter. */
module ProgressHub {
  import opened Common
  import opened Ids
  import opened ChargingTickets

  /** CHARGING_PROGRESS_TICK_MS: the interval between ticks. */
  const ChargingProgressTickMs: int := 5000

  /** A socket, by identity (the registry's sets hold socket objects). */
  datatype Socket = Socket(id: nat)

  /** The sockets' state when a broadcast runs: those whose readyState is
      OPEN, and those whose `send` throws. A socket can close at any time
      after it subscribed. */
  datatype SocketStates = SocketStates(open: set<Socket>, sendThrows: set<Socket>)

  /** The handle setInterval returns. */
  datatype TimerHandle = TimerHandle(n: nat)

  /** What a tick broadcasts: `{ type: "progress", ticket }` with the
      snapshot's progress, or `{ type: "completed", ticket: null, completedTicket }`. */
  datatype Message = ProgressMessage(progressPercent: int) | CompletedMessage(completedAtMs: int)

  /** buildChargingProgressKey: `${userId}:${stationId}`. */
  function BuildChargingProgressKey(userId: string, stationId: string): (k: string)
    ensures |k| == |userId| + 1 + |stationId|
    ensures k[..|userId|] == userId && k[|userId|] == ':' && k[|userId| + 1..] == stationId
  {
    userId + ":" + stationId
  }

  /** In the key of a user id without a colon, the first colon sits right after the user id. */
  lemma FirstColonOfKey(userId: string, stationId: string)
    requires ':' !in userId
    ensures var k := BuildChargingProgressKey(userId, stationId);
            k[|userId|] == ':' && forall i :: 0 <= i < |userId| ==> k[i] != ':'
  {
    var k := BuildChargingProgressKey(userId, stationId);
    forall i | 0 <= i < |userId| ensures k[i] != ':' {
      assert k[i] == k[..|userId|][i] == userId[i];
    }
  }

  /** Keys of user ids without a colon name one (user, station) pair each. */
  lemma {:induction false} ProgressKeyInjective(u1: string, s1: string, u2: string, s2: string)
    requires ':' !in u1 && ':' !in u2
    requires BuildChargingProgressKey(u1, s1) == BuildChargingProgressKey(u2, s2)
    ensures u1 == u2 && s1 == s2
  {
    FirstColonOfKey(u1, s1);
    FirstColonOfKey(u2, s2);
    assert |u1| == |u2|;
  }

  // ------------------------------------------------------------------
  // Subscriber registry
  // ------------------------------------------------------------------

  /** The registry invariant: no key maps to an empty set. */
  ghost predicate NoEmptySets(subs: map<string, set<Socket>>)
  {
    forall k :: k in subs ==> subs[k] != {}
  }

  /** addChargingProgressSubscriber. */
  function Added(subs: map<string, set<Socket>>, key: string, ws: Socket): (r: map<string, set<Socket>>)
    ensures r.Keys == subs.Keys + {key}
    ensures forall w :: w in r[key] <==> w == ws || (key in subs && w in subs[key])
    ensures forall k :: k in subs && k != key ==> r[k] == subs[k]
  {
    if key in subs then subs[key := subs[key] + {ws}] else subs[key := {ws}]
  }

  /** removeChargingProgressSubscriber. */
  function Removed(subs: map<string, set<Socket>>, key: string, ws: Socket): (r: map<string, set<Socket>>)
    ensures key !in subs ==> r == subs
    ensures key in subs ==>
              (subs[key] - {ws} == {} ==> r == subs - {key})
              && (subs[key] - {ws} != {} ==> key in r && (forall w :: w in r[key] <==> w in subs[key] && w != ws))
    ensures forall k :: k in subs && k != key ==> k in r && r[k] == subs[k]
    ensures r.Keys <= subs.Keys
  {
    if key !in subs then subs
    else
      var rest := subs[key] - {ws};
      if rest == {} then subs - {key} else subs[key := rest]
  }

  /** A socket delivers a message when it is OPEN and its send does not throw. */
  predicate Delivers(ws: Socket, st: SocketStates) { ws in st.open && ws !in st.sendThrows }

  function Survivors(s: set<Socket>, st: SocketStates): (r: set<Socket>)
    ensures r <= s
    ensures forall ws :: ws in r <==> ws in s && Delivers(ws, st)
  {
    set ws | ws in s && Delivers(ws, st)
  }

  /** broadcastChargingProgress: the registry after pruning. */
  function Broadcasted(subs: map<string, set<Socket>>, key: string, st: SocketStates): (r: map<string, set<Socket>>)
    ensures key !in subs ==> r == subs
    ensures key in subs && Survivors(subs[key], st) == {} ==> r == subs - {key}
    ensures key in subs && Survivors(subs[key], st) != {} ==> r == subs[key := Survivors(subs[key], st)]
  {
    if key !in subs then subs
    else if Survivors(subs[key], st) == {} then subs - {key}
    else subs[key := Survivors(subs[key], st)]
  }

  /** Add, remove and broadcast all keep every key's set non-empty. */
  lemma RegistryKeepsNoEmptySets(subs: map<string, set<Socket>>, key: string, ws: Socket, st: SocketStates)
    requires NoEmptySets(subs)
    ensures NoEmptySets(Added(subs, key, ws))
    ensures NoEmptySets(Removed(subs, key, ws))
    ensures NoEmptySets(Broadcasted(subs, key, st))
  {
    assert ws in Added(subs, key, ws)[key];
  }

  /** Adding a socket that was not subscribed and removing it again restores the registry. */
  lemma AddThenRemoveRestores(subs: map<string, set<Socket>>, key: string, ws: Socket)
    requires NoEmptySets(subs)
    requires key in subs ==> ws !in subs[key]
    ensures Removed(Added(subs, key, ws), key, ws) == subs
  {
    var a := Added(subs, key, ws);
    if key in subs {
      assert a[key] - {ws} == subs[key];
    } else {
      assert a[key] - {ws} == {};
    }
  }

  /** While no socket changes state, a second broadcast to the same key
      reaches everyone the first reached and prunes nothing more. */
  lemma BroadcastIdempotent(subs: map<string, set<Socket>>, key: string, st: SocketStates)
    ensures Broadcasted(Broadcasted(subs, key, st), key, st) == Broadcasted(subs, key, st)
  {
    if key in subs && Survivors(subs[key], st) != {} {
      assert Survivors(Survivors(subs[key], st), st) == Survivors(subs[key], st);
    }
  }

  /** A socket that subscribed and then closed (or whose send now throws) is
      pruned by the next broadcast to its key, and the others that still
      deliver stay subscribed. */
  lemma ClosedSubscriberPruned(subs: map<string, set<Socket>>, key: string, ws: Socket, st: SocketStates)
    requires !Delivers(ws, st)
    ensures var r := Broadcasted(Added(subs, key, ws), key, st);
            && (key in r ==> ws !in r[key])
            && (forall w :: key in subs && w in subs[key] && Delivers(w, st) ==> key in r && w in r[key])
  {
    var a := Added(subs, key, ws);
    forall w | key in subs && w in subs[key] && Delivers(w, st)
      ensures key in Broadcasted(a, key, st) && w in Broadcasted(a, key, st)[key]
    {
      assert w in Survivors(a[key], st);
    }
  }

  // ------------------------------------------------------------------
  // Timer registry and the start guard
  // ------------------------------------------------------------------

  /** The timer registry is consistent: the intervals still scheduled are
      exactly the registered handles, one per ticket. */
  ghost predicate TimersConsistent(timers: map<string, TimerHandle>, running: set<TimerHandle>)
  {
    running == timers.Values
    && forall a, b :: a in timers && b in timers && a != b ==> timers[a] != timers[b]
  }

  /** `x?.toString?.()`: a string is itself, an object gives its own
      `toString()` result, and undefined or null give undefined (`None`). */
  function ToStringOf(v: IdRef): (r: Option<string>)
    ensures v.Absent? ==> r.None?
    ensures v.Text? ==> r == Some(v.s)
    ensures v.Record? ==> r == v.toText
  {
    match v
    case Absent => None
    case Text(s) => Some(s)
    case Record(_, _, toText) => toText
  }

  /** `x?.toString?.() ?? x?.id ?? x`, as the hub resolves the user, station
      and vehicle of a ticket. An object with neither `toString` nor a string
      `id` is left unresolved. */
  function ProgressRefId(v: IdRef): (r: Option<string>)
    ensures r.None? ==> v.Absent? || (v.Record? && v.toText.None? && v.id.None?)
    ensures v.Record? && v.toText.None? ==> r == v.id
    ensures v.Text? ==> r == Some(v.s)
  {
    if ToStringOf(v).Some? then ToStringOf(v)
    else if v.Record? then v.id
    else None
  }

  /** What ensureChargingProgressTimer reads from a ticket: `_id`, `id`, the
      three references, the charging status, `startedAt` and `progressPercent`. */
  datatype TimerTicket = TimerTicket(
    rawId: IdRef,
    idField: Option<string>,
    user: IdRef,
    station: IdRef,
    vehicle: IdRef,
    chargingStatus: Option<ChargingStatus>,
    startedAt: Option<Date>,
    progressPercent: Option<int>)

  datatype TimerIds = TimerIds(ticketId: string, userId: string, stationId: string, vehicleId: Option<string>)

  /** The ticket id, `_id?.toString?.() ?? ticket.id`. */
  function TimerTicketId(t: TimerTicket): Option<string>
  {
    if ToStringOf(t.rawId).Some? then ToStringOf(t.rawId) else t.idField
  }

  /** The guard of ensureChargingProgressTimer: a ticket that is IN_PROGRESS
      with a `startedAt`, whose ticket, user and station ids resolve to
      non-empty strings, and which has no registered timer. */
  function EnsureGuard(ticket: Option<TimerTicket>, timers: map<string, TimerHandle>): (r: Option<TimerIds>)
    ensures r.Some? <==>
              ticket.Some? && ticket.value.startedAt.Some? && ticket.value.chargingStatus == Some(InProgress)
              && Truthy(TimerTicketId(ticket.value)) && Truthy(ProgressRefId(ticket.value.user))
              && Truthy(ProgressRefId(ticket.value.station))
              && TimerTicketId(ticket.value).value !in timers
    ensures r.Some? ==> r.value.ticketId !in timers && r.value.ticketId != ""
                        && r.value.userId != "" && r.value.stationId != ""
                        && Some(r.value.ticketId) == TimerTicketId(ticket.value)
                        && Some(r.value.userId) == ProgressRefId(ticket.value.user)
                        && Some(r.value.stationId) == ProgressRefId(ticket.value.station)
                        && r.value.vehicleId == ProgressRefId(ticket.value.vehicle)
  {
    if ticket.None? then None
    else
      var t := ticket.value;
      var ticketId := TimerTicketId(t);
      var userId := ProgressRefId(t.user);
      var stationId := ProgressRefId(t.station);
      if t.startedAt.None? || t.chargingStatus != Some(InProgress) then None
      else if !Truthy(ticketId) || !Truthy(userId) || !Truthy(stationId) then None
      else if ticketId.value in timers then None
      else Some(TimerIds(ticketId.value, userId.value, stationId.value, ProgressRefId(t.vehicle)))
  }

  /** The registration chargingTimers.set(ticketId, intervalId) after the
      setInterval that created `h`. */
  function Registered(timers: map<string, TimerHandle>, running: set<TimerHandle>, ticketId: string, h: TimerHandle):
    (r: (map<string, TimerHandle>, set<TimerHandle>))
    ensures r.0 == timers[ticketId := h] && r.1 == running + {h}
  {
    (timers[ticketId := h], running + {h})
  }

  /** Registering a fresh interval for a ticket with no timer keeps the registry consistent. */
  lemma RegisterKeepsConsistent(timers: map<string, TimerHandle>, running: set<TimerHandle>, ticketId: string, h: TimerHandle)
    requires TimersConsistent(timers, running) && ticketId !in timers && h !in running
    ensures var r := Registered(timers, running, ticketId, h); TimersConsistent(r.0, r.1)
  {
    var r := Registered(timers, running, ticketId, h);
    assert r.0.Values == timers.Values + {h} by {
      forall x | x in r.0.Values ensures x in timers.Values + {h} {
        var k :| k in r.0 && r.0[k] == x;
        if k != ticketId { assert timers[k] == x; }
      }
      forall x | x in timers.Values + {h} ensures x in r.0.Values {
        if x != h {
          var k :| k in timers && timers[k] == x;
          assert r.0[k] == x;
        } else {
          assert r.0[ticketId] == h;
        }
      }
    }
  }

  /** The registration gap: the guard's test (the `has` check) and the
      registration are separated by an await, so two calls for the same
      ticket can both pass the guard. Their two registrations leave the first
      interval running with no entry that could clear it. */
  lemma {:induction false} RegistrationGapOrphansTimer(
    timers: map<string, TimerHandle>, running: set<TimerHandle>, ticket: TimerTicket, h1: TimerHandle, h2: TimerHandle)
    requires TimersConsistent(timers, running)
    requires EnsureGuard(Some(ticket), timers).Some?
    requires h1 != h2 && h1 !in running && h2 !in running
    ensures var id := EnsureGuard(Some(ticket), timers).value.ticketId;
            var first := Registered(timers, running, id, h1);
            var second := Registered(first.0, first.1, id, h2);
            && h1 in second.1 && h1 !in second.0.Values
            && !TimersConsistent(second.0, second.1)
  {
    var id := EnsureGuard(Some(ticket), timers).value.ticketId;
    var first := Registered(timers, running, id, h1);
    var second := Registered(first.0, first.1, id, h2);
    forall k | k in second.0 ensures second.0[k] != h1 {
      if k != id {
        assert timers[k] in running;
      }
    }
  }

  // ------------------------------------------------------------------
  // The tick decision
  // ------------------------------------------------------------------

  datatype UpdateResult = Matched | Unmatched | UpdateFailed

  datatype TickKind = Complete | FinalizeFailed | Stopped | Progressed

  /** A call of updateVehicleBatteryPercentage (its effect is not modelled). */
  datatype BatteryWrite = BatteryWrite(vehicleId: string, percent: int)

  datatype TickOutcome = TickOutcome(kind: TickKind, batteryWrite: Option<BatteryWrite>, message: Option<Message>, recipients: seq<Socket>)

  /** Which of the tick's paths is taken: completion at 100 (unless finalize
      throws), otherwise a stop when the update matched no ticket, otherwise
      a progress broadcast (a failed update is ignored). */
  function TickKindFor(progressPercent: int, finalizeFault: bool, update: UpdateResult): (k: TickKind)
    ensures k == Complete <==> progressPercent >= 100 && !finalizeFault
    ensures k == FinalizeFailed <==> progressPercent >= 100 && finalizeFault
    ensures k == Stopped <==> progressPercent < 100 && update == Unmatched
    ensures k == Progressed <==> progressPercent < 100 && update != Unmatched
  {
    if progressPercent >= 100 then (if finalizeFault then FinalizeFailed else Complete)
    else if update == Unmatched then Stopped
    else Progressed
  }

  /** The closure state of one ticket's interval: the resolved ids, the key,
      the start, the duration and the reassigned `ticketSnapshot` (of which
      only `progressPercent` is read). */
  class ChargingTimer {
    const ids: TimerIds
    const key: string
    const startedAt: Date
    const durationMs: int
    const handle: TimerHandle
    var snapshotProgress: Option<int>

    constructor (ids: TimerIds, startedAt: Date, durationMs: int, handle: TimerHandle, snapshotProgress: Option<int>)
      ensures this.ids == ids && this.key == BuildChargingProgressKey(ids.userId, ids.stationId)
      ensures this.startedAt == startedAt && this.durationMs == durationMs && this.handle == handle
      ensures this.snapshotProgress == snapshotProgress
    {
      this.ids := ids;
      this.key := BuildChargingProgressKey(ids.userId, ids.stationId);
      this.startedAt := startedAt;
      this.durationMs := durationMs;
      this.handle := handle;
      this.snapshotProgress := snapshotProgress;
    }
  }

  // ------------------------------------------------------------------
  // The hub
  // ------------------------------------------------------------------

  class Hub {
    var subscribers: map<string, set<Socket>>
    var timers: map<string, TimerHandle>
    /** The intervals the runtime still fires (setInterval called, clearInterval not yet). */
    var running: set<TimerHandle>

    ghost predicate Valid()
      reads this
    {
      NoEmptySets(subscribers) && TimersConsistent(timers, running)
    }

    constructor ()
      ensures Valid() && subscribers == map[] && timers == map[] && running == {}
    {
      subscribers := map[];
      timers := map[];
      running := {};
    }

    /** addChargingProgressSubscriber. */
    method AddSubscriber(key: string, ws: Socket)
      modifies this
      ensures subscribers == Added(old(subscribers), key, ws)
      ensures timers == old(timers) && running == old(running)
      ensures old(Valid()) ==> Valid()
    {
      if key in subscribers {
        subscribers := subscribers[key := subscribers[key] + {ws}];
        return;
      }
      subscribers := subscribers[key := {ws}];
      assert ws in subscribers[key];
    }

    /** removeChargingProgressSubscriber. */
    method RemoveSubscriber(key: string, ws: Socket)
      modifies this
      ensures subscribers == Removed(old(subscribers), key, ws)
      ensures timers == old(timers) && running == old(running)
      ensures old(Valid()) ==> Valid()
    {
      if key !in subscribers {
        return;
      }
      var existing := subscribers[key] - {ws};
      if existing == {} {
        subscribers := subscribers - {key};
      } else {
        subscribers := subscribers[key := existing];
      }
    }

    /** broadcastChargingProgress: visits each subscriber of the key once,
        drops those that are not OPEN or whose send throws, and deletes the
        key when none is left. `recipients` are the sockets the message
        reached, each once. */
    method Broadcast(key: string, st: SocketStates) returns (recipients: seq<Socket>)
      modifies this
      ensures subscribers == Broadcasted(old(subscribers), key, st)
      ensures timers == old(timers) && running == old(running)
      ensures key !in old(subscribers) ==> recipients == []
      ensures key in old(subscribers) ==>
                forall ws :: ws in recipients <==> ws in old(subscribers)[key] && Delivers(ws, st)
      ensures forall i, j :: 0 <= i < j < |recipients| ==> recipients[i] != recipients[j]
      ensures old(Valid()) ==> Valid()
    {
      recipients := [];
      if key !in subscribers {
        return;
      }
      var existing := subscribers[key];
      var pending := existing;
      var kept := existing;
      while pending != {}
        invariant pending <= kept <= existing
        invariant forall ws :: ws in kept <==> ws in pending || (ws in existing && Delivers(ws, st))
        invariant forall ws :: ws in recipients <==> ws in existing && ws !in pending && Delivers(ws, st)
        invariant forall i, j :: 0 <= i < j < |recipients| ==> recipients[i] != recipients[j]
        decreases |pending|
      {
        var ws :| ws in pending;
        pending := pending - {ws};
        if ws !in st.open || ws in st.sendThrows {
          kept := kept - {ws};
        } else {
          recipients := recipients + [ws];
        }
      }
      assert kept == Survivors(existing, st);
      if kept == {} {
        subscribers := subscribers - {key};
      } else {
        subscribers := subscribers[key := kept];
      }
    }

    /** clearChargingProgressTimer: clearInterval and delete; no-op without an entry. */
    method ClearTimer(ticketId: string)
      modifies this
      ensures timers == old(timers) - {ticketId}
      ensures running == (if ticketId in old(timers) then old(running) - {old(timers)[ticketId]} else old(running))
      ensures subscribers == old(subscribers)
      ensures old(Valid()) ==> Valid()
    {
      if ticketId !in timers {
        return;
      }
      ghost var t0 := timers;
      running := running - {timers[ticketId]};
      timers := timers - {ticketId};
      if TimersConsistent(t0, old(running)) {
        assert timers.Values == t0.Values - {t0[ticketId]} by {
          forall x | x in t0.Values - {t0[ticketId]} ensures x in timers.Values {
            var k :| k in t0 && t0[k] == x;
            assert k != ticketId;
            assert timers[k] == x;
          }
        }
      }
    }

    /** ensureChargingProgressTimer run to completion without interleaving:
        the guard, the awaited payload build (`fetchFault` when it throws),
        the duration resolved from the snapshot (`durationMs`), and the
        registration of the fresh interval `handle`. The first tick is the
        caller's next step. */
    method EnsureChargingProgressTimer(ticket: Option<TimerTicket>, fetchFault: bool, durationMs: int, handle: TimerHandle)
      returns (timer: ChargingTimer?)
      requires handle !in running
      modifies this
      ensures timer != null <==> EnsureGuard(ticket, old(timers)).Some? && !fetchFault
      ensures timer == null ==> timers == old(timers) && running == old(running)
      ensures timer != null ==>
                && fresh(timer)
                && timer.ids == EnsureGuard(ticket, old(timers)).value
                && timer.key == BuildChargingProgressKey(timer.ids.userId, timer.ids.stationId)
                && timer.startedAt == ticket.value.startedAt.value
                && timer.snapshotProgress == ticket.value.progressPercent
                && timer.handle == handle && timer.durationMs == durationMs
                && timers == old(timers)[timer.ids.ticketId := handle]
                && running == old(running) + {handle}
      ensures subscribers == old(subscribers)
      ensures old(Valid()) ==> Valid()
    {
      var ids := EnsureGuard(ticket, timers);
      if ids.None? || fetchFault {
        return null;
      }
      timer := new ChargingTimer(ids.value, ticket.value.startedAt.value, durationMs, handle, ticket.value.progressPercent);
      if Valid() {
        RegisterKeepsConsistent(timers, running, ids.value.ticketId, handle);
      }
      timers := timers[ids.value.ticketId := handle];
      running := running + {handle};
    }

    /** One tick of a ticket's interval at time `nowMs`. `finalizeFault` and
        `updateFault` are datastore errors of finalizeChargingTicket and of
        the progress update; `batteryFor` stands for the battery percentage
        appendChargingBatteryPercentage attaches at a given progress (`None`
        when it attaches no number); `sockets` is the subscribers' state when
        the tick broadcasts. */
    method Tick(timer: ChargingTimer, store: ChargingStore, nowMs: int, finalizeFault: bool, updateFault: bool,
                batteryFor: int -> Option<int>, sockets: SocketStates)
      returns (outcome: TickOutcome)
      modifies this, store, timer
      ensures var p := ProgressPercentFor(Some(timer.startedAt), nowMs, timer.durationMs);
              var update := if updateFault then UpdateFailed
                            else if timer.ids.ticketId in old(store.tickets) then Matched else Unmatched;
              && outcome.kind == TickKindFor(p, finalizeFault, update)
              && (outcome.kind == Complete ==>
                    && store.State() == Finalized(old(store.State()), timer.ids.ticketId, timer.ids.userId)
                    && subscribers == Broadcasted(old(subscribers), timer.key, sockets)
                    && timers == old(timers) - {timer.ids.ticketId}
                    && running == (if timer.ids.ticketId in old(timers)
                                   then old(running) - {old(timers)[timer.ids.ticketId]} else old(running))
                    && outcome.message == Some(CompletedMessage(nowMs))
                    && timer.snapshotProgress == old(timer.snapshotProgress)
                    && outcome.batteryWrite ==
                         (if Truthy(timer.ids.vehicleId) && batteryFor(100).Some?
                          then Some(BatteryWrite(timer.ids.vehicleId.value, batteryFor(100).value)) else None))
              && (outcome.kind == FinalizeFailed ==>
                    && store.State() == old(store.State())
                    && subscribers == old(subscribers) && timers == old(timers) && running == old(running)
                    && timer.snapshotProgress == old(timer.snapshotProgress)
                    && outcome.message.None? && outcome.batteryWrite.None?)
              && (outcome.kind == Stopped ==>
                    && store.State() == old(store.State())
                    && subscribers == old(subscribers)
                    && timers == old(timers) - {timer.ids.ticketId}
                    && running == (if timer.ids.ticketId in old(timers)
                                   then old(running) - {old(timers)[timer.ids.ticketId]} else old(running))
                    && timer.snapshotProgress == Some(p)
                    && outcome.message.None? && outcome.batteryWrite.None?)
              && (outcome.kind == Progressed ==>
                    && store.stations == old(store.stations) && store.users == old(store.users)
                    && store.vehicles == old(store.vehicles)
                    && store.tickets == (if updateFault then old(store.tickets)
                                         else old(store.tickets)[timer.ids.ticketId := old(store.tickets)[timer.ids.ticketId].(
                                           chargingStatus := Some(InProgress), progressPercent := Some(p),
                                           startedAt := Some(timer.startedAt))])
                    && subscribers == Broadcasted(old(subscribers), timer.key, sockets)
                    && timers == old(timers) && running == old(running)
                    && timer.snapshotProgress == Some(p)
                    && outcome.message == Some(ProgressMessage(p))
                    && outcome.batteryWrite ==
                         (if Truthy(timer.ids.vehicleId) && batteryFor(p).Some? && old(timer.snapshotProgress) != Some(p)
                          then Some(BatteryWrite(timer.ids.vehicleId.value, batteryFor(p).value)) else None))
      ensures outcome.kind in {Complete, Progressed} ==>
                var targets := old(subscribers);
                (timer.key !in targets ==> outcome.recipients == [])
                && (timer.key in targets ==> forall ws :: ws in outcome.recipients <==> ws in targets[timer.key] && Delivers(ws, sockets))
      ensures old(Valid()) ==> Valid()
    {
      var p := ProgressPercentFor(Some(timer.startedAt), nowMs, timer.durationMs);
      if p >= 100 {
        var completedBattery := batteryFor(100);
        var finalized := store.FinalizeChargingTicket(timer.ids.ticketId, timer.ids.userId, finalizeFault);
        if finalized == Aborted {
          return TickOutcome(FinalizeFailed, None, None, []);
        }
        var write := if Truthy(timer.ids.vehicleId) && completedBattery.Some?
                     then Some(BatteryWrite(timer.ids.vehicleId.value, completedBattery.value)) else None;
        var recipients := Broadcast(timer.key, sockets);
        ClearTimer(timer.ids.ticketId);
        return TickOutcome(Complete, write, Some(CompletedMessage(nowMs)), recipients);
      }
      var previous := timer.snapshotProgress;
      timer.snapshotProgress := Some(p);
      if !updateFault {
        var matched := store.UpdateTicketProgress(timer.ids.ticketId, p, timer.startedAt);
        if !matched {
          ClearTimer(timer.ids.ticketId);
          return TickOutcome(Stopped, None, None, []);
        }
      }
      var battery := batteryFor(p);
      var write := if Truthy(timer.ids.vehicleId) && battery.Some? && previous != Some(p)
                   then Some(BatteryWrite(timer.ids.vehicleId.value, battery.value)) else None;
      var recipients := Broadcast(timer.key, sockets);
      outcome := TickOutcome(Progressed, write, Some(ProgressMessage(p)), recipients);
    }
  }
}
