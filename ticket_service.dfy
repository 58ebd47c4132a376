/** The charging ticket service (src/services/charging-ticket-service.ts):
    time-derived progress, the estimated completion, the ticket payload, the
    connector port counters, the vehicle charging-status setters and the
    finalisation transaction, over an in-memory store. */
module ChargingTickets {
  import opened Common
  import opened Ids
  import opened Users

  /** CHARGING_DURATION_MS: five minutes. */
  const ChargingDurationMs: int := 5 * 60 * 1000

  // ------------------------------------------------------------------
  // Entities (src/models/station.ts, vehicle.ts, charging-ticket.ts)
  // ------------------------------------------------------------------

  datatype Connector = Connector(kind: string, powerKW: int, ports: int, availablePorts: int)

  datatype Station = Station(name: string, address: string, connectors: seq<Connector>)

  datatype VehicleChargingStatus = Idle | Charging

  datatype Vehicle = Vehicle(
    id: string,
    owner: string,
    active: bool,
    chargingStatus: VehicleChargingStatus,
    batteryPercent: int)

  datatype TicketStatus = Requested | Paid | Cancelled

  datatype ChargingStatus = NotStarted | InProgress | Completed

  /** A ticket document. The schema declares only user, station, connectorType
      and status; the fields other code reads (vehicle, chargingStatus,
      startedAt, progressPercent) are optional here. */
  datatype Ticket = Ticket(
    id: string,
    user: IdRef,
    station: IdRef,
    vehicle: IdRef,
    connectorType: Option<string>,
    status: TicketStatus,
    chargingStatus: Option<ChargingStatus>,
    startedAt: Option<Date>,
    progressPercent: Option<int>)

  /** The collections the service reads and writes. Vehicles are kept in
      `_id` order, which is insertion order. */
  datatype StoreState = StoreState(
    stations: map<string, Station>,
    tickets: map<string, Ticket>,
    users: map<string, User>,
    vehicles: seq<Vehicle>)

  // ------------------------------------------------------------------
  // Progress and estimated completion
  // ------------------------------------------------------------------

  /** Math.min(100, Math.max(0, Math.round((elapsedMs / durationMs) * 100))). */
  function ElapsedPercent(elapsedMs: int, durationMs: int): (r: int)
    requires durationMs > 0
    ensures 0 <= r <= 100
  {
    Clamp100(Round((elapsedMs as real / durationMs as real) * 100.0))
  }

  /** calculateChargingProgressPercent exactly as written. `None` is the NaN
      it returns for an Invalid Date: the `!startedAt` test lets an Invalid
      Date object through and every later step propagates NaN. */
  function ProgressPercentAsWritten(startedAt: Option<Date>, nowMs: int): (r: Option<int>)
    ensures r.None? <==> startedAt == Some(InvalidDate)
    ensures startedAt.None? ==> r == Some(0)
    ensures r.Some? ==> r == Some(ProgressPercent(startedAt, nowMs))
  {
    match startedAt
    case None => Some(0)
    case Some(InvalidDate) => None
    case Some(At(ms)) =>
      var elapsedMs := nowMs - ms;
      if elapsedMs <= 0 then Some(0) else Some(ElapsedPercent(elapsedMs, ChargingDurationMs))
  }

  /** calculateChargingProgressPercent, with an Invalid Date treated as a
      missing start (as calculateEstimatedCompletionAt treats it). */
  function ProgressPercent(startedAt: Option<Date>, nowMs: int): (r: int)
    ensures 0 <= r <= 100
    ensures startedAt.None? || startedAt == Some(InvalidDate) ==> r == 0
    ensures startedAt.Some? && startedAt.value.At? && nowMs <= startedAt.value.ms ==> r == 0
  {
    match startedAt
    case Some(At(ms)) =>
      var elapsedMs := nowMs - ms;
      if elapsedMs <= 0 then 0 else ElapsedPercent(elapsedMs, ChargingDurationMs)
    case _ => 0
  }

  /** The three-argument progress that the progress hub calls: the
      corrected two-argument rule (an Invalid Date start gives 0, not NaN)
      over an explicit duration. With a positive elapsed time, a zero
      duration makes the quotient +Infinity (progress 100) and a negative one
      makes it negative (progress 0). */
  function ProgressPercentFor(startedAt: Option<Date>, nowMs: int, durationMs: int): (r: int)
    ensures 0 <= r <= 100
    ensures startedAt.None? || startedAt == Some(InvalidDate) ==> r == 0
    ensures startedAt.Some? && startedAt.value.At? && nowMs <= startedAt.value.ms ==> r == 0
    ensures startedAt.Some? && startedAt.value.At? && nowMs > startedAt.value.ms && durationMs == 0 ==> r == 100
    ensures durationMs < 0 ==> r == 0
  {
    match startedAt
    case Some(At(ms)) =>
      var elapsedMs := nowMs - ms;
      if elapsedMs <= 0 then 0
      else if durationMs == 0 then 100
      else if durationMs < 0 then 0
      else ElapsedPercent(elapsedMs, durationMs)
    case _ => 0
  }

  /** At the fixed five-minute duration the two progress rules agree. */
  lemma ProgressForFixedDuration(startedAt: Option<Date>, nowMs: int)
    ensures ProgressPercentFor(startedAt, nowMs, ChargingDurationMs) == ProgressPercent(startedAt, nowMs)
  {
  }

  /** Math.round((e / 300000) * 100) is the integer quotient (e + 1500) / 3000. */
  lemma RoundedPercentIsQuotient(e: int)
    ensures Round((e as real / ChargingDurationMs as real) * 100.0) == (e + 1500) / 3000
  {
    var q := (e + 1500) / 3000;
    var x := (e as real / ChargingDurationMs as real) * 100.0;
    assert x == e as real / 3000.0;
    assert 3000 * q <= e + 1500 < 3000 * q + 3000;
    assert (3000 * q) as real <= e as real + 1500.0 < (3000 * q + 3000) as real;
    assert q as real <= x + 0.5 < q as real + 1.0;
    assert x - 0.5 < q as real <= x + 0.5;
    var r := Round(x);
    assert x - 0.5 < r as real <= x + 0.5;
  }

  /** Progress from a recorded start is Math.round half-up of elapsed/3000 ms, clamped. */
  lemma {:induction false} ProgressIsHalfUpQuotient(startMs: int, nowMs: int)
    requires nowMs > startMs
    ensures ProgressPercent(Some(At(startMs)), nowMs) == Clamp100((nowMs - startMs + 1500) / 3000)
  {
    RoundedPercentIsQuotient(nowMs - startMs);
  }

  /** Progress reaches exactly 100 iff at least 298.5 s have elapsed, which
      is before the five-minute duration runs out. */
  lemma ProgressFullIff(startMs: int, nowMs: int)
    ensures ProgressPercent(Some(At(startMs)), nowMs) == 100 <==> nowMs - startMs >= ChargingDurationMs - 1500
  {
    if nowMs > startMs {
      ProgressIsHalfUpQuotient(startMs, nowMs);
    }
  }

  /** Progress never decreases as the clock advances. */
  lemma ProgressMonotone(startedAt: Option<Date>, now1: int, now2: int)
    requires now1 <= now2
    ensures ProgressPercent(startedAt, now1) <= ProgressPercent(startedAt, now2)
  {
    if startedAt.Some? && startedAt.value.At? {
      var s := startedAt.value.ms;
      if now1 > s {
        ProgressIsHalfUpQuotient(s, now1);
        ProgressIsHalfUpQuotient(s, now2);
        assert (now1 - s + 1500) / 3000 <= (now2 - s + 1500) / 3000;
      }
    }
  }

  /** calculateEstimatedCompletionAt: the start plus the five-minute duration,
      or nothing for a missing or Invalid Date. */
  function EstimatedCompletionAt(startedAt: Option<Date>): (r: Option<int>)
    ensures r.Some? <==> startedAt.Some? && startedAt.value.At?
    ensures r.Some? ==> r.value - startedAt.value.ms == ChargingDurationMs
  {
    match startedAt
    case Some(At(ms)) => Some(ms + ChargingDurationMs)
    case _ => None
  }

  /** Once the estimated completion time is reached, progress is 100. */
  lemma ProgressFullAtEstimate(startedAt: Option<Date>, nowMs: int)
    requires EstimatedCompletionAt(startedAt).Some?
    requires nowMs >= EstimatedCompletionAt(startedAt).value
    ensures ProgressPercent(startedAt, nowMs) == 100
  {
    ProgressFullIff(startedAt.value.ms, nowMs);
  }

  /** A ticket document turned into a plain object, with the estimated
      completion once it has been appended. */
  datatype TicketSnapshot = TicketSnapshot(ticket: Ticket, estimatedCompletionAt: Option<Date>)

  /** appendChargingEstimate: adds `estimatedCompletionAt` when there is an
      estimate, and otherwise returns the snapshot itself. */
  function AppendChargingEstimate(snapshot: TicketSnapshot, startedAt: Option<Date>): (r: TicketSnapshot)
    ensures r.ticket == snapshot.ticket
    ensures EstimatedCompletionAt(startedAt).None? ==> r == snapshot
    ensures EstimatedCompletionAt(startedAt).Some? ==>
              r.estimatedCompletionAt == Some(At(startedAt.value.ms + ChargingDurationMs))
  {
    match EstimatedCompletionAt(startedAt)
    case None => snapshot
    case Some(ms) => snapshot.(estimatedCompletionAt := Some(At(ms)))
  }

  // ------------------------------------------------------------------
  // Ticket payload
  // ------------------------------------------------------------------

  datatype Payload = Payload(snapshot: TicketSnapshot, stationInfo: Option<Station>, vehicleInfo: Option<Vehicle>)

  predicate HasId(v: Vehicle, id: string) { v.id == id }

  predicate IsActiveOf(v: Vehicle, owner: string) { v.owner == owner && v.active }

  /** fetchVehicleSnapshot: Vehicle.findById. */
  function VehicleById(vs: seq<Vehicle>, id: string): (r: Option<Vehicle>)
    ensures r.Some? ==> r.value.id == id && r.value in vs
    ensures r.None? ==> forall i :: 0 <= i < |vs| ==> vs[i].id != id
  {
    match FirstIndex(vs, v => HasId(v, id))
    case None => None
    case Some(i) => Some(vs[i])
  }

  /** fetchActiveVehicleSnapshot: the owner's active vehicle with the greatest `_id`. */
  function MostRecentActiveVehicle(vs: seq<Vehicle>, userId: Option<string>): (r: Option<Vehicle>)
    ensures !Truthy(userId) ==> r.None?
    ensures r.Some? ==> exists i :: 0 <= i < |vs| && vs[i] == r.value && IsActiveOf(vs[i], userId.value)
                                    && forall j :: i < j < |vs| ==> !IsActiveOf(vs[j], userId.value)
    ensures Truthy(userId) && r.None? ==> forall i :: 0 <= i < |vs| ==> !IsActiveOf(vs[i], userId.value)
  {
    if !Truthy(userId) then None
    else match LastIndex(vs, v => IsActiveOf(v, userId.value))
      case None => None
      case Some(i) => Some(vs[i])
  }

  /** buildChargingTicketPayload: nothing for a missing ticket; otherwise the
      snapshot with its estimate, the station, and the vehicle named by the
      ticket or, when it names none, the user's most recent active vehicle. */
  function BuildChargingTicketPayload(
    s: StoreState, ticket: Option<Ticket>, userOption: Option<string>, stationOption: Option<string>): (r: Option<Payload>)
    ensures r.None? <==> ticket.None?
    ensures r.Some? ==> r.value.snapshot.ticket == ticket.value
    ensures r.Some? ==> r.value.snapshot == AppendChargingEstimate(TicketSnapshot(ticket.value, None), ticket.value.startedAt)
    ensures r.Some? && Truthy(ResolveId(ticket.value.vehicle)) ==>
              r.value.vehicleInfo == VehicleById(s.vehicles, ResolveId(ticket.value.vehicle).value)
    ensures r.Some? && !Truthy(ResolveId(ticket.value.vehicle)) ==>
              r.value.vehicleInfo == MostRecentActiveVehicle(
                s.vehicles, if userOption.Some? then userOption else ResolveId(ticket.value.user))
    ensures r.Some? ==>
              var sid := if stationOption.Some? then stationOption else ResolveId(ticket.value.station);
              && (r.value.stationInfo.Some? <==> Truthy(sid) && sid.value in s.stations)
              && (r.value.stationInfo.Some? ==> r.value.stationInfo.value == s.stations[sid.value])
  {
    match ticket
    case None => None
    case Some(t) =>
      var snapshot := AppendChargingEstimate(TicketSnapshot(t, None), t.startedAt);
      var userId := if userOption.Some? then userOption else ResolveId(t.user);
      var stationId := if stationOption.Some? then stationOption else ResolveId(t.station);
      var ticketVehicleId := ResolveId(t.vehicle);
      var stationInfo := if Truthy(stationId) && stationId.value in s.stations then Some(s.stations[stationId.value]) else None;
      var vehicleInfo := if Truthy(ticketVehicleId) then VehicleById(s.vehicles, ticketVehicleId.value)
                         else MostRecentActiveVehicle(s.vehicles, userId);
      Some(Payload(snapshot, stationInfo, vehicleInfo))
  }

  // ------------------------------------------------------------------
  // Vehicle charging status
  // ------------------------------------------------------------------

  datatype VehicleUpdate = VehicleUpdate(ok: bool, vehicles: seq<Vehicle>)

  function WithStatusAt(vs: seq<Vehicle>, i: nat, status: VehicleChargingStatus): (r: seq<Vehicle>)
    requires i < |vs|
    ensures |r| == |vs| && r[i] == vs[i].(chargingStatus := status)
    ensures forall j :: 0 <= j < |vs| && j != i ==> r[j] == vs[j]
  {
    vs[i := vs[i].(chargingStatus := status)]
  }

  /** setVehicleChargingStatus: Vehicle.updateOne({ _id }, $set chargingStatus). */
  function SetVehicleStatus(vs: seq<Vehicle>, vehicleId: string, status: VehicleChargingStatus): (r: VehicleUpdate)
    ensures |r.vehicles| == |vs|
    ensures r.ok <==> vehicleId != "" && exists i :: 0 <= i < |vs| && vs[i].id == vehicleId
    ensures !r.ok ==> r.vehicles == vs
    ensures r.ok ==> exists i :: 0 <= i < |vs| && vs[i].id == vehicleId && r.vehicles == WithStatusAt(vs, i, status)
  {
    if vehicleId == "" then VehicleUpdate(false, vs)
    else match FirstIndex(vs, v => HasId(v, vehicleId))
      case None => VehicleUpdate(false, vs)
      case Some(i) => VehicleUpdate(true, WithStatusAt(vs, i, status))
  }

  /** setActiveVehicleChargingStatus: Vehicle.updateOne({ owner, active: true }),
      which updates the first matching vehicle in natural order. */
  function SetActiveVehicleStatus(vs: seq<Vehicle>, userId: string, status: VehicleChargingStatus): (r: VehicleUpdate)
    ensures |r.vehicles| == |vs|
    ensures r.ok <==> userId != "" && exists i :: 0 <= i < |vs| && IsActiveOf(vs[i], userId)
    ensures !r.ok ==> r.vehicles == vs
    ensures r.ok ==> exists i :: 0 <= i < |vs| && IsActiveOf(vs[i], userId)
                                 && (forall j :: 0 <= j < i ==> !IsActiveOf(vs[j], userId))
                                 && r.vehicles == WithStatusAt(vs, i, status)
  {
    if userId == "" then VehicleUpdate(false, vs)
    else match FirstIndex(vs, v => IsActiveOf(v, userId))
      case None => VehicleUpdate(false, vs)
      case Some(i) => VehicleUpdate(true, WithStatusAt(vs, i, status))
  }

  function IdleIfChargingOf(v: Vehicle, userId: string): Vehicle
  {
    if v.owner == userId && v.chargingStatus == Charging then v.(chargingStatus := Idle) else v
  }

  /** clearChargingStatusForUserVehicles: Vehicle.updateMany({ owner, chargingStatus: "CHARGING" }, IDLE). */
  function ClearChargingStatus(vs: seq<Vehicle>, userId: string): (r: seq<Vehicle>)
    ensures |r| == |vs|
    ensures forall i :: 0 <= i < |vs| ==> r[i] == (if userId == "" then vs[i] else IdleIfChargingOf(vs[i], userId))
  {
    if userId == "" then vs else seq(|vs|, i requires 0 <= i < |vs| => IdleIfChargingOf(vs[i], userId))
  }

  /** After the clear no vehicle of the user is CHARGING, other owners' vehicles
      are untouched, and a second clear changes nothing. */
  lemma ClearChargingStatusEffect(vs: seq<Vehicle>, userId: string)
    requires userId != ""
    ensures forall i :: 0 <= i < |vs| && vs[i].owner == userId ==> ClearChargingStatus(vs, userId)[i].chargingStatus == Idle
    ensures forall i :: 0 <= i < |vs| && vs[i].owner != userId ==> ClearChargingStatus(vs, userId)[i] == vs[i]
    ensures ClearChargingStatus(ClearChargingStatus(vs, userId), userId) == ClearChargingStatus(vs, userId)
  {
  }

  // ------------------------------------------------------------------
  // Connector port counters
  // ------------------------------------------------------------------

  datatype AdjustResult = Applied | NoAvailablePorts | NotFound

  datatype Adjustment = Adjustment(result: AdjustResult, stations: map<string, Station>)

  predicate OfKind(c: Connector, kind: string) { c.kind == kind }

  predicate HasKind(st: Station, kind: string)
  {
    exists i :: 0 <= i < |st.connectors| && st.connectors[i].kind == kind
  }

  predicate HasFreePort(st: Station)
  {
    exists j :: 0 <= j < |st.connectors| && st.connectors[j].availablePorts > 0
  }

  /** The filter of the update as written: `_id`, "connectors.type" and, for a
      decrement, "connectors.availablePorts" > 0, the two array conditions
      evaluated independently (no $elemMatch). */
  predicate AdjustMatches(stations: map<string, Station>, stationId: string, kind: string, delta: int)
  {
    stationId in stations && HasKind(stations[stationId], kind)
    && (delta < 0 ==> HasFreePort(stations[stationId]))
  }

  /** $inc of "connectors.$.availablePorts" on the first connector of the kind. */
  function BumpFirstOfKind(cs: seq<Connector>, kind: string, delta: int): (r: seq<Connector>)
    ensures |r| == |cs|
    ensures FirstIndex(cs, c => OfKind(c, kind)).Some? ==>
              var i := FirstIndex(cs, c => OfKind(c, kind)).value;
              r == cs[i := cs[i].(availablePorts := cs[i].availablePorts + delta)]
    ensures FirstIndex(cs, c => OfKind(c, kind)).None? ==> r == cs
  {
    match FirstIndex(cs, c => OfKind(c, kind))
    case None => cs
    case Some(i) => cs[i := cs[i].(availablePorts := cs[i].availablePorts + delta)]
  }

  function BumpStation(st: Station, kind: string, delta: int): Station
  {
    st.(connectors := BumpFirstOfKind(st.connectors, kind, delta))
  }

  /** adjustStationConnectorAvailability as written. */
  function AdjustConnectors(stations: map<string, Station>, stationId: string, kind: string, delta: Whole): (a: Adjustment)
    ensures (stationId == "" || kind == "" || delta.NotFinite? || delta == Whole(0)) ==>
              a == Adjustment(NotFound, stations)
    ensures a.result == Applied <==>
              stationId != "" && kind != "" && delta.Whole? && delta.value != 0
              && AdjustMatches(stations, stationId, kind, delta.value)
    ensures a.result == NoAvailablePorts ==> delta.Whole? && delta.value < 0
    ensures a.result != Applied ==> a.stations == stations
    ensures a.result == Applied ==> a.stations == stations[stationId := BumpStation(stations[stationId], kind, delta.value)]
  {
    if stationId == "" || kind == "" || delta.NotFinite? || delta.value == 0 then Adjustment(NotFound, stations)
    else if !AdjustMatches(stations, stationId, kind, delta.value) then
      Adjustment(if delta.value < 0 then NoAvailablePorts else NotFound, stations)
    else Adjustment(Applied, stations[stationId := BumpStation(stations[stationId], kind, delta.value)])
  }

  /** A decrement applies only to a station holding the kind and some free
      port; otherwise it reports `no_available_ports` and changes nothing. An
      increment applies whenever the kind exists, with no ceiling. */
  lemma AdjustDecision(stations: map<string, Station>, stationId: string, kind: string, n: int)
    requires stationId != "" && kind != "" && n != 0
    ensures n < 0 && !AdjustMatches(stations, stationId, kind, n) ==>
              AdjustConnectors(stations, stationId, kind, Whole(n)) == Adjustment(NoAvailablePorts, stations)
    ensures n > 0 ==> (AdjustConnectors(stations, stationId, kind, Whole(n)).result == Applied
                       <==> stationId in stations && HasKind(stations[stationId], kind))
    ensures n > 0 && !(stationId in stations && HasKind(stations[stationId], kind)) ==>
              AdjustConnectors(stations, stationId, kind, Whole(n)) == Adjustment(NotFound, stations)
  {
  }

  /** An applied adjustment changes exactly one counter: the first connector
      of the kind at that station moves by delta; everything else is as before. */
  lemma {:induction false} AdjustChangesOneCounter(stations: map<string, Station>, stationId: string, kind: string, n: int)
    requires AdjustConnectors(stations, stationId, kind, Whole(n)).result == Applied
    ensures var after := AdjustConnectors(stations, stationId, kind, Whole(n)).stations;
            var i := FirstIndex(stations[stationId].connectors, c => OfKind(c, kind)).value;
            && after.Keys == stations.Keys
            && (forall k :: k in stations && k != stationId ==> after[k] == stations[k])
            && |after[stationId].connectors| == |stations[stationId].connectors|
            && after[stationId].connectors[i].availablePorts == stations[stationId].connectors[i].availablePorts + n
            && (forall j :: 0 <= j < |stations[stationId].connectors| && j != i ==>
                  after[stationId].connectors[j] == stations[stationId].connectors[j])
  {
    var cs := stations[stationId].connectors;
    var first := FirstIndex(cs, c => OfKind(c, kind));
    assert HasKind(stations[stationId], kind);
    var w :| 0 <= w < |cs| && cs[w].kind == kind;
    assert OfKind(cs[w], kind);
    assert first.Some?;
  }

  /** Moving a counter keeps every connector's kind, so the first
      connector of the kind stays the same. */
  lemma BumpKeepsFirstOfKind(cs: seq<Connector>, kind: string, delta: int)
    ensures var r := BumpFirstOfKind(cs, kind, delta);
            forall j :: 0 <= j < |cs| ==> r[j].kind == cs[j].kind
    ensures FirstIndex(BumpFirstOfKind(cs, kind, delta), c => OfKind(c, kind)) == FirstIndex(cs, c => OfKind(c, kind))
  {
    var r := BumpFirstOfKind(cs, kind, delta);
    var f := FirstIndex(cs, c => OfKind(c, kind));
    var g := FirstIndex(r, c => OfKind(c, kind));
    assert forall j :: 0 <= j < |cs| ==> r[j].kind == cs[j].kind;
    assert forall j :: 0 <= j < |cs| ==> OfKind(r[j], kind) == OfKind(cs[j], kind);
  }

  /** Moving the same counter by delta and back restores the connectors. */
  lemma BumpThenUnbump(cs: seq<Connector>, kind: string, delta: int)
    ensures BumpFirstOfKind(BumpFirstOfKind(cs, kind, delta), kind, -delta) == cs
  {
    BumpKeepsFirstOfKind(cs, kind, delta);
  }

  /** A reservation followed by a release restores the counters. */
  lemma {:induction false} ReserveThenReleaseRestores(stations: map<string, Station>, stationId: string, kind: string)
    requires AdjustConnectors(stations, stationId, kind, Whole(-1)).result == Applied
    ensures var reserved := AdjustConnectors(stations, stationId, kind, Whole(-1));
            AdjustConnectors(reserved.stations, stationId, kind, Whole(1)) == Adjustment(Applied, stations)
  {
    var reserved := AdjustConnectors(stations, stationId, kind, Whole(-1)).stations;
    var st := stations[stationId];
    assert reserved == stations[stationId := BumpStation(st, kind, -1)];
    var cs1 := BumpFirstOfKind(st.connectors, kind, -1);
    assert HasKind(reserved[stationId], kind) by {
      var w :| 0 <= w < |st.connectors| && st.connectors[w].kind == kind;
      BumpKeepsFirstOfKind(st.connectors, kind, -1);
      assert cs1[w].kind == kind;
    }
    BumpThenUnbump(st.connectors, kind, -1);
    assert BumpStation(reserved[stationId], kind, 1) == st;
    assert reserved[stationId := st] == stations;
  }

  /** Every counter is non-negative (the schema's intended invariant). */
  ghost predicate PortsNonNegative(stations: map<string, Station>)
  {
    forall k, i :: k in stations && 0 <= i < |stations[k].connectors| ==> stations[k].connectors[i].availablePorts >= 0
  }

  /** As written, a decrement can match a station whose requested connector
      has no free port because another connector has one, and drive that
      counter below zero. */
  lemma DecrementCanGoBelowZero()
    ensures var stations := map["st-1" := Station("Central", "Main St", [Connector("CCS2", 100, 2, 0), Connector("Type2", 22, 2, 1)])];
            && PortsNonNegative(stations)
            && AdjustConnectors(stations, "st-1", "CCS2", Whole(-1)).result == Applied
            && AdjustConnectors(stations, "st-1", "CCS2", Whole(-1)).stations["st-1"].connectors[0].availablePorts == -1
            && !PortsNonNegative(AdjustConnectors(stations, "st-1", "CCS2", Whole(-1)).stations)
  {
    var stations := map["st-1" := Station("Central", "Main St", [Connector("CCS2", 100, 2, 0), Connector("Type2", 22, 2, 1)])];
    var cs := stations["st-1"].connectors;
    assert cs[0].kind == "CCS2";
    assert cs[1].availablePorts > 0;
    assert OfKind(cs[0], "CCS2");
    assert FirstIndex(cs, c => OfKind(c, "CCS2")) == Some(0);
  }

  predicate FreeOfKind(c: Connector, kind: string) { c.kind == kind && c.availablePorts > 0 }

  /** The intended reservation: one $elemMatch condition, so the decremented
      connector is the first of the kind that has a free port, and it moves by
      delta. Increments are as written. */
  function AdjustConnectorsElemMatch(stations: map<string, Station>, stationId: string, kind: string, delta: Whole): (a: Adjustment)
    ensures delta.Whole? && delta.value > 0 ==> a == AdjustConnectors(stations, stationId, kind, delta)
    ensures a.result != Applied ==> a.stations == stations
    ensures (stationId == "" || kind == "" || delta.NotFinite? || delta == Whole(0)) ==>
              a == Adjustment(NotFound, stations)
    ensures delta.Whole? && delta.value < 0 && stationId != "" && kind != "" ==>
              (a.result == Applied <==>
                 stationId in stations && exists i :: 0 <= i < |stations[stationId].connectors|
                                                      && FreeOfKind(stations[stationId].connectors[i], kind))
    ensures delta.Whole? && delta.value < 0 && stationId != "" && kind != "" && a.result != Applied ==>
              a == Adjustment(NoAvailablePorts, stations)
    ensures delta.Whole? && delta.value < 0 && a.result == Applied ==>
              stationId in stations &&
              var cs := stations[stationId].connectors;
              exists i :: 0 <= i < |cs| && FreeOfKind(cs[i], kind)
                          && (forall j :: 0 <= j < i ==> !FreeOfKind(cs[j], kind))
                          && a.stations == stations[stationId := stations[stationId].(connectors :=
                               cs[i := cs[i].(availablePorts := cs[i].availablePorts + delta.value)])]
  {
    if stationId == "" || kind == "" || delta.NotFinite? || delta.value == 0 then Adjustment(NotFound, stations)
    else if delta.value > 0 then AdjustConnectors(stations, stationId, kind, delta)
    else if stationId !in stations then Adjustment(NoAvailablePorts, stations)
    else
      var cs := stations[stationId].connectors;
      match FirstIndex(cs, c => FreeOfKind(c, kind))
      case None => Adjustment(NoAvailablePorts, stations)
      case Some(i) =>
        Adjustment(Applied, stations[stationId := stations[stationId].(connectors := cs[i := cs[i].(availablePorts := cs[i].availablePorts + delta.value)])])
  }

  /** With $elemMatch, reservations (delta = -1) and releases keep every
      counter non-negative. A larger decrement can still overshoot: the filter
      asks only for one free port. */
  lemma ElemMatchKeepsPortsNonNegative(stations: map<string, Station>, stationId: string, kind: string, delta: Whole)
    requires PortsNonNegative(stations)
    requires delta.Whole? ==> delta.value >= -1
    ensures PortsNonNegative(AdjustConnectorsElemMatch(stations, stationId, kind, delta).stations)
  {
    var a := AdjustConnectorsElemMatch(stations, stationId, kind, delta);
    if a.result == Applied && delta.value > 0 {
      AdjustChangesOneCounter(stations, stationId, kind, delta.value);
    }
  }

  // ------------------------------------------------------------------
  // Finalisation
  // ------------------------------------------------------------------

  /** $pull: every occurrence of `x` removed, the rest in order. */
  function Pull(xs: seq<string>, x: string): (r: seq<string>)
    ensures x !in r
    ensures forall y :: y != x ==> (y in r <==> y in xs)
    ensures |r| <= |xs|
    ensures x !in xs ==> r == xs
    ensures forall y :: y != x ==> multiset(r)[y] == multiset(xs)[y]
  {
    if xs == [] then []
    else
      assert xs == [xs[0]] + xs[1..];
      if xs[0] == x then Pull(xs[1..], x)
      else [xs[0]] + Pull(xs[1..], x)
  }

  /** $pull works element by element in order: pulling from a concatenation
      pulls from each part and keeps the parts in order. */
  lemma {:induction false} PullAppend(a: seq<string>, b: seq<string>, x: string)
    ensures Pull(a + b, x) == Pull(a, x) + Pull(b, x)
  {
    if a == [] {
      assert a + b == b;
    } else {
      assert (a + b)[0] == a[0] && (a + b)[1..] == a[1..] + b;
      PullAppend(a[1..], b, x);
      if a[0] != x {
        assert [a[0]] + (Pull(a[1..], x) + Pull(b, x)) == ([a[0]] + Pull(a[1..], x)) + Pull(b, x);
      }
    }
  }

  function PullUserTicket(users: map<string, User>, userId: string, ticketId: string): (r: map<string, User>)
    ensures r.Keys == users.Keys
    ensures forall k :: k in users && k != userId ==> r[k] == users[k]
    ensures userId in users ==> r[userId] == users[userId].(tickets := Pull(users[userId].tickets, ticketId))
  {
    if userId in users then users[userId := users[userId].(tickets := Pull(users[userId].tickets, ticketId))]
    else users
  }

  /** The port release of the transaction: one increment of the deleted
      ticket's connector type at its station, when both are present. */
  function ReleasedStations(stations: map<string, Station>, deleted: Option<Ticket>): map<string, Station>
  {
    if deleted.Some? && Truthy(deleted.value.connectorType) && Truthy(ResolveId(deleted.value.station)) then
      AdjustConnectors(stations, ResolveId(deleted.value.station).value, deleted.value.connectorType.value, Whole(1)).stations
    else stations
  }

  /** The vehicle reset of the transaction: the ticket's own vehicle back to
      IDLE, or, when there is no deleted ticket or it names no vehicle, every
      CHARGING vehicle of the user. */
  function ResetVehicles(vs: seq<Vehicle>, deleted: Option<Ticket>, userId: string): seq<Vehicle>
  {
    if deleted.Some? && IsTruthy(deleted.value.vehicle) then
      (if Truthy(ResolveId(deleted.value.vehicle)) then SetVehicleStatus(vs, ResolveId(deleted.value.vehicle).value, Idle).vehicles
       else vs)
    else ClearChargingStatus(vs, userId)
  }

  /** finalizeChargingTicket on a committed transaction. */
  function Finalized(s: StoreState, ticketId: string, userId: string): (r: StoreState)
    ensures r.tickets == s.tickets - {ticketId}
    ensures r.users == PullUserTicket(s.users, userId, ticketId)
  {
    var deleted := if ticketId in s.tickets then Some(s.tickets[ticketId]) else None;
    StoreState(
      ReleasedStations(s.stations, deleted),
      s.tickets - {ticketId},
      PullUserTicket(s.users, userId, ticketId),
      ResetVehicles(s.vehicles, deleted, userId))
  }

  /** Finalising a ticket that names its station and connector type releases
      exactly one port of that type there. */
  lemma FinalizeReleasesOnePort(s: StoreState, ticketId: string, userId: string)
    requires ticketId in s.tickets
    requires var t := s.tickets[ticketId];
             Truthy(t.connectorType) && Truthy(ResolveId(t.station))
             && ResolveId(t.station).value in s.stations
             && HasKind(s.stations[ResolveId(t.station).value], t.connectorType.value)
    ensures var t := s.tickets[ticketId];
            var a := AdjustConnectors(s.stations, ResolveId(t.station).value, t.connectorType.value, Whole(1));
            a.result == Applied && Finalized(s, ticketId, userId).stations == a.stations
  {
  }

  /** A second finalisation of the same ticket releases nothing and leaves
      tickets and users as they are: the deleted ticket comes back null. Its
      only effect is to clear the user's CHARGING vehicles. */
  lemma FinalizeTwiceReleasesOnce(s: StoreState, ticketId: string, userId: string)
    ensures var once := Finalized(s, ticketId, userId);
            var twice := Finalized(once, ticketId, userId);
            && twice.stations == once.stations
            && twice.tickets == once.tickets
            && twice.users == once.users
            && twice.vehicles == ClearChargingStatus(once.vehicles, userId)
  {
    var once := Finalized(s, ticketId, userId);
    if userId in s.users {
      var u := s.users[userId];
      assert once.users[userId] == u.(tickets := Pull(u.tickets, ticketId));
      assert Pull(Pull(u.tickets, ticketId), ticketId) == Pull(u.tickets, ticketId);
    }
  }

  /** The vehicle reset: a ticket naming a vehicle returns that vehicle to
      IDLE and touches no other; a ticket naming none clears every CHARGING
      vehicle of the user. */
  lemma FinalizeResetsVehicle(s: StoreState, ticketId: string, userId: string)
    requires ticketId in s.tickets
    ensures var t := s.tickets[ticketId];
            var after := Finalized(s, ticketId, userId).vehicles;
            && |after| == |s.vehicles|
            && (Truthy(ResolveId(t.vehicle)) ==>
                  forall i :: 0 <= i < |s.vehicles| && s.vehicles[i].id != ResolveId(t.vehicle).value ==> after[i] == s.vehicles[i])
            && (Truthy(ResolveId(t.vehicle)) && VehicleById(s.vehicles, ResolveId(t.vehicle).value).Some? ==>
                  VehicleById(after, ResolveId(t.vehicle).value).Some?
                  && VehicleById(after, ResolveId(t.vehicle).value).value.chargingStatus == Idle)
            && (!IsTruthy(t.vehicle) ==> after == ClearChargingStatus(s.vehicles, userId))
            && (IsTruthy(t.vehicle) && !Truthy(ResolveId(t.vehicle)) ==> after == s.vehicles)
  {
    var t := s.tickets[ticketId];
    var after := Finalized(s, ticketId, userId).vehicles;
    if Truthy(ResolveId(t.vehicle)) {
      var id := ResolveId(t.vehicle).value;
      assert IsTruthy(t.vehicle);
      var i := FirstIndex(s.vehicles, v => HasId(v, id));
      if i.Some? {
        assert after == WithStatusAt(s.vehicles, i.value, Idle);
        var k := FirstIndex(after, v => HasId(v, id));
        assert HasId(after[i.value], id);
        assert k.Some?;
      }
    }
  }

  datatype Outcome = Committed | Aborted

  // ------------------------------------------------------------------
  // The store
  // ------------------------------------------------------------------

  class ChargingStore {
    var stations: map<string, Station>
    var tickets: map<string, Ticket>
    var users: map<string, User>
    var vehicles: seq<Vehicle>

    function State(): StoreState
      reads this
    {
      StoreState(stations, tickets, users, vehicles)
    }

    constructor (initial: StoreState)
      ensures State() == initial
    {
      stations := initial.stations;
      tickets := initial.tickets;
      users := initial.users;
      vehicles := initial.vehicles;
    }

    /** adjustStationConnectorAvailability: one conditional `$inc` on a port counter. */
    method AdjustStationConnectorAvailability(stationId: string, kind: string, delta: Whole) returns (result: AdjustResult)
      modifies this
      ensures result == AdjustConnectors(old(stations), stationId, kind, delta).result
      ensures stations == AdjustConnectors(old(stations), stationId, kind, delta).stations
      ensures tickets == old(tickets) && users == old(users) && vehicles == old(vehicles)
    {
      if stationId == "" || kind == "" || delta.NotFinite? || delta.value == 0 {
        return NotFound;
      }
      if !AdjustMatches(stations, stationId, kind, delta.value) {
        return if delta.value < 0 then NoAvailablePorts else NotFound;
      }
      stations := stations[stationId := BumpStation(stations[stationId], kind, delta.value)];
      result := Applied;
    }

    /** setVehicleChargingStatus. */
    method SetVehicleChargingStatus(vehicleId: string, status: VehicleChargingStatus) returns (ok: bool)
      modifies this
      ensures ok == SetVehicleStatus(old(vehicles), vehicleId, status).ok
      ensures vehicles == SetVehicleStatus(old(vehicles), vehicleId, status).vehicles
      ensures stations == old(stations) && tickets == old(tickets) && users == old(users)
    {
      if vehicleId == "" {
        return false;
      }
      var i := FirstIndex(vehicles, v => HasId(v, vehicleId));
      if i.None? {
        return false;
      }
      vehicles := WithStatusAt(vehicles, i.value, status);
      ok := true;
    }

    /** setActiveVehicleChargingStatus. */
    method SetActiveVehicleChargingStatus(userId: string, status: VehicleChargingStatus) returns (ok: bool)
      modifies this
      ensures ok == SetActiveVehicleStatus(old(vehicles), userId, status).ok
      ensures vehicles == SetActiveVehicleStatus(old(vehicles), userId, status).vehicles
      ensures stations == old(stations) && tickets == old(tickets) && users == old(users)
    {
      if userId == "" {
        return false;
      }
      var i := FirstIndex(vehicles, v => IsActiveOf(v, userId));
      if i.None? {
        return false;
      }
      vehicles := WithStatusAt(vehicles, i.value, status);
      ok := true;
    }

    /** clearChargingStatusForUserVehicles. */
    method ClearChargingStatusForUserVehicles(userId: string)
      modifies this
      ensures vehicles == ClearChargingStatus(old(vehicles), userId)
      ensures stations == old(stations) && tickets == old(tickets) && users == old(users)
    {
      if userId == "" {
        return;
      }
      vehicles := ClearChargingStatus(vehicles, userId);
    }

    /** ChargingTicket.findOneAndDelete({ _id: ticketId }). */
    method DeleteTicket(ticketId: string) returns (deleted: Option<Ticket>)
      modifies this
      ensures deleted == (if ticketId in old(tickets) then Some(old(tickets)[ticketId]) else None)
      ensures tickets == old(tickets) - {ticketId}
      ensures stations == old(stations) && users == old(users) && vehicles == old(vehicles)
    {
      deleted := if ticketId in tickets then Some(tickets[ticketId]) else None;
      tickets := tickets - {ticketId};
    }

    /** User.updateOne({ _id: userId }, { $pull: { tickets: ticketId } }). */
    method PullTicketFromUser(userId: string, ticketId: string)
      modifies this
      ensures users == PullUserTicket(old(users), userId, ticketId)
      ensures stations == old(stations) && tickets == old(tickets) && vehicles == old(vehicles)
    {
      users := PullUserTicket(users, userId, ticketId);
    }

    /** finalizeChargingTicket: one transaction that deletes the ticket, pulls
        its id from the user, releases its port and resets the vehicle. A
        datastore error (`fault`) anywhere aborts it, leaving no partial effect,
        and is rethrown (`Aborted`). */
    method FinalizeChargingTicket(ticketId: string, userId: string, fault: bool) returns (outcome: Outcome)
      modifies this
      ensures outcome == (if fault then Aborted else Committed)
      ensures State() == (if fault then old(State()) else Finalized(old(State()), ticketId, userId))
    {
      var stations0, tickets0, users0, vehicles0 := stations, tickets, users, vehicles;
      var deleted := DeleteTicket(ticketId);
      PullTicketFromUser(userId, ticketId);
      if deleted.Some? && Truthy(deleted.value.connectorType) {
        var stationId := ResolveId(deleted.value.station);
        if Truthy(stationId) {
          var _ := AdjustStationConnectorAvailability(stationId.value, deleted.value.connectorType.value, Whole(1));
        }
      }
      assert stations == ReleasedStations(stations0, deleted);
      if deleted.Some? && IsTruthy(deleted.value.vehicle) {
        var vehicleId := ResolveId(deleted.value.vehicle);
        if Truthy(vehicleId) {
          var _ := SetVehicleChargingStatus(vehicleId.value, Idle);
        }
      } else {
        ClearChargingStatusForUserVehicles(userId);
      }
      if fault {
        stations, tickets, users, vehicles := stations0, tickets0, users0, vehicles0;
        outcome := Aborted;
      } else {
        outcome := Committed;
      }
    }

    /** The tick's ChargingTicket.updateOne({ _id }, $set chargingStatus,
        progressPercent, startedAt); `matched` is its matchedCount > 0. */
    method UpdateTicketProgress(ticketId: string, percent: int, startedAt: Date) returns (matched: bool)
      modifies this
      ensures matched <==> ticketId in old(tickets)
      ensures tickets == (if matched then old(tickets)[ticketId := old(tickets)[ticketId].(
                            chargingStatus := Some(InProgress), progressPercent := Some(percent),
                            startedAt := Some(startedAt))]
                          else old(tickets))
      ensures stations == old(stations) && users == old(users) && vehicles == old(vehicles)
    {
      matched := ticketId in tickets;
      if matched {
        tickets := tickets[ticketId := tickets[ticketId].(
          chargingStatus := Some(InProgress), progressPercent := Some(percent), startedAt := Some(startedAt))];
      }
    }
  }
}
