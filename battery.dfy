/** The battery model (src/services/vehicle-battery-service.ts): the status
    tiers, the clamp, the lazy drain of an active vehicle's battery by
    5 percent per whole ten-minute tick, the write decision, and the
    default-filling of stored vehicles. */
module Battery {
  import opened Common
  import opened Ids

  const BatteryDrainTickMs: int := 10 * 60000
  const BatteryDrainStep: int := 5
  const BatteryPercentDefault: int := 100

  datatype BatteryStatus = Full | High | Medium | Low | Critical

  function StatusName(s: BatteryStatus): string
  {
    match s
    case Full => "FULL"
    case High => "HIGH"
    case Medium => "MEDIUM"
    case Low => "LOW"
    case Critical => "CRITICAL"
  }

  /** isBatteryStatus, giving the status a stored value names; `None` for an
      absent value, another type, or any other string. */
  function ParseBatteryStatus(v: Option<string>): (r: Option<BatteryStatus>)
    ensures r.Some? ==> v == Some(StatusName(r.value))
    ensures r.None? ==> forall st :: v != Some(StatusName(st))
  {
    if v == Some("FULL") then Some(Full)
    else if v == Some("HIGH") then Some(High)
    else if v == Some("MEDIUM") then Some(Medium)
    else if v == Some("LOW") then Some(Low)
    else if v == Some("CRITICAL") then Some(Critical)
    else None
  }

  /** The names are distinct, so a status survives being stored and read back. */
  lemma StatusNameRoundTrip(st: BatteryStatus)
    ensures ParseBatteryStatus(Some(StatusName(st))) == Some(st)
  {
  }

  /** The tier's position, CRITICAL lowest. */
  function Rank(s: BatteryStatus): nat
  {
    match s
    case Critical => 0
    case Low => 1
    case Medium => 2
    case High => 3
    case Full => 4
  }

  /** calculateBatteryStatus: FULL from 80, HIGH from 60, MEDIUM from 40, LOW from 20, else CRITICAL. */
  function CalculateBatteryStatus(percent: int): (s: BatteryStatus)
    ensures s == Full <==> percent >= 80
    ensures s == High <==> 60 <= percent < 80
    ensures s == Medium <==> 40 <= percent < 60
    ensures s == Low <==> 20 <= percent < 40
    ensures s == Critical <==> percent < 20
  {
    if percent >= 80 then Full
    else if percent >= 60 then High
    else if percent >= 40 then Medium
    else if percent >= 20 then Low
    else Critical
  }

  /** A fuller battery never has a lower tier. */
  lemma StatusMonotone(p: int, q: int)
    requires p <= q
    ensures Rank(CalculateBatteryStatus(p)) <= Rank(CalculateBatteryStatus(q))
  {
  }

  /** clampBatteryPercent: a non-finite value becomes 100; otherwise the
      value rounded and kept within [0, 100]. */
  function ClampBatteryPercent(v: Num): (r: int)
    ensures 0 <= r <= 100
    ensures v.NonFinite? ==> r == BatteryPercentDefault
    ensures v.Num? && v.value <= 0.0 ==> r == 0
    ensures v.Num? && v.value >= 100.0 ==> r == 100
    ensures v.Num? && 0.0 <= v.value <= 100.0 ==> v.value - 0.5 < r as real <= v.value + 0.5
  {
    match v
    case NonFinite => BatteryPercentDefault
    case Num(x) => Clamp100(Round(x))
  }

  /** On an integer the clamp is Math.min(100, Math.max(0, n)). */
  lemma ClampWhole(n: int)
    ensures ClampBatteryPercent(Num(n as real)) == Clamp100(n)
  {
    assert Round(n as real) == n;
  }

  // ------------------------------------------------------------------
  // Snapshots
  // ------------------------------------------------------------------

  /** A vehicle snapshot as the service reads it: `id` when it is a string,
      `_id`, `batteryPercent` when it is a number, `batteryStatus` when it is
      a string, `active === true`, `chargingStatus` when it is a string, and
      `lastBatteryUpdatedAt`. */
  datatype VehicleSnapshot = VehicleSnapshot(
    id: Option<string>,
    rawId: IdRef,
    batteryPercent: Option<Num>,
    batteryStatus: Option<string>,
    active: bool,
    chargingStatus: Option<string>,
    lastBatteryUpdatedAt: DateInput)

  /** resolveVehicleId: a string `id`, else a string `_id`, else the
      `toString()` of an object `_id`. */
  function ResolveVehicleId(s: VehicleSnapshot): (r: Option<string>)
    ensures s.id.Some? ==> r == s.id
    ensures s.id.None? && s.rawId.Text? ==> r == Some(s.rawId.s)
    ensures s.id.None? && s.rawId.Record? ==> r == s.rawId.toText
    ensures s.id.None? && s.rawId.Absent? ==> r.None?
  {
    if s.id.Some? then s.id
    else match s.rawId
      case Text(t) => Some(t)
      case Record(_, _, toText) => toText
      case Absent => None
  }

  /** The stored values buildBatteryUpdate computes. */
  datatype BatteryFields = BatteryFields(percent: int, status: BatteryStatus, updatedAtMs: int)

  /** The current percent: the clamped stored number, 100 when it is not a number. */
  function CurrentPercent(s: VehicleSnapshot): (r: int)
    ensures 0 <= r <= 100
    ensures s.batteryPercent.None? ==> r == BatteryPercentDefault
  {
    ClampBatteryPercent(if s.batteryPercent.Some? then s.batteryPercent.value else Num(BatteryPercentDefault as real))
  }

  /** The stored status when it is a valid one, else the one the percent implies. */
  function NormalizedStatus(s: VehicleSnapshot): (r: BatteryStatus)
    ensures ParseBatteryStatus(s.batteryStatus).Some? ==> s.batteryStatus == Some(StatusName(r))
    ensures ParseBatteryStatus(s.batteryStatus).None? ==> r == CalculateBatteryStatus(CurrentPercent(s))
  {
    var stored := ParseBatteryStatus(s.batteryStatus);
    if stored.Some? then stored.value else CalculateBatteryStatus(CurrentPercent(s))
  }

  /** The battery drains only for an active vehicle that is not CHARGING and has a valid stamp. */
  predicate Drains(s: VehicleSnapshot)
  {
    s.active && s.chargingStatus != Some("CHARGING") && ParseDate(s.lastBatteryUpdatedAt).Some?
  }

  /** The whole ticks elapsed since the stamp, when the battery drains. */
  function DrainSteps(s: VehicleSnapshot, nowMs: int): (n: nat)
    ensures n > 0 ==> Drains(s)
  {
    if Drains(s) && nowMs - ParseDate(s.lastBatteryUpdatedAt).value >= BatteryDrainTickMs
    then (nowMs - ParseDate(s.lastBatteryUpdatedAt).value) / BatteryDrainTickMs
    else 0
  }

  /** The values after the lazy drain at `nowMs`. */
  function NextFields(s: VehicleSnapshot, nowMs: int): (f: BatteryFields)
    ensures 0 <= f.percent <= 100
    ensures f.status == CalculateBatteryStatus(f.percent)
  {
    var current := CurrentPercent(s);
    var steps := DrainSteps(s, nowMs);
    var last := ParseDate(s.lastBatteryUpdatedAt);
    if steps > 0 then
      var p := Clamp100(current - steps * BatteryDrainStep);
      BatteryFields(p, CalculateBatteryStatus(p), last.value + steps * BatteryDrainTickMs)
    else
      BatteryFields(current, CalculateBatteryStatus(current), if last.Some? then last.value else nowMs)
  }

  /** The four reasons to write. */
  predicate UpdateNeeded(s: VehicleSnapshot, nowMs: int)
  {
    var next := NextFields(s, nowMs);
    var last := ParseDate(s.lastBatteryUpdatedAt);
    next.percent != CurrentPercent(s)
    || next.status != NormalizedStatus(s)
    || last.None?
    || next.updatedAtMs != last.value
  }

  /** The snapshot with the three battery fields replaced. */
  function WithFields(s: VehicleSnapshot, f: BatteryFields): VehicleSnapshot
  {
    s.(batteryPercent := Some(Num(f.percent as real)),
       batteryStatus := Some(StatusName(f.status)),
       lastBatteryUpdatedAt := DateObject(At(f.updatedAtMs)))
  }

  datatype BatteryUpdate = BatteryUpdate(updatedSnapshot: VehicleSnapshot, update: Option<BatteryFields>)

  /** What buildBatteryUpdate returns. */
  function BatteryUpdateOf(s: VehicleSnapshot, nowMs: int): (r: BatteryUpdate)
    ensures r.updatedSnapshot == WithFields(s, NextFields(s, nowMs))
    ensures r.update.Some? <==> UpdateNeeded(s, nowMs)
    ensures r.update.Some? ==> r.update.value == NextFields(s, nowMs)
  {
    var next := NextFields(s, nowMs);
    BatteryUpdate(WithFields(s, next), if UpdateNeeded(s, nowMs) then Some(next) else None)
  }

  /** For a draining vehicle at least one tick after its stamp, the percent
      drops by 5 per whole tick down to 0, and the stamp advances by whole
      ticks only, to less than one tick before now. */
  lemma DrainByWholeTicks(s: VehicleSnapshot, nowMs: int)
    requires Drains(s)
    requires nowMs - ParseDate(s.lastBatteryUpdatedAt).value >= BatteryDrainTickMs
    ensures var last := ParseDate(s.lastBatteryUpdatedAt).value;
            var steps := (nowMs - last) / BatteryDrainTickMs;
            var next := NextFields(s, nowMs);
            && steps >= 1
            && next.percent == (if CurrentPercent(s) - BatteryDrainStep * steps > 0 then CurrentPercent(s) - BatteryDrainStep * steps else 0)
            && next.updatedAtMs == last + steps * BatteryDrainTickMs
            && 0 <= nowMs - next.updatedAtMs < BatteryDrainTickMs
  {
  }

  /** An inactive or charging vehicle, or one stamped less than a tick ago,
      keeps its percent and its stamp; a missing stamp becomes now. */
  lemma NoDrainKeepsValues(s: VehicleSnapshot, nowMs: int)
    requires !Drains(s) || nowMs - ParseDate(s.lastBatteryUpdatedAt).value < BatteryDrainTickMs
    ensures var last := ParseDate(s.lastBatteryUpdatedAt);
            && NextFields(s, nowMs).percent == CurrentPercent(s)
            && NextFields(s, nowMs).updatedAtMs == (if last.Some? then last.value else nowMs)
  {
  }

  /** The refreshed snapshot is a fixed point: refreshing it again at the
      same time changes nothing and needs no write. */
  lemma {:induction false} SecondBuildWritesNothing(s: VehicleSnapshot, nowMs: int)
    ensures var u := BatteryUpdateOf(s, nowMs).updatedSnapshot;
            BatteryUpdateOf(u, nowMs) == BatteryUpdate(u, None)
  {
    var next := NextFields(s, nowMs);
    var u := WithFields(s, next);
    ClampWhole(next.percent);
    assert CurrentPercent(u) == next.percent;
    StatusNameRoundTrip(next.status);
    assert NormalizedStatus(u) == next.status;
    assert ParseDate(u.lastBatteryUpdatedAt) == Some(next.updatedAtMs);
    if DrainSteps(s, nowMs) > 0 {
      DrainByWholeTicks(s, nowMs);
    }
    assert DrainSteps(u, nowMs) == 0;
    assert NextFields(u, nowMs) == next;
  }

  /** buildBatteryUpdate, with its `let` locals reassigned across the branches. */
  method BuildBatteryUpdate(snapshot: VehicleSnapshot, nowMs: int) returns (updatedSnapshot: VehicleSnapshot, update: Option<BatteryFields>)
    ensures BatteryUpdate(updatedSnapshot, update) == BatteryUpdateOf(snapshot, nowMs)
  {
    var currentPercent := ClampBatteryPercent(
      if snapshot.batteryPercent.Some? then snapshot.batteryPercent.value else Num(BatteryPercentDefault as real));
    var currentStatus := ParseBatteryStatus(snapshot.batteryStatus);
    var normalizedCurrentStatus := if currentStatus.Some? then currentStatus.value else CalculateBatteryStatus(currentPercent);
    var active := snapshot.active;
    var chargingStatus := snapshot.chargingStatus;
    var lastUpdatedAt := ParseDate(snapshot.lastBatteryUpdatedAt);
    var nextPercent := currentPercent;
    var nextStatus := CalculateBatteryStatus(currentPercent);
    var nextLastUpdatedAt := if lastUpdatedAt.Some? then lastUpdatedAt.value else nowMs;

    if active && chargingStatus != Some("CHARGING") && lastUpdatedAt.Some? {
      var elapsedMs := nowMs - lastUpdatedAt.value;
      if elapsedMs >= BatteryDrainTickMs {
        var steps := elapsedMs / BatteryDrainTickMs;
        ClampWhole(currentPercent - steps * BatteryDrainStep);
        nextPercent := ClampBatteryPercent(Num((currentPercent - steps * BatteryDrainStep) as real));
        nextStatus := CalculateBatteryStatus(nextPercent);
        nextLastUpdatedAt := lastUpdatedAt.value + steps * BatteryDrainTickMs;
      }
    }

    if !active || chargingStatus == Some("CHARGING") {
      nextStatus := CalculateBatteryStatus(currentPercent);
    }

    var updateNeeded :=
      nextPercent != currentPercent
      || nextStatus != normalizedCurrentStatus
      || lastUpdatedAt.None?
      || nextLastUpdatedAt != lastUpdatedAt.value;

    var fields := BatteryFields(nextPercent, nextStatus, nextLastUpdatedAt);
    updatedSnapshot := WithFields(snapshot, fields);
    update := if updateNeeded then Some(fields) else None;
  }

  // ------------------------------------------------------------------
  // Refresh
  // ------------------------------------------------------------------

  /** One entry of the bulk write: `{ _id: vehicleId }` and its `$set`. */
  datatype VehicleWrite = VehicleWrite(vehicleId: string, fields: BatteryFields)

  /** A snapshot is written back when it needs an update and its id resolves
      to a non-empty string. */
  predicate NeedsWrite(s: VehicleSnapshot, nowMs: int)
  {
    UpdateNeeded(s, nowMs) && Truthy(ResolveVehicleId(s))
  }

  function WriteOf(s: VehicleSnapshot, nowMs: int): VehicleWrite
    requires NeedsWrite(s, nowMs)
  {
    VehicleWrite(ResolveVehicleId(s).value, NextFields(s, nowMs))
  }

  /** The writes refreshVehicleBatterySnapshots collects, in input order. */
  function WritesFor(snapshots: seq<VehicleSnapshot>, nowMs: int): (ws: seq<VehicleWrite>)
    ensures |ws| <= |snapshots|
  {
    if snapshots == [] then []
    else
      var init := snapshots[..|snapshots| - 1];
      var last := snapshots[|snapshots| - 1];
      WritesFor(init, nowMs) + (if NeedsWrite(last, nowMs) then [WriteOf(last, nowMs)] else [])
  }

  /** The write of a snapshot is its update under its resolved id. */
  lemma WriteOfUpdate(s: VehicleSnapshot, nowMs: int)
    ensures var u := BatteryUpdateOf(s, nowMs).update;
            && ((u.Some? && Truthy(ResolveVehicleId(s))) == NeedsWrite(s, nowMs))
            && (NeedsWrite(s, nowMs) ==> WriteOf(s, nowMs) == VehicleWrite(ResolveVehicleId(s).value, u.value))
  {
  }

  lemma WritesForStep(snapshots: seq<VehicleSnapshot>, i: int, nowMs: int)
    requires 0 <= i < |snapshots|
    ensures WritesFor(snapshots[..i + 1], nowMs)
            == WritesFor(snapshots[..i], nowMs) + (if NeedsWrite(snapshots[i], nowMs) then [WriteOf(snapshots[i], nowMs)] else [])
  {
    assert snapshots[..i + 1][..i] == snapshots[..i];
  }

  /** The writes are exactly those of the snapshots that need one. */
  lemma {:induction false} WritesForExactly(snapshots: seq<VehicleSnapshot>, nowMs: int)
    ensures forall w :: w in WritesFor(snapshots, nowMs) <==>
              exists i :: 0 <= i < |snapshots| && NeedsWrite(snapshots[i], nowMs) && w == WriteOf(snapshots[i], nowMs)
  {
    if snapshots != [] {
      var init := snapshots[..|snapshots| - 1];
      WritesForExactly(init, nowMs);
      forall w | w in WritesFor(snapshots, nowMs)
        ensures exists i :: 0 <= i < |snapshots| && NeedsWrite(snapshots[i], nowMs) && w == WriteOf(snapshots[i], nowMs)
      {
        if w in WritesFor(init, nowMs) {
          var i :| 0 <= i < |init| && NeedsWrite(init[i], nowMs) && w == WriteOf(init[i], nowMs);
          assert snapshots[i] == init[i];
        }
      }
      forall i | 0 <= i < |snapshots| && NeedsWrite(snapshots[i], nowMs)
        ensures WriteOf(snapshots[i], nowMs) in WritesFor(snapshots, nowMs)
      {
        if i < |init| {
          assert init[i] == snapshots[i];
        }
      }
    }
  }

  /** refreshVehicleBatterySnapshots: one refreshed snapshot per input, in
      order, and the writes of those needing one (none for an empty input). */
  method RefreshVehicleBatterySnapshots(snapshots: seq<VehicleSnapshot>, nowMs: int)
    returns (updated: seq<VehicleSnapshot>, writes: seq<VehicleWrite>)
    ensures |updated| == |snapshots|
    ensures forall i :: 0 <= i < |snapshots| ==> updated[i] == BatteryUpdateOf(snapshots[i], nowMs).updatedSnapshot
    ensures writes == WritesFor(snapshots, nowMs)
  {
    updated := [];
    writes := [];
    if |snapshots| == 0 {
      return;
    }
    var i := 0;
    while i < |snapshots|
      invariant 0 <= i <= |snapshots|
      invariant |updated| == i
      invariant forall j :: 0 <= j < i ==> updated[j] == BatteryUpdateOf(snapshots[j], nowMs).updatedSnapshot
      invariant writes == WritesFor(snapshots[..i], nowMs)
    {
      var updatedSnapshot, update := BuildBatteryUpdate(snapshots[i], nowMs);
      var vehicleId := ResolveVehicleId(snapshots[i]);
      WriteOfUpdate(snapshots[i], nowMs);
      WritesForStep(snapshots, i, nowMs);
      if update.Some? && Truthy(vehicleId) {
        writes := writes + [VehicleWrite(vehicleId.value, update.value)];
      }
      updated := updated + [updatedSnapshot];
      i := i + 1;
    }
    assert snapshots[..i] == snapshots;
  }

  /** refreshVehicleBatterySnapshot: null for no snapshot, else the one refreshed snapshot. */
  method RefreshVehicleBatterySnapshot(snapshot: Option<VehicleSnapshot>, nowMs: int)
    returns (updated: Option<VehicleSnapshot>, writes: seq<VehicleWrite>)
    ensures snapshot.None? ==> updated.None? && writes == []
    ensures snapshot.Some? ==> updated == Some(BatteryUpdateOf(snapshot.value, nowMs).updatedSnapshot)
    ensures snapshot.Some? ==> writes == (if NeedsWrite(snapshot.value, nowMs) then [WriteOf(snapshot.value, nowMs)] else [])
  {
    if snapshot.None? {
      return None, [];
    }
    var all;
    all, writes := RefreshVehicleBatterySnapshots([snapshot.value], nowMs);
    assert [snapshot.value][..0] == [];
    updated := Some(all[0]);
  }

  // ------------------------------------------------------------------
  // Defaults for stored vehicles
  // ------------------------------------------------------------------

  /** A stored `batteryPercent`: missing, a number, or a value of another type. */
  datatype PercentField = PercentMissing | PercentNumber(n: Num) | PercentOther

  /** The battery fields of a stored vehicle; `None` is a missing field. */
  datatype StoredBattery = StoredBattery(percent: PercentField, updatedAt: Option<Date>, status: Option<string>)

  /** ensureVehicleBatteryDefaults for one vehicle: a missing percent becomes
      100, a missing stamp becomes now, and a vehicle without a status gets
      its clamped percent and the status it implies. */
  function BatteryDefaults(v: StoredBattery, nowMs: int): (r: StoredBattery)
    ensures !r.percent.PercentMissing? && r.updatedAt.Some? && r.status.Some?
  {
    var percent := if v.percent.PercentMissing? then PercentNumber(Num(BatteryPercentDefault as real)) else v.percent;
    var updatedAt := if v.updatedAt.None? then Some(At(nowMs)) else v.updatedAt;
    if v.status.Some? then StoredBattery(percent, updatedAt, v.status)
    else
      var p := ClampBatteryPercent(if percent.PercentNumber? then percent.n else Num(BatteryPercentDefault as real));
      StoredBattery(PercentNumber(Num(p as real)), updatedAt, Some(StatusName(CalculateBatteryStatus(p))))
  }

  /** The three passes of ensureVehicleBatteryDefaults over the collection. */
  function EnsureBatteryDefaults(vs: seq<StoredBattery>, nowMs: int): (r: seq<StoredBattery>)
    ensures |r| == |vs|
    ensures forall i :: 0 <= i < |vs| ==> r[i] == BatteryDefaults(vs[i], nowMs)
  {
    seq(|vs|, i requires 0 <= i < |vs| => BatteryDefaults(vs[i], nowMs))
  }

  /** Afterwards every vehicle has all three fields; one that had no status
      has a percent in [0, 100] and the status it implies; one that had a
      status keeps it and its stamp; and a second run changes nothing. */
  lemma {:induction false} BatteryDefaultsEffect(v: StoredBattery, nowMs: int)
    ensures var r := BatteryDefaults(v, nowMs);
            && !r.percent.PercentMissing? && r.updatedAt.Some? && r.status.Some?
            && (v.updatedAt.Some? ==> r.updatedAt == v.updatedAt)
            && (v.status.Some? ==> r.status == v.status && (v.percent.PercentMissing? || r.percent == v.percent))
            && (v.status.None? ==>
                  exists p :: 0 <= p <= 100 && r.percent == PercentNumber(Num(p as real))
                              && r.status == Some(StatusName(CalculateBatteryStatus(p))))
            && BatteryDefaults(r, nowMs) == r
  {
    var r := BatteryDefaults(v, nowMs);
    if v.status.None? {
      var percent := if v.percent.PercentMissing? then PercentNumber(Num(BatteryPercentDefault as real)) else v.percent;
      var p := ClampBatteryPercent(if percent.PercentNumber? then percent.n else Num(BatteryPercentDefault as real));
      assert r.percent == PercentNumber(Num(p as real));
    }
  }
}
