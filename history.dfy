/** Charging history (src/services/charging-history-service.ts over the
    collection of src/models/charging-history.ts): the normalisers, the
    recording of one finished session into an append-only store keyed
    uniquely by ticket id, and the per-user query. */
module History {
  import opened Common
  import opened Ids

  datatype SessionOutcome = CompletedOutcome | CancelledOutcome

  datatype ConnectorKind = CCS2 | Type2 | CHAdeMO

  function ConnectorName(k: ConnectorKind): string
  {
    match k
    case CCS2 => "CCS2"
    case Type2 => "Type2"
    case CHAdeMO => "CHAdeMO"
  }

  /** clampPercent: null for a non-finite number, else the rounded value kept within [0, 100]. */
  function ClampPercent(v: Num): (r: Option<int>)
    ensures r.None? <==> v.NonFinite?
    ensures r.Some? ==> 0 <= r.value <= 100
    ensures v.Num? && v.value <= 0.0 ==> r == Some(0)
    ensures v.Num? && v.value >= 100.0 ==> r == Some(100)
    ensures v.Num? && 0.0 <= v.value <= 100.0 ==> v.value - 0.5 < r.value as real <= v.value + 0.5
  {
    match v
    case NonFinite => None
    case Num(x) => Some(Clamp100(Round(x)))
  }

  /** normalizePercent: null for a value that is not a number (`None`). */
  function NormalizePercent(v: Option<Num>): (r: Option<int>)
    ensures v.None? ==> r.None?
    ensures v.Some? ==> r == ClampPercent(v.value)
  {
    if v.None? then None else ClampPercent(v.value)
  }

  /** normalizeDurationMs: null for a non-number or a non-finite number,
      else the rounded value, at least 0. */
  function NormalizeDurationMs(v: Option<Num>): (r: Option<int>)
    ensures r.Some? <==> v.Some? && v.value.Num?
    ensures r.Some? ==> r.value >= 0
    ensures r.Some? && v.value.value <= 0.0 ==> r.value == 0
    ensures r.Some? && v.value.value >= 0.0 ==> v.value.value - 0.5 < r.value as real <= v.value.value + 0.5
  {
    if v.None? || v.value.NonFinite? then None
    else
      var n := Round(v.value.value);
      Some(if n < 0 then 0 else n)
  }

  /** resolveConnectorType: only the three schema values survive. */
  function ResolveConnectorType(v: Option<string>): (r: Option<ConnectorKind>)
    ensures r.Some? ==> v == Some(ConnectorName(r.value))
    ensures r.None? ==> forall k :: v != Some(ConnectorName(k))
  {
    if v == Some("CCS2") then Some(CCS2)
    else if v == Some("Type2") then Some(Type2)
    else if v == Some("CHAdeMO") then Some(CHAdeMO)
    else None
  }

  /** A populated station or vehicle object in a snapshot: its id fields,
      its `toString()` result, and its `name` / `address` when they are strings. */
  datatype Info = Info(id: Option<string>, rawId: Option<RawId>, toText: Option<string>, name: Option<string>, address: Option<string>)

  function InfoRef(info: Info): IdRef
  {
    Record(info.id, info.rawId, info.toText)
  }

  /** A snapshot's `stationInfo` / `vehicleInfo` value: absent or another
      non-string, non-object value, a string, or a populated object. */
  datatype InfoValue = NoInfo | InfoText(s: string) | InfoObject(info: Info)

  /** resolveSnapshotInfo: the value when it is an object, else null. */
  function SnapshotInfo(v: InfoValue): (r: Option<Info>)
    ensures r.Some? <==> v.InfoObject?
    ensures r.Some? ==> r.value == v.info
  {
    if v.InfoObject? then Some(v.info) else None
  }

  /** The ticket snapshot handed to recordChargingHistory: its own id fields,
      the station and vehicle references, their info values, and the fields
      that are copied into the entry. */
  datatype HistorySnapshot = HistorySnapshot(
    id: Option<string>,
    rawId: Option<RawId>,
    toText: Option<string>,
    station: IdRef,
    vehicle: IdRef,
    stationInfo: InfoValue,
    vehicleInfo: InfoValue,
    connectorType: Option<string>,
    startedAt: DateInput,
    progressPercent: Option<Num>,
    startingBatteryPercent: Option<Num>,
    batteryPercentage: Option<Num>,
    chargingDurationMs: Option<Num>)

  /** resolveSnapshotId: the direct reference when it resolves to a
      non-empty id, else resolveId of the raw info value (an object's id, a
      non-empty string itself). */
  function ResolveSnapshotId(direct: IdRef, info: InfoValue): (r: Option<string>)
    ensures Truthy(ResolveId(direct)) ==> r == ResolveId(direct)
    ensures !Truthy(ResolveId(direct)) && info.NoInfo? ==> r.None?
    ensures !Truthy(ResolveId(direct)) && info.InfoText? ==> r == (if info.s == "" then None else Some(info.s))
    ensures !Truthy(ResolveId(direct)) && info.InfoObject? ==> r == ResolveId(InfoRef(info.info))
  {
    var d := ResolveId(direct);
    if Truthy(d) then d
    else match info
      case NoInfo => None
      case InfoText(t) => ResolveId(Text(t))
      case InfoObject(i) => ResolveId(InfoRef(i))
  }

  /** A stored history row. */
  datatype HistoryEntry = HistoryEntry(
    user: string,
    ticketId: string,
    station: Option<string>,
    stationName: Option<string>,
    stationAddress: Option<string>,
    vehicle: Option<string>,
    vehicleName: Option<string>,
    connectorType: Option<ConnectorKind>,
    startedAtMs: Option<int>,
    endedAtMs: int,
    outcome: SessionOutcome,
    progressPercent: Option<int>,
    startingBatteryPercent: Option<int>,
    batteryPercentage: Option<int>,
    chargingDurationMs: Option<int>)

  function InfoName(info: Option<Info>): Option<string>
  {
    if info.Some? then info.value.name else None
  }

  /** The entry recordChargingHistory builds, or `None` when it returns null
      before building one. */
  function EntryFor(userId: string, snapshot: Option<HistorySnapshot>, outcome: Option<SessionOutcome>,
                    endedAt: DateInput, nowMs: int): (r: Option<HistoryEntry>)
    ensures r.None? <==>
              userId == "" || snapshot.None? || outcome.None?
              || !Truthy(ResolveId(Record(snapshot.value.id, snapshot.value.rawId, snapshot.value.toText)))
    ensures r.Some? ==> r.value.user == userId && r.value.outcome == outcome.value
                        && Some(r.value.ticketId) == ResolveId(Record(snapshot.value.id, snapshot.value.rawId, snapshot.value.toText))
    ensures r.Some? ==> r.value.endedAtMs == (if ParseDate(endedAt).Some? then ParseDate(endedAt).value else nowMs)
  {
    if userId == "" || snapshot.None? || outcome.None? then None
    else
      var s := snapshot.value;
      var ticketId := ResolveId(Record(s.id, s.rawId, s.toText));
      var endedAtMs := if ParseDate(endedAt).Some? then ParseDate(endedAt).value else nowMs;
      if !Truthy(ticketId) then None
      else Some(HistoryEntry(
        userId,
        ticketId.value,
        ResolveSnapshotId(s.station, s.stationInfo),
        InfoName(SnapshotInfo(s.stationInfo)),
        if s.stationInfo.InfoObject? then s.stationInfo.info.address else None,
        ResolveSnapshotId(s.vehicle, s.vehicleInfo),
        InfoName(SnapshotInfo(s.vehicleInfo)),
        ResolveConnectorType(s.connectorType),
        ParseDate(s.startedAt),
        endedAtMs,
        outcome.value,
        NormalizePercent(s.progressPercent),
        NormalizePercent(s.startingBatteryPercent),
        NormalizePercent(s.batteryPercentage),
        NormalizeDurationMs(s.chargingDurationMs)))
  }

  /** The percent fields of a row are absent or within [0, 100], and a
      duration is never negative. */
  ghost predicate WellFormed(e: HistoryEntry)
  {
    (e.progressPercent.Some? ==> 0 <= e.progressPercent.value <= 100)
    && (e.startingBatteryPercent.Some? ==> 0 <= e.startingBatteryPercent.value <= 100)
    && (e.batteryPercentage.Some? ==> 0 <= e.batteryPercentage.value <= 100)
    && (e.chargingDurationMs.Some? ==> e.chargingDurationMs.value >= 0)
  }

  lemma EntryWellFormed(userId: string, snapshot: Option<HistorySnapshot>, outcome: Option<SessionOutcome>,
                        endedAt: DateInput, nowMs: int)
    requires EntryFor(userId, snapshot, outcome, endedAt, nowMs).Some?
    ensures WellFormed(EntryFor(userId, snapshot, outcome, endedAt, nowMs).value)
  {
  }

  /** The unique index on `ticketId`. */
  ghost predicate TicketIdsUnique(rows: seq<HistoryEntry>)
  {
    forall i, j :: 0 <= i < j < |rows| ==> rows[i].ticketId != rows[j].ticketId
  }

  predicate HasTicket(rows: seq<HistoryEntry>, ticketId: string)
  {
    exists i :: 0 <= i < |rows| && rows[i].ticketId == ticketId
  }

  /** What recordChargingHistory yields: null (nothing to record, or a
      duplicate ticket id), the stored entry, or a rethrown error. */
  datatype RecordResult = NotRecorded | Recorded(entry: HistoryEntry) | Rethrown

  /** One call of recordChargingHistory on the stored rows: its result and
      the rows afterwards. The unique index turns a second row with the same
      ticket id into the duplicate-key error, which is answered with null. */
  function RecordOutcome(rows: seq<HistoryEntry>, userId: string, snapshot: Option<HistorySnapshot>,
                         outcome: Option<SessionOutcome>, endedAt: DateInput, nowMs: int, saveFault: bool):
    (r: (RecordResult, seq<HistoryEntry>))
    ensures !r.0.Recorded? <==> r.1 == rows
    ensures r.0.Recorded? <==>
              && EntryFor(userId, snapshot, outcome, endedAt, nowMs).Some?
              && !HasTicket(rows, EntryFor(userId, snapshot, outcome, endedAt, nowMs).value.ticketId)
              && !saveFault
    ensures r.0.Recorded? ==> r.0.entry == EntryFor(userId, snapshot, outcome, endedAt, nowMs).value && r.1 == rows + [r.0.entry]
    ensures r.0 == Rethrown <==>
              && EntryFor(userId, snapshot, outcome, endedAt, nowMs).Some?
              && !HasTicket(rows, EntryFor(userId, snapshot, outcome, endedAt, nowMs).value.ticketId)
              && saveFault
  {
    var entry := EntryFor(userId, snapshot, outcome, endedAt, nowMs);
    if entry.None? || HasTicket(rows, entry.value.ticketId) then (NotRecorded, rows)
    else if saveFault then (Rethrown, rows)
    else (Recorded(entry.value), rows + [entry.value])
  }

  // ------------------------------------------------------------------
  // The query
  // ------------------------------------------------------------------

  predicate Matches(e: HistoryEntry, userId: string, sinceMs: int)
  {
    e.user == userId && e.endedAtMs >= sinceMs
  }

  /** The rows matching `{ user, endedAt: { $gte: since } }`, in store order. */
  function Matching(rows: seq<HistoryEntry>, userId: string, sinceMs: int): (r: seq<HistoryEntry>)
    ensures forall e :: e in r <==> e in rows && Matches(e, userId, sinceMs)
    ensures |r| <= |rows|
  {
    if rows == [] then []
    else (if Matches(rows[0], userId, sinceMs) then [rows[0]] else []) + Matching(rows[1..], userId, sinceMs)
  }

  ghost predicate SortedByEndedDesc(s: seq<HistoryEntry>)
  {
    forall i, j :: 0 <= i < j < |s| ==> s[i].endedAtMs >= s[j].endedAtMs
  }

  /** Inserting into a descending sequence before the first entry that ended no later. */
  function InsertByEnded(e: HistoryEntry, s: seq<HistoryEntry>): (r: seq<HistoryEntry>)
    requires SortedByEndedDesc(s)
    ensures SortedByEndedDesc(r)
    ensures multiset(r) == multiset(s) + multiset{e}
    ensures |r| == |s| + 1
    ensures r[0] == e || (s != [] && r[0] == s[0])
  {
    if s == [] then [e]
    else if e.endedAtMs >= s[0].endedAtMs then
      ConsSorted(e, s);
      [e] + s
    else
      assert s == [s[0]] + s[1..];
      var rest := InsertByEnded(e, s[1..]);
      assert s[0].endedAtMs >= rest[0].endedAtMs;
      ConsSorted(s[0], rest);
      [s[0]] + rest
  }

  lemma ConsSorted(x: HistoryEntry, s: seq<HistoryEntry>)
    requires SortedByEndedDesc(s)
    requires s != [] ==> x.endedAtMs >= s[0].endedAtMs
    ensures SortedByEndedDesc([x] + s)
  {
    var r := [x] + s;
    forall i, j | 0 <= i < j < |r|
      ensures r[i].endedAtMs >= r[j].endedAtMs
    {
      if i > 0 {
        assert r[i] == s[i - 1] && r[j] == s[j - 1];
      } else {
        assert r[j] == s[j - 1];
      }
    }
  }

  /** `.sort({ endedAt: -1 })`, ties in no particular order. */
  function SortByEndedDesc(s: seq<HistoryEntry>): (r: seq<HistoryEntry>)
    ensures SortedByEndedDesc(r)
    ensures multiset(r) == multiset(s)
  {
    if s == [] then []
    else
      assert s == [s[0]] + s[1..];
      InsertByEnded(s[0], SortByEndedDesc(s[1..]))
  }

  /** fetchChargingHistoryForUser: nothing for an empty user id; otherwise
      every row of the user that ended at or after `since`, latest first. */
  function FetchChargingHistoryForUser(rows: seq<HistoryEntry>, userId: string, sinceMs: int): (r: seq<HistoryEntry>)
    ensures userId == "" ==> r == []
    ensures userId != "" ==> multiset(r) == multiset(Matching(rows, userId, sinceMs))
    ensures SortedByEndedDesc(r)
  {
    if userId == "" then [] else SortByEndedDesc(Matching(rows, userId, sinceMs))
  }

  /** The fetched rows are exactly the user's rows since `since`. */
  lemma FetchExactly(rows: seq<HistoryEntry>, userId: string, sinceMs: int)
    requires userId != ""
    ensures forall e :: e in FetchChargingHistoryForUser(rows, userId, sinceMs) <==> e in rows && Matches(e, userId, sinceMs)
  {
    var r := FetchChargingHistoryForUser(rows, userId, sinceMs);
    forall e ensures e in r <==> e in Matching(rows, userId, sinceMs) {
      assert e in r <==> e in multiset(r);
      assert e in Matching(rows, userId, sinceMs) <==> e in multiset(Matching(rows, userId, sinceMs));
    }
  }

  // ------------------------------------------------------------------
  // The store
  // ------------------------------------------------------------------

  class HistoryStore {
    var rows: seq<HistoryEntry>

    constructor ()
      ensures rows == []
    {
      rows := [];
    }

    /** recordChargingHistory. `saveFault` is a failure of `save` other than
        the duplicate-key error (code 11000), which the store raises itself
        when a row with the same ticket id exists. */
    method RecordChargingHistory(userId: string, snapshot: Option<HistorySnapshot>, outcome: Option<SessionOutcome>,
                                 endedAt: DateInput, nowMs: int, saveFault: bool)
      returns (result: RecordResult)
      modifies this
      ensures var entry := EntryFor(userId, snapshot, outcome, endedAt, nowMs);
              && (entry.None? ==> result == NotRecorded && rows == old(rows))
              && (entry.Some? && HasTicket(old(rows), entry.value.ticketId) ==> result == NotRecorded && rows == old(rows))
              && (entry.Some? && !HasTicket(old(rows), entry.value.ticketId) && saveFault ==> result == Rethrown && rows == old(rows))
              && (entry.Some? && !HasTicket(old(rows), entry.value.ticketId) && !saveFault ==>
                    result == Recorded(entry.value) && rows == old(rows) + [entry.value])
      ensures (result, rows) == RecordOutcome(old(rows), userId, snapshot, outcome, endedAt, nowMs, saveFault)
      ensures old(TicketIdsUnique(rows)) ==> TicketIdsUnique(rows)
      ensures forall i :: 0 <= i < |old(rows)| ==> i < |rows| && rows[i] == old(rows)[i]
    {
      var entry := EntryFor(userId, snapshot, outcome, endedAt, nowMs);
      if entry.None? {
        return NotRecorded;
      }
      if HasTicket(rows, entry.value.ticketId) {
        return NotRecorded;
      }
      if saveFault {
        return Rethrown;
      }
      rows := rows + [entry.value];
      result := Recorded(entry.value);
    }

    /** fetchChargingHistoryForUser over the stored rows. */
    method FetchForUser(userId: string, sinceMs: int) returns (found: seq<HistoryEntry>)
      ensures found == FetchChargingHistoryForUser(rows, userId, sinceMs)
    {
      if userId == "" {
        return [];
      }
      found := SortByEndedDesc(Matching(rows, userId, sinceMs));
    }
  }

  /** Recording the same session twice leaves one row for its ticket: the
      second save hits the unique index and returns null, and the rows are
      those after the first call, whatever the second call's time or fault. */
  lemma {:induction false} SecondRecordIsDuplicate(
    rows: seq<HistoryEntry>, userId: string, snapshot: Option<HistorySnapshot>, outcome: Option<SessionOutcome>,
    endedAt: DateInput, now1: int, now2: int, fault2: bool)
    requires RecordOutcome(rows, userId, snapshot, outcome, endedAt, now1, false).0.Recorded?
    ensures var first := RecordOutcome(rows, userId, snapshot, outcome, endedAt, now1, false);
            var second := RecordOutcome(first.1, userId, snapshot, outcome, endedAt, now2, fault2);
            var id := first.0.entry.ticketId;
            && second == (NotRecorded, first.1)
            && |first.1| == |rows| + 1
            && forall i :: 0 <= i < |first.1| && first.1[i].ticketId == id ==> i == |rows|
  {
    var first := RecordOutcome(rows, userId, snapshot, outcome, endedAt, now1, false);
    var e := first.0.entry;
    var e2 := EntryFor(userId, snapshot, outcome, endedAt, now2);
    assert e2.Some? && e2.value.ticketId == e.ticketId;
    assert first.1[|rows|] == e;
    assert HasTicket(first.1, e.ticketId);
    assert !HasTicket(rows, e.ticketId);
    forall i | 0 <= i < |rows| ensures first.1[i].ticketId != e.ticketId {
      assert first.1[i] == rows[i];
    }
  }
}
