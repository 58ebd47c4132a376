/** Station seeding at startup (src/startup/ensure-stations.ts): every seed
    station whose name|address key is not yet in the collection is
    inserted, without its seed `id`. */
module SeedStations {
  import opened ChargingTickets

  /** An entry of the seed list: its seed id and the document it becomes. */
  datatype StationSeed = StationSeed(id: string, station: Station)

  /** stationKey: name, a bar, then the address. */
  function StationKey(name: string, address: string): (k: string)
    ensures |k| == |name| + 1 + |address|
    ensures k[..|name|] == name && k[|name|] == '|' && k[|name| + 1..] == address
  {
    name + "|" + address
  }

  function KeyOf(s: Station): string
  {
    StationKey(s.name, s.address)
  }

  /** The keys of the stored stations. */
  function ExistingKeys(stations: seq<Station>): (keys: set<string>)
    ensures forall s :: s in stations ==> KeyOf(s) in keys
    ensures forall k :: k in keys ==> exists s :: s in stations && KeyOf(s) == k
  {
    set s | s in stations :: KeyOf(s)
  }

  /** The documents to insert: the seeds whose key is not among `keys`, in
      seed order, each without its id. */
  function ToInsert(seeds: seq<StationSeed>, keys: set<string>): (r: seq<Station>)
    ensures |r| <= |seeds|
    ensures forall st :: st in r ==> KeyOf(st) !in keys
  {
    if seeds == [] then []
    else
      var rest := ToInsert(seeds[1..], keys);
      if KeyOf(seeds[0].station) in keys then rest else [seeds[0].station] + rest
  }

  /** The documents inserted are exactly the stations of the seeds whose
      key is absent. */
  lemma {:induction false} ToInsertExactly(seeds: seq<StationSeed>, keys: set<string>)
    ensures forall st :: st in ToInsert(seeds, keys) <==>
              (exists i :: 0 <= i < |seeds| && seeds[i].station == st) && KeyOf(st) !in keys
  {
    if seeds != [] {
      ToInsertExactly(seeds[1..], keys);
      assert forall i :: 1 <= i < |seeds| ==> seeds[i] == seeds[1..][i - 1];
      forall st | (exists i :: 0 <= i < |seeds| && seeds[i].station == st) && KeyOf(st) !in keys
        ensures st in ToInsert(seeds, keys)
      {
        var i :| 0 <= i < |seeds| && seeds[i].station == st;
        if i > 0 {
          assert seeds[1..][i - 1].station == st;
        }
      }
    }
  }

  /** The filter keeps seed order: seeds taken one after another add their
      documents at the end. */
  lemma {:induction false} ToInsertAppend(a: seq<StationSeed>, b: seq<StationSeed>, keys: set<string>)
    ensures ToInsert(a + b, keys) == ToInsert(a, keys) + ToInsert(b, keys)
  {
    if a == [] {
      assert a + b == b;
    } else {
      var x := a[0].station;
      assert (a + b)[0] == a[0] && (a + b)[1..] == a[1..] + b;
      ToInsertAppend(a[1..], b, keys);
      var p, q := ToInsert(a[1..], keys), ToInsert(b, keys);
      if KeyOf(x) in keys {
        assert ToInsert(a, keys) == p;
        assert ToInsert(a + b, keys) == p + q;
      } else {
        assert ToInsert(a, keys) == [x] + p;
        assert ToInsert(a + b, keys) == [x] + (p + q);
        assert [x] + (p + q) == ([x] + p) + q;
      }
    }
  }

  /** Nothing is inserted when every seed key already exists. */
  lemma {:induction false} AllPresentInsertsNothing(seeds: seq<StationSeed>, keys: set<string>)
    requires forall i :: 0 <= i < |seeds| ==> KeyOf(seeds[i].station) in keys
    ensures ToInsert(seeds, keys) == []
  {
    if seeds != [] {
      assert forall i :: 0 <= i < |seeds| - 1 ==> seeds[1..][i] == seeds[i + 1];
      AllPresentInsertsNothing(seeds[1..], keys);
    }
  }

  /** The key is not injective: names or addresses holding a bar can make
      two different stations look alike, and the second is then never seeded. */
  lemma KeyCanCollide()
    ensures StationKey("A|B", "C") == StationKey("A", "B|C")
  {
  }

  /** Without a bar in the names the key tells stations apart. */
  lemma KeyInjectiveWithoutBar(n1: string, a1: string, n2: string, a2: string)
    requires '|' !in n1 && '|' !in n2
    requires StationKey(n1, a1) == StationKey(n2, a2)
    ensures n1 == n2 && a1 == a2
  {
  }

  /** The outcome of a failed read of the collection or a failed insert. */
  datatype SeedFault = NoSeedFault | FindFails | InsertFails

  /** The station collection, in insertion order. */
  class StationCollection {
    var stations: seq<Station>

    constructor (initial: seq<Station>)
      ensures stations == initial
    {
      stations := initial;
    }

    /** ensureStationsSeeded: appends the missing seeds; an error is
        swallowed and leaves the collection as it was. */
    method EnsureStationsSeeded(seeds: seq<StationSeed>, fault: SeedFault) returns (inserted: nat)
      modifies this
      ensures fault != NoSeedFault ==> stations == old(stations) && inserted == 0
      ensures fault == NoSeedFault ==>
                var added := ToInsert(seeds, ExistingKeys(old(stations)));
                stations == old(stations) + added && inserted == |added|
    {
      if fault == FindFails {
        return 0;
      }
      var keys := ExistingKeys(stations);
      var toInsert := ToInsert(seeds, keys);
      if |toInsert| == 0 {
        return 0;
      }
      if fault == InsertFails {
        return 0;
      }
      stations := stations + toInsert;
      inserted := |toInsert|;
    }
  }

  /** After a successful run every seed key is present, so a rerun inserts
      nothing; the stations stored before are kept, unchanged and first. */
  lemma RerunInsertsNothing(before: seq<Station>, seeds: seq<StationSeed>)
    ensures var after := before + ToInsert(seeds, ExistingKeys(before));
            ToInsert(seeds, ExistingKeys(after)) == []
            && after[..|before|] == before
  {
    var added := ToInsert(seeds, ExistingKeys(before));
    var after := before + added;
    forall i | 0 <= i < |seeds|
      ensures KeyOf(seeds[i].station) in ExistingKeys(after)
    {
      var st := seeds[i].station;
      if KeyOf(st) !in ExistingKeys(before) {
        ToInsertExactly(seeds, ExistingKeys(before));
        assert st in added;
      } else {
        var s :| s in before && KeyOf(s) == KeyOf(st);
        assert s in after;
      }
    }
    AllPresentInsertsNothing(seeds, ExistingKeys(after));
  }

  /** Two seeds sharing a key that is not stored yet are both inserted:
      the filter only looks at the stored keys. */
  lemma SeedDuplicatesBothInserted(a: StationSeed, b: StationSeed)
    requires KeyOf(a.station) == KeyOf(b.station)
    ensures ToInsert([a, b], {}) == [a.station, b.station]
  {
    assert [a, b][1..] == [b];
  }
}
