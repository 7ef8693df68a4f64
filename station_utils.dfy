/** Station bookkeeping (iganima/iganima_utils.py): looking stations up in
    the inventory, attaching their distance to the event, ordering traces by
    that distance, and the small string formulas for status, pick
    identifiers and event identifiers. */
module StationUtils {
  import opened Wrappers
  import opened Strings
  import Sorting

  // ---------------------------------------------------------------------
  // Inventory lookup

  /** Position of a station as the inventory records it. */
  datatype Coordinates = Coordinates(latitude: real, longitude: real, elevation: real)

  datatype InventoryStation = InventoryStation(code: string, coords: Coordinates)

  /** One network of the inventory with its stations, in inventory order. */
  datatype InventoryNetwork = InventoryNetwork(code: string, stations: seq<InventoryStation>)

  /** A `(network code, station code)` pair. */
  type StationKey = (string, string)

  /** The entries of one network as the nested loop visits them. */
  function NetworkEntries(net: InventoryNetwork): (r: seq<(StationKey, Coordinates)>)
    ensures |r| == |net.stations|
  {
    seq(|net.stations|, j requires 0 <= j < |net.stations| =>
      ((net.code, net.stations[j].code), net.stations[j].coords))
  }

  /** All `(key, coordinates)` pairs in the order `for net: for sta:` visits them. */
  function InventoryEntries(inventory: seq<InventoryNetwork>): seq<(StationKey, Coordinates)>
  {
    if inventory == [] then []
    else InventoryEntries(inventory[..|inventory| - 1]) + NetworkEntries(inventory[|inventory| - 1])
  }

  /** A dict filled by assignment in entry order: a later entry overwrites
      an earlier one with the same key. */
  function MappingOf(entries: seq<(StationKey, Coordinates)>): map<StationKey, Coordinates>
  {
    if entries == [] then map[]
    else MappingOf(entries[..|entries| - 1])[entries[|entries| - 1].0 := entries[|entries| - 1].1]
  }

  /** A key is mapped exactly when some entry carries it. */
  lemma {:induction false} MappingOfKeys(entries: seq<(StationKey, Coordinates)>, key: StationKey)
    ensures key in MappingOf(entries) <==> exists i :: 0 <= i < |entries| && entries[i].0 == key
  {
    if entries != [] {
      var n := |entries| - 1;
      var prefix := entries[..n];
      MappingOfKeys(prefix, key);
      if entries[n].0 != key {
        forall i | 0 <= i < n && prefix[i].0 == key ensures entries[i].0 == key {
        }
        forall i | 0 <= i < |entries| && entries[i].0 == key
          ensures i < n && prefix[i].0 == key
        {
        }
      }
    }
  }

  /** A key is mapped to the coordinates of the last entry carrying it. */
  lemma {:induction false} MappingOfLastWins(entries: seq<(StationKey, Coordinates)>, key: StationKey, i: nat)
    requires i < |entries| && entries[i].0 == key
    requires forall j :: i < j < |entries| ==> entries[j].0 != key
    ensures key in MappingOf(entries) && MappingOf(entries)[key] == entries[i].1
  {
    var n := |entries| - 1;
    var prefix := entries[..n];
    if i < n {
      assert forall j :: i < j < |prefix| ==> prefix[j] == entries[j];
      MappingOfLastWins(prefix, key, i);
    }
  }

  lemma MappingOfSnoc(entries: seq<(StationKey, Coordinates)>, e: (StationKey, Coordinates))
    ensures MappingOf(entries + [e]) == MappingOf(entries)[e.0 := e.1]
  {
    assert (entries + [e])[..|entries|] == entries;
  }

  /** The inventory mapping of `create_stations_dict`, built by the nested loop. */
  method BuildInventoryMapping(inventory: seq<InventoryNetwork>) returns (m: map<StationKey, Coordinates>)
    ensures m == MappingOf(InventoryEntries(inventory))
  {
    m := map[];
    var i := 0;
    while i < |inventory|
      invariant 0 <= i <= |inventory|
      invariant m == MappingOf(InventoryEntries(inventory[..i]))
    {
      m := AddNetwork(m, InventoryEntries(inventory[..i]), inventory[i]);
      assert inventory[..i + 1][..i] == inventory[..i];
      assert InventoryEntries(inventory[..i + 1]) == InventoryEntries(inventory[..i]) + NetworkEntries(inventory[i]);
      i := i + 1;
    }
    assert inventory[..i] == inventory;
  }

  /** The inner loop: every station of one network, in order. */
  method AddNetwork(m: map<StationKey, Coordinates>, ghost before: seq<(StationKey, Coordinates)>, net: InventoryNetwork)
    returns (m': map<StationKey, Coordinates>)
    requires m == MappingOf(before)
    ensures m' == MappingOf(before + NetworkEntries(net))
  {
    m' := m;
    var j := 0;
    assert before + NetworkEntries(net)[..0] == before;
    while j < |net.stations|
      invariant 0 <= j <= |net.stations|
      invariant m' == MappingOf(before + NetworkEntries(net)[..j])
    {
      var sta := net.stations[j];
      MappingOfSnoc(before + NetworkEntries(net)[..j], ((net.code, sta.code), sta.coords));
      assert before + NetworkEntries(net)[..j + 1] == before + NetworkEntries(net)[..j] + [((net.code, sta.code), sta.coords)];
      m' := m'[(net.code, sta.code) := sta.coords];
      j := j + 1;
    }
    assert NetworkEntries(net)[..j] == NetworkEntries(net);
  }

  /** One station dict of the list `create_stations_dict` returns; the
      distance key is absent until `attach_distance_dict` adds it. */
  class StationEntry {
    var stationId: string
    var latitude: real
    var longitude: real
    var elevation: real
    var distance: Option<real>

    constructor (stationId: string, coords: Coordinates)
      ensures this.stationId == stationId && latitude == coords.latitude
      ensures longitude == coords.longitude && elevation == coords.elevation
      ensures distance == None
    {
      this.stationId := stationId;
      latitude := coords.latitude;
      longitude := coords.longitude;
      elevation := coords.elevation;
      distance := None;
    }

    /** The entry is the one built for `id` at `coords`, with no distance yet. */
    predicate Holds(id: string, coords: Coordinates)
      reads this
    {
      stationId == id && distance == None
      && latitude == coords.latitude && longitude == coords.longitude && elevation == coords.elevation
    }

    /** `attach_distance_dict`: sets (or overwrites) the distance from the
        station to the event epicentre, touches nothing else, and hands
        back the same object. `geodesic` stands for the first component of
        `gps2dist_azimuth`. */
    method AttachDistance(eventLat: real, eventLon: real, geodesic: (real, real, real, real) -> real)
      returns (same: StationEntry)
      modifies this
      ensures same == this
      ensures distance == Some(geodesic(latitude, longitude, eventLat, eventLon))
      ensures stationId == old(stationId) && latitude == old(latitude)
      ensures longitude == old(longitude) && elevation == old(elevation)
    {
      distance := Some(geodesic(latitude, longitude, eventLat, eventLon));
      same := this;
    }
  }

  /** Whether an identifier unpacks into `network_code, station_code`. */
  predicate TwoParts(id: string)
  {
    |Split(id, '.')| == 2
  }

  /** Whether every identifier of `ids` is well formed. */
  predicate AllTwoParts(ids: seq<string>)
  {
    ids == [] || (AllTwoParts(ids[..|ids| - 1]) && TwoParts(ids[|ids| - 1]))
  }

  lemma {:induction false} AllTwoPartsMeans(ids: seq<string>)
    ensures AllTwoParts(ids) <==> forall k :: 0 <= k < |ids| ==> TwoParts(ids[k])
  {
    if ids != [] {
      var init := ids[..|ids| - 1];
      AllTwoPartsMeans(init);
      assert forall k :: 0 <= k < |init| ==> init[k] == ids[k];
    }
  }

  function KeyOf(id: string): StationKey
    requires TwoParts(id)
  {
    (Split(id, '.')[0], Split(id, '.')[1])
  }

  /** The identifiers the inventory knows, in iteration order. */
  function FoundIds(ids: seq<string>, mapping: map<StationKey, Coordinates>): (r: seq<string>)
    ensures |r| <= |ids|
    ensures forall i :: 0 <= i < |r| ==> TwoParts(r[i]) && KeyOf(r[i]) in mapping
  {
    if ids == [] then []
    else
      var last := ids[|ids| - 1];
      FoundIds(ids[..|ids| - 1], mapping) + (if TwoParts(last) && KeyOf(last) in mapping then [last] else [])
  }

  /** An identifier is kept exactly when it is well formed and in the
      inventory; every other one is dropped without a trace. */
  lemma {:induction false} FoundIdsMembers(ids: seq<string>, mapping: map<StationKey, Coordinates>, id: string)
    ensures id in FoundIds(ids, mapping) <==> id in ids && TwoParts(id) && KeyOf(id) in mapping
  {
    if ids != [] {
      FoundIdsMembers(ids[..|ids| - 1], mapping, id);
      assert ids == ids[..|ids| - 1] + [ids[|ids| - 1]];
    }
  }

  /** `station_info_dict`: keyed by station code only, each found
      identifier overwriting the entry of an earlier one with the same code. */
  function CodeDict(found: seq<string>, mapping: map<StationKey, Coordinates>): map<string, Coordinates>
    requires forall i :: 0 <= i < |found| ==> TwoParts(found[i]) && KeyOf(found[i]) in mapping
  {
    if found == [] then map[]
    else
      var last := found[|found| - 1];
      CodeDict(found[..|found| - 1], mapping)[KeyOf(last).1 := mapping[KeyOf(last)]]
  }

  /** Every found identifier's station code is a key of the code-keyed dict. */
  lemma {:induction false} CodeDictHasCode(found: seq<string>, mapping: map<StationKey, Coordinates>, i: nat)
    requires forall k :: 0 <= k < |found| ==> TwoParts(found[k]) && KeyOf(found[k]) in mapping
    requires i < |found|
    ensures KeyOf(found[i]).1 in CodeDict(found, mapping)
  {
    var n := |found| - 1;
    if i < n {
      var prefix := found[..n];
      assert prefix[i] == found[i];
      CodeDictHasCode(prefix, mapping, i);
    }
  }

  /** The dict holds the coordinates of the last identifier with that code. */
  lemma {:induction false} CodeDictLastWins(found: seq<string>, mapping: map<StationKey, Coordinates>, i: nat)
    requires forall k :: 0 <= k < |found| ==> TwoParts(found[k]) && KeyOf(found[k]) in mapping
    requires i < |found|
    requires forall j :: i < j < |found| ==> KeyOf(found[j]).1 != KeyOf(found[i]).1
    ensures KeyOf(found[i]).1 in CodeDict(found, mapping)
    ensures CodeDict(found, mapping)[KeyOf(found[i]).1] == mapping[KeyOf(found[i])]
  {
    var n := |found| - 1;
    if i < n {
      var prefix := found[..n];
      assert forall j :: 0 <= j < |prefix| ==> prefix[j] == found[j];
      CodeDictLastWins(prefix, mapping, i);
    }
  }

  /** Two found identifiers with the same station code (two networks that
      share a code): the list keeps both, the code-keyed dict has fewer
      entries than there are found identifiers. */
  lemma {:induction false} CodeCollision(found: seq<string>, mapping: map<StationKey, Coordinates>, i: nat, j: nat)
    requires forall k :: 0 <= k < |found| ==> TwoParts(found[k]) && KeyOf(found[k]) in mapping
    requires i < j < |found| && KeyOf(found[i]).1 == KeyOf(found[j]).1
    ensures |CodeDict(found, mapping)| < |found|
  {
    var n := |found| - 1;
    var prefix := found[..n];
    assert forall k :: 0 <= k < |prefix| ==> prefix[k] == found[k];
    if j == n {
      CodeDictHasCode(prefix, mapping, i);
      CodeDictSize(prefix, mapping);
    } else {
      CodeCollision(prefix, mapping, i, j);
    }
  }

  /** The dict never has more entries than there are found identifiers. */
  lemma {:induction false} CodeDictSize(found: seq<string>, mapping: map<StationKey, Coordinates>)
    requires forall k :: 0 <= k < |found| ==> TwoParts(found[k]) && KeyOf(found[k]) in mapping
    ensures |CodeDict(found, mapping)| <= |found|
  {
    if found != [] {
      var prefix := found[..|found| - 1];
      assert forall k :: 0 <= k < |prefix| ==> prefix[k] == found[k];
      CodeDictSize(prefix, mapping);
    }
  }

  /** Entry `k` of the list was built for the `k`-th found identifier. */
  predicate ListMatches(list: seq<StationEntry>, found: seq<string>, mapping: map<StationKey, Coordinates>)
    requires forall i :: 0 <= i < |found| ==> TwoParts(found[i]) && KeyOf(found[i]) in mapping
    reads set k | 0 <= k < |list| :: list[k]
  {
    |list| == |found| && forall k :: 0 <= k < |list| ==> list[k].Holds(found[k], mapping[KeyOf(found[k])])
  }

  /** The outcome of `create_stations_dict`: the code-keyed dict and the
      list of station entries. */
  datatype StationsDict = StationsDict(byCode: map<string, Coordinates>, list: seq<StationEntry>)

  /** `create_stations_dict`. `stationSet` lists the set's identifiers in
      its iteration order. An identifier that does not split into exactly
      two parts raises `ValueError` from the tuple unpacking. */
  method CreateStationsDict(stationSet: seq<string>, inventory: seq<InventoryNetwork>)
    returns (r: Result<StationsDict>)
    ensures r.Failure? <==> !AllTwoParts(stationSet)
    ensures r.Success? ==>
      var mapping := MappingOf(InventoryEntries(inventory));
      var found := FoundIds(stationSet, mapping);
      var list := r.value.list;
      ListMatches(list, found, mapping)
      && (forall e :: e in list ==> fresh(e))
      && r.value.byCode == CodeDict(found, mapping)
  {
    var mapping := BuildInventoryMapping(inventory);
    var ok, list, byCode, found := VisitAll(stationSet, mapping);
    if !ok {
      return Failure("ValueError");
    }
    r := Success(StationsDict(byCode, list));
  }

  /** The loop of `create_stations_dict`: it stops at the first malformed
      identifier, and otherwise leaves the state built from all of them. */
  method VisitAll(stationSet: seq<string>, mapping: map<StationKey, Coordinates>)
    returns (ok: bool, list: seq<StationEntry>, byCode: map<string, Coordinates>, ghost found: seq<string>)
    ensures ok <==> AllTwoParts(stationSet)
    ensures ok ==> Built(list, byCode, found, stationSet, mapping)
    ensures forall e :: e in list ==> fresh(e)
  {
    byCode, list, found := map[], [], [];
    var i := 0;
    while i < |stationSet|
      invariant 0 <= i <= |stationSet|
      invariant AllTwoParts(stationSet[..i])
      invariant Built(list, byCode, found, stationSet[..i], mapping)
      invariant forall e :: e in list ==> fresh(e)
    {
      ok, list, byCode, found := VisitId(stationSet, i, mapping, list, byCode, found);
      if !ok {
        MalformedAt(stationSet, i);
        return;
      }
      i := i + 1;
    }
    assert stationSet[..i] == stationSet;
    ok := true;
  }

  /** One malformed identifier makes the whole set malformed. */
  lemma MalformedAt(ids: seq<string>, i: nat)
    requires i < |ids| && !TwoParts(ids[i])
    ensures !AllTwoParts(ids)
  {
    AllTwoPartsMeans(ids);
  }

  /** The state after visiting `ids`: the found identifiers, an entry for
      each, and the code-keyed dict. */
  predicate Built(list: seq<StationEntry>, byCode: map<string, Coordinates>, found: seq<string>,
                  ids: seq<string>, mapping: map<StationKey, Coordinates>)
    reads set k | 0 <= k < |list| :: list[k]
  {
    found == FoundIds(ids, mapping) && ListMatches(list, found, mapping) && byCode == CodeDict(found, mapping)
  }

  /** One turn of the loop: unpack the identifier (`ValueError` when it is
      malformed) and record it when the inventory knows it. */
  method VisitId(stationSet: seq<string>, i: nat, mapping: map<StationKey, Coordinates>,
                 list: seq<StationEntry>, byCode: map<string, Coordinates>, ghost found: seq<string>)
    returns (ok: bool, list': seq<StationEntry>, byCode': map<string, Coordinates>, ghost found': seq<string>)
    requires i < |stationSet| && AllTwoParts(stationSet[..i])
    requires Built(list, byCode, found, stationSet[..i], mapping)
    ensures ok <==> TwoParts(stationSet[i])
    ensures ok ==> AllTwoParts(stationSet[..i + 1]) && Built(list', byCode', found', stationSet[..i + 1], mapping)
    ensures forall e :: e in list' ==> e in list || fresh(e)
  {
    list', byCode', found' := list, byCode, found;
    var id := stationSet[i];
    var parts := Split(id, '.');
    if |parts| != 2 {
      return false, list', byCode', found';
    }
    ok := true;
    FoundIdsSnoc(stationSet, i, mapping);
    assert stationSet[..i + 1][..i] == stationSet[..i];
    var key := (parts[0], parts[1]);
    if key in mapping {
      var entry;
      entry, byCode' := AddFound(list, byCode, found, id, mapping);
      list' := list + [entry];
      found' := found + [id];
    }
  }

  /** One found identifier: a new entry for it at the end of the list and
      its code's entry in the code-keyed dict. */
  method AddFound(list: seq<StationEntry>, byCode: map<string, Coordinates>, ghost found: seq<string>,
                  id: string, mapping: map<StationKey, Coordinates>)
    returns (entry: StationEntry, byCode': map<string, Coordinates>)
    requires forall i :: 0 <= i < |found| ==> TwoParts(found[i]) && KeyOf(found[i]) in mapping
    requires TwoParts(id) && KeyOf(id) in mapping
    requires ListMatches(list, found, mapping) && byCode == CodeDict(found, mapping)
    ensures ListMatches(list + [entry], found + [id], mapping) && byCode' == CodeDict(found + [id], mapping)
    ensures fresh(entry)
  {
    var coords := mapping[KeyOf(id)];
    CodeDictSnoc(found, id, mapping);
    byCode' := byCode[KeyOf(id).1 := coords];
    entry := new StationEntry(id, coords);
    assert (list + [entry])[..|list|] == list;
  }

  lemma FoundIdsSnoc(ids: seq<string>, i: nat, mapping: map<StationKey, Coordinates>)
    requires i < |ids|
    ensures FoundIds(ids[..i + 1], mapping)
         == FoundIds(ids[..i], mapping) + (if TwoParts(ids[i]) && KeyOf(ids[i]) in mapping then [ids[i]] else [])
  {
    assert ids[..i + 1][..i] == ids[..i];
  }

  lemma CodeDictSnoc(found: seq<string>, id: string, mapping: map<StationKey, Coordinates>)
    requires forall i :: 0 <= i < |found| ==> TwoParts(found[i]) && KeyOf(found[i]) in mapping
    requires TwoParts(id) && KeyOf(id) in mapping
    ensures CodeDict(found + [id], mapping) == CodeDict(found, mapping)[KeyOf(id).1 := mapping[KeyOf(id)]]
  {
    assert (found + [id])[..|found|] == found;
  }

  /** `create_station_set`: the station code of the first trace of every
      stream; an empty stream raises `IndexError`. */
  method CreateStationSet(streams: seq<seq<string>>) returns (r: Result<set<string>>)
    ensures r.Failure? <==> exists i :: 0 <= i < |streams| && streams[i] == []
    ensures r.Success? ==> r.value == set i | 0 <= i < |streams| :: streams[i][0]
  {
    var stations: seq<string> := [];
    var i := 0;
    while i < |streams|
      invariant 0 <= i <= |streams|
      invariant forall k :: 0 <= k < i ==> streams[k] != []
      invariant |stations| == i && forall k :: 0 <= k < i ==> stations[k] == streams[k][0]
    {
      if streams[i] == [] {
        return Failure("IndexError");
      }
      stations := stations + [streams[i][0]];
      i := i + 1;
    }
    r := Success(set k | 0 <= k < |stations| :: stations[k]);
  }

  // ---------------------------------------------------------------------
  // Ordering traces by distance

  /** The parts of a trace that `order_trace_list_by_distance` reads, plus
      its identifier. */
  datatype TraceInfo = TraceInfo(id: string, station: string, channel: string, distance: real)

  /** `station_dist_dict`: each trace's distance stored under its station,
      a later trace of the same station overwriting an earlier one. */
  function StationDistances(traces: seq<TraceInfo>): map<string, real>
  {
    if traces == [] then map[]
    else
      var last := traces[|traces| - 1];
      StationDistances(traces[..|traces| - 1])[last.station := last.distance]
  }

  /** The keys of `station_dist_dict` in insertion order: each station at
      its first occurrence. */
  function StationOrder(traces: seq<TraceInfo>): seq<string>
  {
    if traces == [] then []
    else
      var keys := StationOrder(traces[..|traces| - 1]);
      var last := traces[|traces| - 1];
      if last.station in keys then keys else keys + [last.station]
  }

  predicate Distinct<T(==)>(s: seq<T>)
  {
    forall i, j :: 0 <= i < j < |s| ==> s[i] != s[j]
  }

  /** The insertion-ordered keys are distinct and are exactly the stations
      of the traces, which are exactly the keys of the distance dict. */
  lemma {:induction false} StationOrderKeys(traces: seq<TraceInfo>)
    ensures Distinct(StationOrder(traces))
    ensures forall s :: s in StationOrder(traces) <==> s in StationDistances(traces)
    ensures forall s :: s in StationDistances(traces) <==> exists i :: 0 <= i < |traces| && traces[i].station == s
  {
    if traces != [] {
      var n := |traces| - 1;
      StationOrderKeys(traces[..n]);
      forall s | s in StationDistances(traces)
        ensures exists i :: 0 <= i < |traces| && traces[i].station == s
      {
        if s != traces[n].station {
          assert s in StationDistances(traces[..n]);
          var i :| 0 <= i < n && traces[..n][i].station == s;
          assert traces[i].station == s;
        }
      }
      forall s | exists i :: 0 <= i < |traces| && traces[i].station == s
        ensures s in StationDistances(traces)
      {
        var i :| 0 <= i < |traces| && traces[i].station == s;
        if i < n {
          assert traces[..n][i].station == s;
        }
      }
    }
  }

  /** The sort key of `sorted(station_dist_dict, key=station_dist_dict.get)`. */
  function DistanceIn(d: map<string, real>): string -> real
  {
    s => if s in d then d[s] else 0.0
  }

  /** The traces of `station` on channel `channel`, in input order. */
  function Select(traces: seq<TraceInfo>, station: string, channel: string): (r: seq<TraceInfo>)
    ensures forall i :: 0 <= i < |r| ==> r[i].station == station && r[i].channel == channel
  {
    if traces == [] then []
    else
      var last := traces[|traces| - 1];
      Select(traces[..|traces| - 1], station, channel)
        + (if last.station == station && last.channel == channel then [last] else [])
  }

  /** The traces of each key in turn: the nested loop over sorted stations
      and over all traces. */
  function Gather(keys: seq<string>, traces: seq<TraceInfo>, channel: string): seq<TraceInfo>
  {
    if keys == [] then []
    else Gather(keys[..|keys| - 1], traces, channel) + Select(traces, keys[|keys| - 1], channel)
  }

  /** Every gathered trace is on the channel and belongs to one of the keys. */
  lemma {:induction false} GatherStations(keys: seq<string>, traces: seq<TraceInfo>, channel: string, i: nat)
    requires i < |Gather(keys, traces, channel)|
    ensures Gather(keys, traces, channel)[i].station in keys
    ensures Gather(keys, traces, channel)[i].channel == channel
  {
    var n := |keys| - 1;
    var prefix := Gather(keys[..n], traces, channel);
    if i < |prefix| {
      GatherStations(keys[..n], traces, channel, i);
      assert keys[..n] <= keys;
    }
  }

  /** The output `order_trace_list_by_distance` promises. */
  function OrderedByDistance(traces: seq<TraceInfo>, channel: string): seq<TraceInfo>
  {
    Gather(Sorting.SortByKey(StationOrder(traces), DistanceIn(StationDistances(traces))), traces, channel)
  }

  /** The traces on `channel`, in input order. */
  function OnChannel(traces: seq<TraceInfo>, channel: string): seq<TraceInfo>
  {
    if traces == [] then []
    else
      var last := traces[|traces| - 1];
      OnChannel(traces[..|traces| - 1], channel) + (if last.channel == channel then [last] else [])
  }

  /** The traces of `station`, whatever their channel, in order. */
  function OfStation(traces: seq<TraceInfo>, station: string): seq<TraceInfo>
  {
    if traces == [] then []
    else
      var last := traces[|traces| - 1];
      OfStation(traces[..|traces| - 1], station) + (if last.station == station then [last] else [])
  }

  /** The first loop of `order_trace_list_by_distance`: each station's
      last distance, and the stations in first-seen order. */
  method CollectDistances(traces: seq<TraceInfo>) returns (dist: map<string, real>, keys: seq<string>)
    ensures dist == StationDistances(traces) && keys == StationOrder(traces)
  {
    dist, keys := map[], [];
    var i := 0;
    while i < |traces|
      invariant 0 <= i <= |traces|
      invariant dist == StationDistances(traces[..i]) && keys == StationOrder(traces[..i])
    {
      StationOrderKeys(traces[..i]);
      assert traces[..i + 1][..i] == traces[..i];
      if traces[i].station !in keys {
        keys := keys + [traces[i].station];
      }
      dist := dist[traces[i].station := traces[i].distance];
      i := i + 1;
    }
    assert traces[..i] == traces;
  }

  /** The inner loop: append the traces of one station on the channel. */
  method AppendStation(ordered: seq<TraceInfo>, traces: seq<TraceInfo>, station: string, channel: string)
    returns (r: seq<TraceInfo>)
    ensures r == ordered + Select(traces, station, channel)
  {
    r := ordered;
    var j := 0;
    while j < |traces|
      invariant 0 <= j <= |traces|
      invariant r == ordered + Select(traces[..j], station, channel)
    {
      assert traces[..j + 1][..j] == traces[..j];
      if traces[j].station == station && traces[j].channel == channel {
        r := r + [traces[j]];
      }
      j := j + 1;
    }
    assert traces[..j] == traces;
  }

  /** `order_trace_list_by_distance`. */
  method OrderTraceListByDistance(traces: seq<TraceInfo>, plotChannel: string) returns (ordered: seq<TraceInfo>)
    ensures ordered == OrderedByDistance(traces, plotChannel)
  {
    var dist, keys := CollectDistances(traces);
    var sortedKeys := Sorting.SortByKey(keys, DistanceIn(dist));
    ordered := [];
    var k := 0;
    while k < |sortedKeys|
      invariant 0 <= k <= |sortedKeys|
      invariant ordered == Gather(sortedKeys[..k], traces, plotChannel)
    {
      ordered := AppendStation(ordered, traces, sortedKeys[k], plotChannel);
      assert sortedKeys[..k + 1][..k] == sortedKeys[..k];
      k := k + 1;
    }
    assert sortedKeys[..k] == sortedKeys;
  }

  // The three promises: exactly the traces on the plot channel, ordered by
  // their station's last distance, each station's traces in input order.

  lemma {:induction false} SelectOfStation(traces: seq<TraceInfo>, station: string, channel: string)
    ensures Select(traces, station, channel) == OfStation(OnChannel(traces, channel), station)
  {
    if traces != [] {
      SelectOfStation(traces[..|traces| - 1], station, channel);
      var last := traces[|traces| - 1];
      var rest := OnChannel(traces[..|traces| - 1], channel);
      if last.channel == channel {
        assert (rest + [last])[..|rest|] == rest;
      } else {
        assert rest + [] == rest;
      }
    }
  }

  lemma {:induction false} OfStationConcat(a: seq<TraceInfo>, b: seq<TraceInfo>, station: string)
    ensures OfStation(a + b, station) == OfStation(a, station) + OfStation(b, station)
  {
    if b != [] {
      OfStationConcat(a, b[..|b| - 1], station);
      assert (a + b)[..|a + b| - 1] == a + b[..|b| - 1];
    } else {
      assert a + b == a;
    }
  }

  lemma {:induction false} OfStationOfSelect(traces: seq<TraceInfo>, key: string, channel: string, station: string)
    ensures OfStation(Select(traces, key, channel), station)
         == if key == station then Select(traces, key, channel) else []
  {
    if traces != [] {
      var n := |traces| - 1;
      OfStationOfSelect(traces[..n], key, channel, station);
      var prefix := Select(traces[..n], key, channel);
      var tail := if traces[n].station == key && traces[n].channel == channel then [traces[n]] else [];
      OfStationConcat(prefix, tail, station);
      if tail != [] {
        assert OfStation(tail, station) == OfStation([], station) + (if tail[0].station == station then tail else []) by {
          assert tail[..0] == [];
        }
      }
    }
  }

  /** The traces of one station, in the gathered output, are that
      station's block and nothing else. */
  lemma {:induction false} OfStationOfGather(keys: seq<string>, traces: seq<TraceInfo>, channel: string, station: string)
    requires Distinct(keys)
    ensures OfStation(Gather(keys, traces, channel), station)
         == if station in keys then Select(traces, station, channel) else []
  {
    if keys != [] {
      var n := |keys| - 1;
      var prefix := keys[..n];
      assert Distinct(prefix);
      OfStationOfGather(prefix, traces, channel, station);
      assert Gather(keys, traces, channel) == Gather(prefix, traces, channel) + Select(traces, keys[n], channel);
      OfStationConcat(Gather(prefix, traces, channel), Select(traces, keys[n], channel), station);
      OfStationOfSelect(traces, keys[n], channel, station);
      assert keys == prefix + [keys[n]];
      if station == keys[n] {
        assert station !in prefix;
      }
    }
  }

  /** Same-station traces keep their input order: for every station, its
      traces in the output are exactly its traces on the plot channel, in
      input order. */
  lemma OrderedByDistanceStable(traces: seq<TraceInfo>, channel: string, station: string)
    ensures OfStation(OrderedByDistance(traces, channel), station) == OfStation(OnChannel(traces, channel), station)
  {
    var keys := StationOrder(traces);
    var sorted := Sorting.SortByKey(keys, DistanceIn(StationDistances(traces)));
    StationOrderKeys(traces);
    Sorting.SortByKeyOrdersAndPermutes(keys, DistanceIn(StationDistances(traces)));
    DistinctPermutation(keys, sorted);
    OfStationOfGather(sorted, traces, channel, station);
    SelectOfStation(traces, station, channel);
    if station !in sorted {
      assert station !in keys by {
        assert multiset(sorted)[station] == 0;
      }
      NoStationNoTraces(traces, channel, station);
    }
  }

  lemma {:induction false} NoStationNoTraces(traces: seq<TraceInfo>, channel: string, station: string)
    requires forall i :: 0 <= i < |traces| ==> traces[i].station != station
    ensures OfStation(OnChannel(traces, channel), station) == []
  {
    if traces != [] {
      NoStationNoTraces(traces[..|traces| - 1], channel, station);
      OfStationConcat(OnChannel(traces[..|traces| - 1], channel),
                      if traces[|traces| - 1].channel == channel then [traces[|traces| - 1]] else [], station);
      var t := [traces[|traces| - 1]];
      assert t[..0] == [];
    }
  }

  /** A permutation of a sequence without repeats has no repeats. */
  lemma DistinctPermutation<T>(a: seq<T>, b: seq<T>)
    requires Distinct(a) && multiset(a) == multiset(b)
    ensures Distinct(b)
  {
    forall i, j | 0 <= i < j < |b| ensures b[i] != b[j] {
      if b[i] == b[j] {
        assert multiset(b)[b[i]] >= 2 by {
          assert b == b[..i] + [b[i]] + b[i + 1..j] + [b[j]] + b[j + 1..];
        }
        DistinctCount(a, b[i]);
      }
    }
  }

  lemma {:induction false} DistinctCount<T>(a: seq<T>, x: T)
    requires Distinct(a)
    ensures multiset(a)[x] <= 1
  {
    if a != [] {
      var n := |a| - 1;
      assert Distinct(a[..n]);
      DistinctCount(a[..n], x);
      assert a == a[..n] + [a[n]];
      if a[n] == x {
        assert x !in a[..n];
      }
    }
  }

  /** Per-station distance from the output's point of view. */
  predicate ByStationDistance(ordered: seq<TraceInfo>, d: map<string, real>)
  {
    forall i, j :: 0 <= i < j < |ordered| ==> DistanceIn(d)(ordered[i].station) <= DistanceIn(d)(ordered[j].station)
  }

  lemma {:induction false} GatherSorted(keys: seq<string>, traces: seq<TraceInfo>, channel: string, d: map<string, real>)
    requires Sorting.SortedBy(keys, DistanceIn(d))
    ensures ByStationDistance(Gather(keys, traces, channel), d)
  {
    if keys != [] {
      var n := |keys| - 1;
      var prefix := keys[..n];
      assert Sorting.SortedBy(prefix, DistanceIn(d));
      GatherSorted(prefix, traces, channel, d);
      var a := Gather(prefix, traces, channel);
      var b := Select(traces, keys[n], channel);
      var out := a + b;
      forall i, j | 0 <= i < j < |out|
        ensures DistanceIn(d)(out[i].station) <= DistanceIn(d)(out[j].station)
      {
        if j >= |a| {
          assert out[j] == b[j - |a|];
          if i < |a| {
            assert out[i] == a[i];
            GatherStations(prefix, traces, channel, i);
            var p :| 0 <= p < |prefix| && prefix[p] == a[i].station;
            assert keys[p] == prefix[p];
          }
        } else {
          assert out[i] == a[i] && out[j] == a[j];
        }
      }
    }
  }

  /** The output is ordered by non-decreasing distance of its traces'
      stations, where a station's distance is the last one seen for it. */
  lemma OrderedByDistanceSorted(traces: seq<TraceInfo>, channel: string)
    ensures ByStationDistance(OrderedByDistance(traces, channel), StationDistances(traces))
  {
    var d := StationDistances(traces);
    Sorting.SortByKeyOrdersAndPermutes(StationOrder(traces), DistanceIn(d));
    GatherSorted(Sorting.SortByKey(StationOrder(traces), DistanceIn(d)), traces, channel, d);
  }

  /** The traces on `channel` whose station is in `keys`. */
  function OnChannelIn(traces: seq<TraceInfo>, keys: set<string>, channel: string): seq<TraceInfo>
  {
    if traces == [] then []
    else
      var last := traces[|traces| - 1];
      OnChannelIn(traces[..|traces| - 1], keys, channel)
        + (if last.station in keys && last.channel == channel then [last] else [])
  }

  lemma {:induction false} OnChannelInSplit(traces: seq<TraceInfo>, keys: set<string>, k: string, channel: string)
    requires k !in keys
    ensures multiset(OnChannelIn(traces, keys + {k}, channel))
         == multiset(OnChannelIn(traces, keys, channel)) + multiset(Select(traces, k, channel))
  {
    if traces != [] {
      var init, last := traces[..|traces| - 1], traces[|traces| - 1];
      OnChannelInSplit(init, keys, k, channel);
      var a := if last.station in keys + {k} && last.channel == channel then [last] else [];
      var b := if last.station in keys && last.channel == channel then [last] else [];
      var c := if last.station == k && last.channel == channel then [last] else [];
      assert OnChannelIn(traces, keys + {k}, channel) == OnChannelIn(init, keys + {k}, channel) + a;
      assert OnChannelIn(traces, keys, channel) == OnChannelIn(init, keys, channel) + b;
      assert Select(traces, k, channel) == Select(init, k, channel) + c;
      assert multiset(a) == multiset(b) + multiset(c);
      assert multiset(OnChannelIn(traces, keys + {k}, channel)) == multiset(OnChannelIn(init, keys + {k}, channel)) + multiset(a);
      assert multiset(OnChannelIn(traces, keys, channel)) == multiset(OnChannelIn(init, keys, channel)) + multiset(b);
      assert multiset(Select(traces, k, channel)) == multiset(Select(init, k, channel)) + multiset(c);
    }
  }

  function KeySet(keys: seq<string>): set<string>
  {
    set k | k in keys
  }

  lemma KeySetSnoc(keys: seq<string>)
    requires keys != []
    ensures KeySet(keys) == KeySet(keys[..|keys| - 1]) + {keys[|keys| - 1]}
  {
    assert keys == keys[..|keys| - 1] + [keys[|keys| - 1]];
  }

  lemma {:induction false} GatherMultiset(keys: seq<string>, traces: seq<TraceInfo>, channel: string)
    requires Distinct(keys)
    ensures multiset(Gather(keys, traces, channel)) == multiset(OnChannelIn(traces, KeySet(keys), channel))
  {
    if keys == [] {
      assert KeySet(keys) == {};
      EmptyKeys(traces, channel);
    } else {
      var n := |keys| - 1;
      var prefix := keys[..n];
      assert Distinct(prefix);
      GatherMultiset(prefix, traces, channel);
      assert keys[n] !in KeySet(prefix);
      OnChannelInSplit(traces, KeySet(prefix), keys[n], channel);
      KeySetSnoc(keys);
      assert Gather(keys, traces, channel) == Gather(prefix, traces, channel) + Select(traces, keys[n], channel);
    }
  }

  lemma {:induction false} EmptyKeys(traces: seq<TraceInfo>, channel: string)
    ensures OnChannelIn(traces, {}, channel) == []
  {
    if traces != [] {
      EmptyKeys(traces[..|traces| - 1], channel);
    }
  }

  lemma {:induction false} OnChannelInAll(traces: seq<TraceInfo>, keys: set<string>, channel: string)
    requires forall i :: 0 <= i < |traces| ==> traces[i].station in keys
    ensures OnChannelIn(traces, keys, channel) == OnChannel(traces, channel)
  {
    if traces != [] {
      OnChannelInAll(traces[..|traces| - 1], keys, channel);
    }
  }

  /** The output holds exactly the traces on the plot channel, each as
      often as in the input. */
  lemma OrderedByDistancePermutes(traces: seq<TraceInfo>, channel: string)
    ensures multiset(OrderedByDistance(traces, channel)) == multiset(OnChannel(traces, channel))
  {
    var keys := StationOrder(traces);
    var d := StationDistances(traces);
    var sorted := Sorting.SortByKey(keys, DistanceIn(d));
    StationOrderKeys(traces);
    Sorting.SortByKeyOrdersAndPermutes(keys, DistanceIn(d));
    DistinctPermutation(keys, sorted);
    GatherMultiset(sorted, traces, channel);
    var ks := KeySet(sorted);
    forall i | 0 <= i < |traces| ensures traces[i].station in ks {
      assert traces[i].station in d;
      assert traces[i].station in multiset(keys);
    }
    OnChannelInAll(traces, ks, channel);
  }

  // ---------------------------------------------------------------------
  // Status and identifiers

  /** `status`: the evaluation status as the panel shows it. */
  function Status(stat: string): (r: string)
    ensures r == "Preliminar" <==> stat == "automatic"
    ensures r == "Revisado" <==> stat == "manual" || stat == "confirmed"
    ensures r == "-" <==> stat !in {"automatic", "manual", "confirmed"}
  {
    if stat == "automatic" then "Preliminar"
    else if stat == "manual" || stat == "confirmed" then "Revisado"
    else "-"
  }

  /** The pick `station_id` as `picks2dataframe` writes it: with an empty
      location `NET.STA..CHA`, otherwise `NET.STA.` + location + channel
      with no dot between the last two. */
  function PickStationId(net: string, sta: string, loc: string, cha: string): string
  {
    net + "." + sta + "." + (if loc != "" then loc else ".") + cha
  }

  /** Two different picks that get the same identifier. */
  lemma PickStationIdCollides()
    ensures PickStationId("EC", "ABC", "0", "0HZ") == PickStationId("EC", "ABC", "00", "HZ")
    ensures ("0", "0HZ") != ("00", "HZ")
  {
  }

  /** The SEED identifier `NET.STA.LOC.CHA`, dot-separated in every case. */
  function SeedStationId(net: string, sta: string, loc: string, cha: string): string
  {
    net + "." + sta + "." + loc + "." + cha
  }

  /** With an empty location the written formula already gives the SEED form. */
  lemma PickStationIdEmptyLocation(net: string, sta: string, cha: string)
    ensures PickStationId(net, sta, "", cha) == SeedStationId(net, sta, "", cha)
  {
  }

  /** The SEED identifier splits back into its four codes. */
  lemma SeedStationIdRoundTrip(net: string, sta: string, loc: string, cha: string)
    requires '.' !in net && '.' !in sta && '.' !in loc && '.' !in cha
    ensures Split(SeedStationId(net, sta, loc, cha), '.') == [net, sta, loc, cha]
  {
    var id := SeedStationId(net, sta, loc, cha);
    assert id == net + ['.'] + (sta + ['.'] + (loc + ['.'] + cha));
    SplitAfterPiece(net, '.', sta + ['.'] + (loc + ['.'] + cha));
    SplitAfterPiece(sta, '.', loc + ['.'] + cha);
    SplitAfterPiece(loc, '.', cha);
    SplitWithoutSeparator(cha, '.');
  }

  /** Hence distinct picks get distinct SEED identifiers. */
  lemma SeedStationIdInjective(n1: string, s1: string, l1: string, c1: string,
                               n2: string, s2: string, l2: string, c2: string)
    requires '.' !in n1 && '.' !in s1 && '.' !in l1 && '.' !in c1
    requires '.' !in n2 && '.' !in s2 && '.' !in l2 && '.' !in c2
    requires SeedStationId(n1, s1, l1, c1) == SeedStationId(n2, s2, l2, c2)
    ensures n1 == n2 && s1 == s2 && l1 == l2 && c1 == c2
  {
    SeedStationIdRoundTrip(n1, s1, l1, c1);
    SeedStationIdRoundTrip(n2, s2, l2, c2);
  }

  /** `event2dict`'s event id: the third '/'-separated part of the resource
      identifier; fewer parts raise `IndexError` (here `None`). */
  function EventIdOf(resourceId: string): Option<string>
  {
    var parts := Split(resourceId, '/');
    if |parts| >= 3 then Some(parts[2]) else None
  }

  /** There is an event id exactly when the identifier has two slashes. */
  lemma EventIdPresence(resourceId: string)
    ensures EventIdOf(resourceId).Some? <==> Count(resourceId, '/') >= 2
  {
    SplitPieces(resourceId, '/');
  }

  /** For `a/b/c` followed by nothing or by further `/`-parts, the id is `c`. */
  lemma EventIdOfPath(a: string, b: string, c: string, rest: string)
    requires '/' !in a && '/' !in b && '/' !in c
    requires rest == [] || rest[0] == '/'
    ensures EventIdOf(a + "/" + b + "/" + c + rest) == Some(c)
  {
    var s := a + "/" + b + "/" + c + rest;
    assert s == a + ['/'] + (b + ['/'] + (c + rest));
    SplitAfterPiece(a, '/', b + ['/'] + (c + rest));
    SplitAfterPiece(b, '/', c + rest);
    if rest == [] {
      assert c + rest == c;
      SplitWithoutSeparator(c, '/');
    } else {
      assert c + rest == c + ['/'] + rest[1..];
      SplitAfterPiece(c, '/', rest[1..]);
    }
  }
}
