// The station registry and the assignment policy: the per-tick station state
// machine, the unloading of the truck at the front of a queue, the choice of a
// station for a newly arrived truck and the joining of its queue.
//
// As for trucks, pure functions give the meaning of each operation on values
// (StationTick / UpdateStations, UnloadVehicle, ShortestWaitStation,
// Assignment / AssignAll) and the class UnloadingStationProcessor performs
// them in place on its station array, the free-station pool and the truck
// array it is handed.

module StationProcessor {
  import opened MiningTruck
  import opened UnloadingStation

  /** Station `k` of a list sits at index `k`. */
  ghost predicate StationIdsAreIndices(ss: seq<Station>)
  {
    forall k :: 0 <= k < |ss| ==> ss[k].id == k
  }

  /** Every queued truck id indexes a list of `n` trucks. */
  ghost predicate QueuesInRange(ss: seq<Station>, n: int)
  {
    forall k, j :: 0 <= k < |ss| && 0 <= j < |ss[k].vehicleIdQueue| ==> 0 <= ss[k].vehicleIdQueue[j] < n
  }

  /** Every pooled station id indexes a list of `n` stations. */
  ghost predicate PoolInRange(pool: seq<int>, n: int)
  {
    forall j :: 0 <= j < |pool| ==> 0 <= pool[j] < n
  }

  /** Stations, trucks and the free-station pool, as one value. */
  datatype Yard = Yard(stations: seq<Station>, trucks: seq<Truck>, pool: seq<int>)

  // ---------------------------------------------------------------------------
  // Unloading one truck
  // ---------------------------------------------------------------------------

  datatype UnloadOutcome = UnloadOutcome(truck: Truck, station: Station, stateChange: bool)

  /** `unloadVehicleAtStation` on values: refused (nothing changes, false) for
      a truck that is not loaded or a negative unload duration. */
  function UnloadVehicle(t: Truck, s: Station, unload: int): UnloadOutcome
  {
    if !t.isLoaded then UnloadOutcome(t, s, false)
    else if unload < 0 then UnloadOutcome(t, s, false)
    else
      var s' := s.(numVehiclesUnloaded := s.numVehiclesUnloaded + 1, waitTime := s.waitTime - unload);
      UnloadOutcome(t.(isLoaded := false, isAssignedStation := false), s', s'.waitTime <= 0)
  }

  /** Unloading succeeds exactly for a loaded truck and a non-negative
      duration; then the station counts one more unload and its wait drops by
      one unload duration, the truck is emptied and released, and the result
      reports whether the station's wait is used up. Otherwise nothing
      changes. */
  lemma UnloadVehicleEffect(t: Truck, s: Station, unload: int)
    ensures var o := UnloadVehicle(t, s, unload);
      if t.isLoaded && unload >= 0 then
        && o.station.numVehiclesUnloaded == s.numVehiclesUnloaded + 1
        && o.station.waitTime == s.waitTime - unload
        && o.station.(numVehiclesUnloaded := s.numVehiclesUnloaded, waitTime := s.waitTime) == s
        && !o.truck.isLoaded && !o.truck.isAssignedStation
        && o.truck.(isLoaded := true, isAssignedStation := t.isAssignedStation) == t
        && (o.stateChange <==> s.waitTime <= unload)
      else o == UnloadOutcome(t, s, false)
  {
  }

  // ---------------------------------------------------------------------------
  // One station, one tick
  // ---------------------------------------------------------------------------

  datatype TickOutcome = TickOutcome(station: Station, trucks: seq<Truck>, freed: bool)

  /** One station's case of `updateUnloadingStations`. An AVAILABLE station
      with a queue becomes OCCUPIED and recomputes its wait from the queue
      length. An OCCUPIED station with a queue unloads the front truck and pops
      it (whether or not the unload was refused); it becomes AVAILABLE (and is
      `freed` onto the pool) when its queue is then empty and either the unload
      used up the wait or the queue was already empty. */
  function StationTick(s: Station, ts: seq<Truck>, unload: int): TickOutcome
    requires s.vehicleIdQueue != [] ==> 0 <= s.vehicleIdQueue[0] < |ts|
  {
    var q := s.vehicleIdQueue;
    match s.state
    case Available =>
      if q == [] then TickOutcome(s, ts, false)
      else TickOutcome(s.(state := Occupied, waitTime := unload * |q|), ts, false)
    case Occupied =>
      if q == [] then TickOutcome(s.(state := Available), ts, true)
      else
        var o := UnloadVehicle(ts[q[0]], s, unload);
        var s' := o.station.(vehicleIdQueue := q[1..]);
        if o.stateChange && q[1..] == [] then TickOutcome(s'.(state := Available), ts[q[0] := o.truck], true)
        else TickOutcome(s', ts[q[0] := o.truck], false)
  }

  /** The station tick in terms of its effect: a station is freed exactly when
      it ends the tick AVAILABLE after starting it OCCUPIED; only the front
      truck of an OCCUPIED station can change, and an OCCUPIED station pops
      exactly one truck per tick. */
  lemma StationTickEffect(s: Station, ts: seq<Truck>, unload: int)
    requires s.vehicleIdQueue != [] ==> 0 <= s.vehicleIdQueue[0] < |ts|
    ensures var o := StationTick(s, ts, unload);
      && o.station.id == s.id
      && |o.trucks| == |ts|
      && (o.freed <==> s.state == Occupied && o.station.state == Available)
      && (o.freed ==> o.station.vehicleIdQueue == [])
      && (s.state == Available ==> o.trucks == ts && o.station.vehicleIdQueue == s.vehicleIdQueue
                                   && o.station.numVehiclesUnloaded == s.numVehiclesUnloaded)
      && (s.state == Available && s.vehicleIdQueue == [] ==> o.station == s)
      && (s.state == Available && s.vehicleIdQueue != [] ==>
            o.station.state == Occupied && o.station.waitTime == unload * |s.vehicleIdQueue|)
      && (s.state == Occupied && s.vehicleIdQueue != [] ==>
            && o.station.vehicleIdQueue == s.vehicleIdQueue[1..]
            && (forall v :: 0 <= v < |ts| && v != s.vehicleIdQueue[0] ==> o.trucks[v] == ts[v]))
      && (o.freed <==>
            && s.state == Occupied
            && (s.vehicleIdQueue == [] ||
                (|s.vehicleIdQueue| == 1 && UnloadVehicle(ts[s.vehicleIdQueue[0]], s, unload).stateChange)))
      && (s.state == Occupied && s.vehicleIdQueue != [] ==>
            var v0 := s.vehicleIdQueue[0];
            var u := UnloadVehicle(ts[v0], s, unload);
            && o.trucks[v0] == u.truck
            && o.station.waitTime == u.station.waitTime
            && o.station.numVehiclesUnloaded == u.station.numVehiclesUnloaded)
  {
  }

  /** `updateUnloadingStations` on values: the stations of `ss` tick in list
      order, each seeing the trucks as left by the ones before it; freed
      stations are appended to the pool in that order. */
  function UpdateStations(ss: seq<Station>, ts: seq<Truck>, pool: seq<int>, unload: int): (y: Yard)
    requires QueuesInRange(ss, |ts|)
    ensures |y.stations| == |ss| && |y.trucks| == |ts|
    decreases |ss|
  {
    if ss == [] then Yard([], ts, pool)
    else
      var y := UpdateStations(ss[..|ss| - 1], ts, pool, unload);
      var o := StationTick(ss[|ss| - 1], y.trucks, unload);
      Yard(y.stations + [o.station], o.trucks, y.pool + (if o.freed then [o.station.id] else []))
  }

  // ---------------------------------------------------------------------------
  // The assignment policy
  // ---------------------------------------------------------------------------

  /** Index of the first station with the least wait, as the source's running
      minimum finds it. */
  function MinWaitIndex(ss: seq<Station>): (k: nat)
    requires ss != []
    ensures k < |ss|
    decreases |ss|
  {
    if |ss| == 1 then 0
    else
      var k := MinWaitIndex(ss[..|ss| - 1]);
      if ss[|ss| - 1].waitTime < ss[k].waitTime then |ss| - 1 else k
  }

  /** MinWaitIndex is the lowest index among the stations of least wait. */
  lemma {:induction false} MinWaitIndexIsFirstMinimum(ss: seq<Station>)
    requires ss != []
    ensures forall j :: 0 <= j < |ss| ==> ss[MinWaitIndex(ss)].waitTime <= ss[j].waitTime
    ensures forall j :: 0 <= j < MinWaitIndex(ss) ==> ss[MinWaitIndex(ss)].waitTime < ss[j].waitTime
    decreases |ss|
  {
    if |ss| > 1 {
      var init := ss[..|ss| - 1];
      MinWaitIndexIsFirstMinimum(init);
      assert forall j :: 0 <= j < |init| ==> init[j] == ss[j];
    }
  }

  /** `getShortestWaitStationIdx` on values: the front of the free pool if
      there is one (not popped), else the id of the first station of least
      wait, and -1 when there is no station at all. */
  function ShortestWaitStation(ss: seq<Station>, pool: seq<int>): int
  {
    if pool != [] then pool[0]
    else if ss == [] then -1
    else ss[MinWaitIndex(ss)].id
  }

  datatype AssignOutcome = AssignOutcome(truck: Truck, station: Station, pool: seq<int>)

  /** `assignVehicle` on values: refused (nothing changes) for a truck that is
      not loaded, a truck already assigned or a negative unload duration. */
  function Assignment(t: Truck, s: Station, pool: seq<int>, unload: int): AssignOutcome
  {
    if !t.isLoaded then AssignOutcome(t, s, pool)
    else if t.isAssignedStation then AssignOutcome(t, s, pool)
    else if unload < 0 then AssignOutcome(t, s, pool)
    else
      AssignOutcome(
        t.(isAssignedStation := true),
        s.(vehicleIdQueue := s.vehicleIdQueue + [t.id], waitTime := s.waitTime + unload),
        if pool != [] && pool[0] == s.id then pool[1..] else pool)
  }

  /** An accepted assignment puts the truck at the back of the queue, adds one
      unload duration to the wait, marks the truck assigned, leaves the
      station's state and count alone and pops the pool exactly when its front
      is this station; a refused one changes nothing. */
  lemma AssignmentEffect(t: Truck, s: Station, pool: seq<int>, unload: int)
    ensures var o := Assignment(t, s, pool, unload);
      if t.isLoaded && !t.isAssignedStation && unload >= 0 then
        && o.station.vehicleIdQueue == s.vehicleIdQueue + [t.id]
        && o.station.waitTime == s.waitTime + unload
        && o.station.state == s.state && o.station.id == s.id
        && o.station.numVehiclesUnloaded == s.numVehiclesUnloaded
        && o.truck == t.(isAssignedStation := true)
        && (o.pool == if pool != [] && pool[0] == s.id then pool[1..] else pool)
      else o == AssignOutcome(t, s, pool)
  {
  }

  /** The placing of truck `idx`: the policy picks a station against the
      current stations and pool, and the truck is assigned to it. */
  function AssignOne(y: Yard, idx: int, unload: int): (y': Yard)
    requires y.stations != [] && StationIdsAreIndices(y.stations) && PoolInRange(y.pool, |y.stations|)
    requires 0 <= idx < |y.trucks|
    ensures |y'.stations| == |y.stations| && |y'.trucks| == |y.trucks|
    ensures StationIdsAreIndices(y'.stations) && PoolInRange(y'.pool, |y.stations|)
  {
    var k := ShortestWaitStation(y.stations, y.pool);
    var o := Assignment(y.trucks[idx], y.stations[k], y.pool, unload);
    Yard(y.stations[k := o.station], y.trucks[idx := o.truck], o.pool)
  }

  /** `assignVehiclesToStations` on values: the trucks of `loaded` are placed
      in list order, each at the station chosen against the stations and pool
      as left by the ones before it. */
  function AssignAll(ss: seq<Station>, ts: seq<Truck>, pool: seq<int>, loaded: seq<int>, unload: int): (y: Yard)
    requires ss != [] && StationIdsAreIndices(ss) && PoolInRange(pool, |ss|)
    requires forall j :: 0 <= j < |loaded| ==> 0 <= loaded[j] < |ts|
    ensures |y.stations| == |ss| && |y.trucks| == |ts|
    ensures StationIdsAreIndices(y.stations) && PoolInRange(y.pool, |ss|)
    decreases |loaded|
  {
    if loaded == [] then Yard(ss, ts, pool)
    else
      AssignOne(AssignAll(ss, ts, pool, loaded[..|loaded| - 1], unload), loaded[|loaded| - 1], unload)
  }

  // ---------------------------------------------------------------------------
  // The processor object
  // ---------------------------------------------------------------------------

  /** Replacing the first not-yet-processed station moves it to the
      processed part. */
  lemma Splice(done: seq<Station>, rest: seq<Station>, s: Station)
    requires rest != []
    ensures (done + rest)[|done| := s] == (done + [s]) + rest[1..]
  {
  }

  /** The station registry: owns the stations (a fixed-size array) and the
      free-station pool (front at index 0). */
  class UnloadingStationProcessor {
    const numUnloadingStations: nat
    /** minutes */
    const unloadDuration: int
    const stations: array<Station>
    var pool: seq<int>

    ghost predicate Valid()
      reads this, stations
    {
      stations.Length == numUnloadingStations && StationIdsAreIndices(stations[..])
    }

    constructor (numUnloadingStations: nat, unloadMin: int)
      ensures Valid() && fresh(stations)
      ensures this.numUnloadingStations == numUnloadingStations && unloadDuration == unloadMin
      ensures forall k :: 0 <= k < numUnloadingStations ==> stations[k] == NewStation(k)
      ensures pool == []
    {
      var list := InitUnloadingStations(numUnloadingStations);
      this.numUnloadingStations := numUnloadingStations;
      unloadDuration := unloadMin;
      stations := new Station[numUnloadingStations](k requires 0 <= k < numUnloadingStations => list[k]);
      pool := [];
    }

    /** `initUnloadingStations`: station k gets id k and the constructor's
        initial state. */
    static method InitUnloadingStations(n: nat) returns (list: seq<Station>)
      ensures |list| == n
      ensures forall k :: 0 <= k < n ==> list[k] == NewStation(k)
    {
      list := [];
      for k := 0 to n
        invariant |list| == k
        invariant forall j :: 0 <= j < k ==> list[j] == NewStation(j)
      {
        list := list + [NewStation(k)];
      }
    }

    /** `setAvailableLoadingStations`: replace the free pool. */
    method SetAvailableLoadingStations(availableLoadingStations: seq<int>)
      modifies this`pool
      ensures pool == availableLoadingStations
    {
      pool := availableLoadingStations;
    }

    /** `unloadVehicleAtStation` on truck `v` of `fleet` and station `k`. */
    method UnloadVehicleAtStation(fleet: array<Truck>, v: int, k: int) returns (stateChange: bool)
      requires 0 <= v < fleet.Length && 0 <= k < stations.Length
      modifies fleet, stations
      ensures var o := UnloadVehicle(old(fleet[v]), old(stations[k]), unloadDuration);
        && fleet[..] == old(fleet[..])[v := o.truck]
        && stations[..] == old(stations[..])[k := o.station]
        && stateChange == o.stateChange
    {
      stateChange := false;
      if !fleet[v].isLoaded {
        return;
      }
      if unloadDuration < 0 {
        return;
      }
      stations[k] := stations[k].(numVehiclesUnloaded := stations[k].numVehiclesUnloaded + 1);
      stations[k] := stations[k].(waitTime := stations[k].waitTime - unloadDuration);
      fleet[v] := fleet[v].(isLoaded := false);
      fleet[v] := fleet[v].(isAssignedStation := false);
      if stations[k].waitTime <= 0 {
        stateChange := true;
      }
    }

    /** One pass of the loop of `updateUnloadingStations`: the case of
        station `i`. */
    method UpdateStation(i: int, fleet: array<Truck>)
      requires 0 <= i < stations.Length
      requires stations[i].vehicleIdQueue != [] ==> 0 <= stations[i].vehicleIdQueue[0] < fleet.Length
      modifies stations, this`pool, fleet
      ensures var o := StationTick(old(stations[i]), old(fleet[..]), unloadDuration);
        && stations[..] == old(stations[..])[i := o.station]
        && fleet[..] == o.trucks
        && pool == old(pool) + (if o.freed then [o.station.id] else [])
    {
      var stateChange := false;
      match stations[i].state {
        case Available =>
          if stations[i].vehicleIdQueue != [] {
            stations[i] := stations[i].(state := Occupied,
                                        waitTime := unloadDuration * |stations[i].vehicleIdQueue|);
          }
        case Occupied =>
          if stations[i].vehicleIdQueue != [] {
            var vehicleId := stations[i].vehicleIdQueue[0];
            stateChange := UnloadVehicleAtStation(fleet, vehicleId, i);
            stations[i] := stations[i].(vehicleIdQueue := stations[i].vehicleIdQueue[1..]);
          } else {
            stateChange := true;
          }
          if stateChange && stations[i].vehicleIdQueue == [] {
            stations[i] := stations[i].(state := Available);
            pool := pool + [stations[i].id];
          }
      }
    }

    /** `updateUnloadingStations`: tick every station in list order, in place,
        unloading trucks of `fleet` and appending freed stations to the pool.
        (`dt` is unused, as in the source.) */
    method UpdateUnloadingStations(dt: int, fleet: array<Truck>)
      requires QueuesInRange(stations[..], fleet.Length)
      modifies stations, this`pool, fleet
      ensures var y := UpdateStations(old(stations[..]), old(fleet[..]), old(pool), unloadDuration);
        stations[..] == y.stations && fleet[..] == y.trucks && pool == y.pool
    {
      ghost var ss0 := stations[..];
      ghost var y := UpdateStations([], old(fleet[..]), old(pool), unloadDuration);
      for i := 0 to stations.Length
        invariant y == UpdateStations(ss0[..i], old(fleet[..]), old(pool), unloadDuration)
        invariant stations[..] == y.stations + ss0[i..] && fleet[..] == y.trucks && pool == y.pool
      {
        assert ss0[..i + 1][..i] == ss0[..i];
        assert stations[i] == ss0[i];
        assert ss0[i].vehicleIdQueue != [] ==> 0 <= ss0[i].vehicleIdQueue[0] < fleet.Length by {
          if ss0[i].vehicleIdQueue != [] {
            assert ss0[i].vehicleIdQueue[0] in ss0[i].vehicleIdQueue;
          }
        }
        ghost var o := StationTick(ss0[i], y.trucks, unloadDuration);
        Splice(y.stations, ss0[i..], o.station);
        assert ss0[i..][1..] == ss0[i + 1..];
        UpdateStation(i, fleet);
        y := Yard(y.stations + [o.station], o.trucks, y.pool + (if o.freed then [o.station.id] else []));
      }
      assert ss0[..stations.Length] == ss0;
    }

    /** `getShortestWaitStationIdx`: the pool front if the pool is not empty
        (without popping it), else the first station of least wait found by a
        running minimum, else -1. */
    method GetShortestWaitStationIdx() returns (shortestWaitIdx: int)
      requires Valid()
      ensures shortestWaitIdx == ShortestWaitStation(stations[..], pool)
      ensures pool != [] ==> shortestWaitIdx == pool[0]
      ensures pool == [] && stations.Length > 0 ==>
        && 0 <= shortestWaitIdx < stations.Length
        && (forall j :: 0 <= j < stations.Length ==> stations[shortestWaitIdx].waitTime <= stations[j].waitTime)
        && (forall j :: 0 <= j < shortestWaitIdx ==> stations[shortestWaitIdx].waitTime < stations[j].waitTime)
      ensures pool == [] && stations.Length == 0 ==> shortestWaitIdx == -1
    {
      shortestWaitIdx := -1;
      if pool != [] {
        shortestWaitIdx := pool[0];
        return;
      }
      var shortestWaitTime := 0;
      ghost var best := 0;
      for i := 0 to numUnloadingStations
        invariant i == 0 ==> shortestWaitIdx == -1
        invariant i > 0 ==> best == MinWaitIndex(stations[..i])
        invariant i > 0 ==> shortestWaitIdx == stations[best].id && shortestWaitTime == stations[best].waitTime
      {
        var currentStation := stations[i];
        assert stations[..i + 1][..i] == stations[..i];
        if i == 0 {
          shortestWaitIdx := currentStation.id;
          shortestWaitTime := currentStation.waitTime;
          best := 0;
          continue;
        }
        if currentStation.waitTime < shortestWaitTime {
          shortestWaitIdx := currentStation.id;
          shortestWaitTime := currentStation.waitTime;
          best := i;
        }
      }
      if stations.Length > 0 {
        assert stations[..stations.Length] == stations[..];
        MinWaitIndexIsFirstMinimum(stations[..]);
      }
    }

    /** `assignVehicle` of truck `i` of `fleet` to station `k`. */
    method AssignVehicle(fleet: array<Truck>, i: int, k: int)
      requires 0 <= i < fleet.Length && 0 <= k < stations.Length
      modifies fleet, stations, this`pool
      ensures var o := Assignment(old(fleet[i]), old(stations[k]), old(pool), unloadDuration);
        && fleet[..] == old(fleet[..])[i := o.truck]
        && stations[..] == old(stations[..])[k := o.station]
        && pool == o.pool
    {
      if !fleet[i].isLoaded {
        return;
      }
      if fleet[i].isAssignedStation {
        return;
      }
      if unloadDuration < 0 {
        return;
      }
      stations[k] := stations[k].(vehicleIdQueue := stations[k].vehicleIdQueue + [fleet[i].id]);
      stations[k] := stations[k].(waitTime := stations[k].waitTime + unloadDuration);
      if pool != [] && pool[0] == stations[k].id {
        pool := pool[1..];
      }
      fleet[i] := fleet[i].(isAssignedStation := true);
    }

    /** `assignVehiclesToStations`: place the trucks of `loadedTrucksIdx` in
        list order, each at the station the policy picks at that moment. */
    method AssignVehiclesToStations(fleet: array<Truck>, loadedTrucksIdx: seq<int>)
      requires Valid() && stations.Length > 0 && PoolInRange(pool, stations.Length)
      requires forall j :: 0 <= j < |loadedTrucksIdx| ==> 0 <= loadedTrucksIdx[j] < fleet.Length
      modifies fleet, stations, this`pool
      ensures Valid()
      ensures var y := AssignAll(old(stations[..]), old(fleet[..]), old(pool), loadedTrucksIdx, unloadDuration);
        stations[..] == y.stations && fleet[..] == y.trucks && pool == y.pool
    {
      for n := 0 to |loadedTrucksIdx|
        invariant Valid()
        invariant var y := AssignAll(old(stations[..]), old(fleet[..]), old(pool), loadedTrucksIdx[..n], unloadDuration);
          stations[..] == y.stations && fleet[..] == y.trucks && pool == y.pool
      {
        assert loadedTrucksIdx[..n + 1][..n] == loadedTrucksIdx[..n];
        var idx := loadedTrucksIdx[n];
        var minWaitStationIdx := GetShortestWaitStationIdx();
        AssignVehicle(fleet, idx, minWaitStationIdx);
      }
      assert loadedTrucksIdx[..|loadedTrucksIdx|] == loadedTrucksIdx;
    }
  }
}
