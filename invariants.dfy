// The bookkeeping the simulation keeps between stations and trucks, and why it
// holds after every tick.
//
// With a non-negative unload duration u, at every tick boundary:
//   - every station's wait estimate is exactly u times the length of its queue;
//   - a truck is queued at some station (exactly once) precisely when it is
//     marked assigned;
//   - an assigned truck is held in UNLOAD, still loaded.
// From this follow the facts the source relies on without checking: the wait
// recomputed when a station starts serving is the one it already had, the
// truck at the front of a serving station is always loaded (an unload is
// never refused), and, for u >= 0, a serving station is freed exactly when its
// queue runs out.

module Invariants {
  import opened MiningTruck
  import opened UnloadingStation
  import opened TruckProcessor
  import opened StationProcessor
  import opened Simulation

  // ---------------------------------------------------------------------------
  // Queued trucks
  // ---------------------------------------------------------------------------

  /** Every queued truck id, with its multiplicity, over all stations. */
  function Queued(ss: seq<Station>): multiset<int>
    decreases |ss|
  {
    if ss == [] then multiset{} else Queued(ss[..|ss| - 1]) + multiset(ss[|ss| - 1].vehicleIdQueue)
  }

  lemma {:induction false} QueuedConcat(a: seq<Station>, b: seq<Station>)
    ensures Queued(a + b) == Queued(a) + Queued(b)
    decreases |b|
  {
    if b == [] {
      assert a + b == a;
    } else {
      var b0 := b[..|b| - 1];
      assert (a + b)[..|a + b| - 1] == a + b0;
      QueuedConcat(a, b0);
    }
  }

  /** The queued trucks of `pre + [s] + rest` split around `s`. */
  lemma QueuedAround(pre: seq<Station>, s: Station, rest: seq<Station>)
    ensures Queued(pre + [s] + rest) == Queued(pre) + multiset(s.vehicleIdQueue) + Queued(rest)
  {
    QueuedConcat(pre + [s], rest);
    QueuedConcat(pre, [s]);
    assert [s][..0] == [];
  }

  /** Replacing station `k` swaps its queue's contribution. */
  lemma QueuedUpdate(ss: seq<Station>, k: int, s: Station)
    requires 0 <= k < |ss|
    ensures forall v :: Queued(ss[k := s])[v] + multiset(ss[k].vehicleIdQueue)[v] == Queued(ss)[v] + multiset(s.vehicleIdQueue)[v]
  {
    assert ss == ss[..k] + [ss[k]] + ss[k + 1..];
    assert ss[k := s] == ss[..k] + [s] + ss[k + 1..];
    QueuedAround(ss[..k], ss[k], ss[k + 1..]);
    QueuedAround(ss[..k], s, ss[k + 1..]);
  }

  /** A station's queue is part of the queued trucks. */
  lemma QueuedIncludes(ss: seq<Station>, k: int)
    requires 0 <= k < |ss|
    ensures multiset(ss[k].vehicleIdQueue) <= Queued(ss)
  {
    assert ss == ss[..k] + [ss[k]] + ss[k + 1..];
    QueuedAround(ss[..k], ss[k], ss[k + 1..]);
  }

  /** No station has anything queued. */
  lemma {:induction false} QueuedEmpty(ss: seq<Station>)
    requires forall k :: 0 <= k < |ss| ==> ss[k].vehicleIdQueue == []
    ensures Queued(ss) == multiset{}
    decreases |ss|
  {
    if ss != [] {
      QueuedEmpty(ss[..|ss| - 1]);
    }
  }

  // ---------------------------------------------------------------------------
  // The invariant
  // ---------------------------------------------------------------------------

  /** Every station's wait is one unload duration per queued truck. */
  ghost predicate WaitsMatchQueues(ss: seq<Station>, u: int)
  {
    forall k :: 0 <= k < |ss| ==> ss[k].waitTime == u * |ss[k].vehicleIdQueue|
  }

  /** A truck is queued (once) exactly when it is marked assigned. */
  ghost predicate QueuedIffAssigned(ss: seq<Station>, ts: seq<Truck>)
  {
    forall v :: 0 <= v < |ts| ==> Queued(ss)[v] == if ts[v].isAssignedStation then 1 else 0
  }

  /** An assigned truck is held in UNLOAD, still loaded. */
  ghost predicate AssignedAreHeld(ts: seq<Truck>)
  {
    forall v :: 0 <= v < |ts| && ts[v].isAssignedStation ==> IsFrozen(ts[v])
  }

  /** The station/truck bookkeeping for unload duration `u`. */
  ghost predicate Consistent(ss: seq<Station>, ts: seq<Truck>, u: int)
  {
    QueuesInRange(ss, |ts|) && WaitsMatchQueues(ss, u) && QueuedIffAssigned(ss, ts) && AssignedAreHeld(ts)
  }

  /** The whole state satisfies the indexing facts and the bookkeeping. */
  ghost predicate Invariant(w: World, u: int)
  {
    WellFormed(w) && u >= 0 && Consistent(w.stations, w.trucks, u)
  }

  /** A truck after its station has unloaded it. */
  function Released(t: Truck): Truck
  {
    t.(isLoaded := false, isAssignedStation := false)
  }

  // ---------------------------------------------------------------------------
  // The station phase
  // ---------------------------------------------------------------------------

  /** One station's tick keeps the bookkeeping of the whole list; when the
      station is serving, its front truck is unloaded for real and released,
      and no other truck changes. */
  lemma StationTickPreserves(ss: seq<Station>, k: int, ts: seq<Truck>, u: int)
    requires u >= 0 && Consistent(ss, ts, u) && 0 <= k < |ss|
    ensures var s := ss[k];
      s.vehicleIdQueue != [] ==> 0 <= s.vehicleIdQueue[0] < |ts|
    ensures var s := ss[k];
      var o := StationTick(s, ts, u);
      && Consistent(ss[k := o.station], o.trucks, u)
      && (s.state == Occupied && s.vehicleIdQueue != [] ==>
            o.trucks == ts[s.vehicleIdQueue[0] := Released(ts[s.vehicleIdQueue[0]])]
            && o.station.numVehiclesUnloaded == s.numVehiclesUnloaded + 1)
  {
    var s := ss[k];
    assert s.vehicleIdQueue != [] ==> 0 <= s.vehicleIdQueue[0] < |ts|;
    if s.state == Occupied && s.vehicleIdQueue != [] {
      ServingTickPreserves(ss, k, ts, u);
    } else {
      var o := StationTick(s, ts, u);
      StationTickEffect(s, ts, u);
      assert o.station.vehicleIdQueue == s.vehicleIdQueue && o.trucks == ts;
      SameQueueConsistent(ss, k, o.station, ts, u);
    }
  }

  /** Replacing a station by one with the same queue and the matching wait
      keeps the bookkeeping. */
  lemma SameQueueConsistent(ss: seq<Station>, k: int, s': Station, ts: seq<Truck>, u: int)
    requires Consistent(ss, ts, u) && 0 <= k < |ss|
    requires s'.vehicleIdQueue == ss[k].vehicleIdQueue && s'.waitTime == ss[k].waitTime
    ensures Consistent(ss[k := s'], ts, u)
  {
    var ss' := ss[k := s'];
    assert QueuesInRange(ss', |ts|);
    assert WaitsMatchQueues(ss', u);
    QueuedUpdate(ss, k, s');
  }

  lemma MulShift(u: int, n: int)
    ensures u * (n + 1) == u * n + u
  {
  }

  /** What a serving station's tick does when its front truck is loaded. */
  lemma ServingTickOutcome(s: Station, ts: seq<Truck>, u: int)
    requires u >= 0 && s.state == Occupied && s.vehicleIdQueue != []
    requires 0 <= s.vehicleIdQueue[0] < |ts| && ts[s.vehicleIdQueue[0]].isLoaded
    ensures var o := StationTick(s, ts, u);
      var v0 := s.vehicleIdQueue[0];
      && o.trucks == ts[v0 := Released(ts[v0])]
      && o.station.vehicleIdQueue == s.vehicleIdQueue[1..]
      && o.station.waitTime == s.waitTime - u
      && o.station.numVehiclesUnloaded == s.numVehiclesUnloaded + 1
  {
  }

  /** A serving station with a queue unloads its front truck, which is loaded
      and assigned by the bookkeeping, so the unload goes through. */
  lemma ServingTickPreserves(ss: seq<Station>, k: int, ts: seq<Truck>, u: int)
    requires u >= 0 && Consistent(ss, ts, u) && 0 <= k < |ss|
    requires ss[k].state == Occupied && ss[k].vehicleIdQueue != [] && 0 <= ss[k].vehicleIdQueue[0] < |ts|
    ensures var s := ss[k];
      var o := StationTick(s, ts, u);
      && Consistent(ss[k := o.station], o.trucks, u)
      && o.trucks == ts[s.vehicleIdQueue[0] := Released(ts[s.vehicleIdQueue[0]])]
      && o.station.numVehiclesUnloaded == s.numVehiclesUnloaded + 1
  {
    var s := ss[k];
    var v0 := s.vehicleIdQueue[0];
    assert ts[v0].isAssignedStation && IsFrozen(ts[v0]) by {
      QueuedIncludes(ss, k);
      assert multiset(s.vehicleIdQueue)[v0] >= 1;
    }
    ServingTickOutcome(s, ts, u);
    var o := StationTick(s, ts, u);
    DequeueWaits(ss, k, o.station, u);
    DequeueQueued(ss, ts, k, o.station);
    DequeueInRange(ss, k, o.station, |ts|);
  }

  lemma DequeueWaits(ss: seq<Station>, k: int, s': Station, u: int)
    requires WaitsMatchQueues(ss, u) && 0 <= k < |ss| && ss[k].vehicleIdQueue != []
    requires |s'.vehicleIdQueue| == |ss[k].vehicleIdQueue| - 1
    requires s'.waitTime == ss[k].waitTime - u
    ensures WaitsMatchQueues(ss[k := s'], u)
  {
    MulShift(u, |s'.vehicleIdQueue|);
  }

  /** Popping the front truck of station `k` and releasing that truck keeps
      "queued iff assigned". */
  lemma DequeueQueued(ss: seq<Station>, ts: seq<Truck>, k: int, s': Station)
    requires QueuedIffAssigned(ss, ts) && 0 <= k < |ss| && ss[k].vehicleIdQueue != []
    requires 0 <= ss[k].vehicleIdQueue[0] < |ts|
    requires s'.vehicleIdQueue == ss[k].vehicleIdQueue[1..]
    ensures var v0 := ss[k].vehicleIdQueue[0];
      QueuedIffAssigned(ss[k := s'], ts[v0 := Released(ts[v0])])
  {
    var q := ss[k].vehicleIdQueue;
    assert q == [q[0]] + q[1..];
    assert multiset(q) == multiset{q[0]} + multiset(q[1..]);
    QueuedUpdate(ss, k, s');
  }

  lemma DequeueInRange(ss: seq<Station>, k: int, s': Station, n: int)
    requires QueuesInRange(ss, n) && 0 <= k < |ss| && ss[k].vehicleIdQueue != []
    requires s'.vehicleIdQueue == ss[k].vehicleIdQueue[1..]
    ensures QueuesInRange(ss[k := s'], n)
  {
    var ss' := ss[k := s'];
    forall k', j | 0 <= k' < |ss'| && 0 <= j < |ss'[k'].vehicleIdQueue|
      ensures 0 <= ss'[k'].vehicleIdQueue[j] < n
    {
      if k' == k {
        assert ss'[k'].vehicleIdQueue[j] == ss[k].vehicleIdQueue[j + 1];
      }
    }
  }

  /** The station phase keeps the bookkeeping of the list of processed
      stations followed by those not yet processed. */
  lemma {:induction false} UpdateStationsPreserves(ss: seq<Station>, rest: seq<Station>, ts: seq<Truck>, pool: seq<int>, u: int)
    requires u >= 0 && QueuesInRange(ss, |ts|) && Consistent(ss + rest, ts, u)
    ensures var y := UpdateStations(ss, ts, pool, u);
      Consistent(y.stations + rest, y.trucks, u)
    decreases |ss|
  {
    if ss == [] {
      assert UpdateStations(ss, ts, pool, u).stations + rest == ss + rest;
    } else {
      var init, s := ss[..|ss| - 1], ss[|ss| - 1];
      assert ss == init + [s];
      assert ss + rest == init + ([s] + rest);
      UpdateStationsPreserves(init, [s] + rest, ts, pool, u);
      var y0 := UpdateStations(init, ts, pool, u);
      var all0 := y0.stations + [s] + rest;
      assert y0.stations + ([s] + rest) == all0 && all0[|y0.stations|] == s;
      StationTickPreserves(all0, |y0.stations|, y0.trucks, u);
      var o := StationTick(s, y0.trucks, u);
      assert all0[|y0.stations| := o.station] == (y0.stations + [o.station]) + rest;
    }
  }

  /** Truck `v` is at the front of a serving station's queue. */
  ghost predicate FrontOfOccupied(ss: seq<Station>, v: int)
  {
    exists k :: 0 <= k < |ss| && ss[k].state == Occupied && ss[k].vehicleIdQueue != [] && ss[k].vehicleIdQueue[0] == v
  }

  /** Adding one station adds its front truck when it is serving. */
  lemma FrontOfOccupiedSnoc(init: seq<Station>, s: Station, v: int)
    ensures FrontOfOccupied(init + [s], v) <==>
      FrontOfOccupied(init, v) || (s.state == Occupied && s.vehicleIdQueue != [] && s.vehicleIdQueue[0] == v)
  {
    var ss := init + [s];
    if FrontOfOccupied(ss, v) {
      var k :| 0 <= k < |ss| && ss[k].state == Occupied && ss[k].vehicleIdQueue != [] && ss[k].vehicleIdQueue[0] == v;
      if k < |init| {
        assert init[k] == ss[k];
      }
    }
    if FrontOfOccupied(init, v) {
      var k :| 0 <= k < |init| && init[k].state == Occupied && init[k].vehicleIdQueue != [] && init[k].vehicleIdQueue[0] == v;
      assert ss[k] == init[k];
    }
    if s.state == Occupied && s.vehicleIdQueue != [] && s.vehicleIdQueue[0] == v {
      assert ss[|init|] == s;
    }
  }

  /** A truck queued at `s` is at the front of no earlier station. */
  lemma FrontNotEarlier(init: seq<Station>, s: Station, rest: seq<Station>, ts: seq<Truck>, v: int)
    requires QueuedIffAssigned(init + [s] + rest, ts) && 0 <= v < |ts|
    requires s.vehicleIdQueue != [] && s.vehicleIdQueue[0] == v
    ensures !FrontOfOccupied(init, v)
  {
    QueuedAround(init, s, rest);
    assert multiset(s.vehicleIdQueue)[v] >= 1;
    assert Queued(init + [s] + rest)[v] <= 1;
    assert Queued(init)[v] == 0;
    forall k | 0 <= k < |init| && init[k].vehicleIdQueue != []
      ensures init[k].vehicleIdQueue[0] != v
    {
      QueuedIncludes(init, k);
      assert multiset(init[k].vehicleIdQueue)[init[k].vehicleIdQueue[0]] >= 1;
    }
  }

  /** The station phase changes exactly the trucks at the front of a serving
      station's queue, and releases each of them. */
  lemma {:induction false} UpdateStationsReleases(ss: seq<Station>, rest: seq<Station>, ts: seq<Truck>, pool: seq<int>, u: int)
    requires u >= 0 && QueuesInRange(ss, |ts|) && Consistent(ss + rest, ts, u)
    ensures var y := UpdateStations(ss, ts, pool, u);
      forall v :: 0 <= v < |ts| ==> y.trucks[v] == if FrontOfOccupied(ss, v) then Released(ts[v]) else ts[v]
    decreases |ss|
  {
    if ss != [] {
      var init, s := ss[..|ss| - 1], ss[|ss| - 1];
      assert ss == init + [s];
      assert ss + rest == init + ([s] + rest);
      UpdateStationsReleases(init, [s] + rest, ts, pool, u);
      UpdateStationsPreserves(init, [s] + rest, ts, pool, u);
      var y0 := UpdateStations(init, ts, pool, u);
      var all0 := y0.stations + [s] + rest;
      assert y0.stations + ([s] + rest) == all0 && all0[|y0.stations|] == s;
      StationTickPreserves(all0, |y0.stations|, y0.trucks, u);
      var o := StationTick(s, y0.trucks, u);
      var y := UpdateStations(ss, ts, pool, u);
      assert y.trucks == o.trucks;
      var q := s.vehicleIdQueue;
      var serving := s.state == Occupied && q != [];
      if !serving {
        StationTickEffect(s, y0.trucks, u);
      }
      assert init + [s] + rest == ss + rest;
      forall v | 0 <= v < |ts|
        ensures y.trucks[v] == if FrontOfOccupied(ss, v) then Released(ts[v]) else ts[v]
      {
        FrontOfOccupiedSnoc(init, s, v);
        if serving && v == q[0] {
          FrontNotEarlier(init, s, rest, ts, v);
        }
      }
    }
  }

  // ---------------------------------------------------------------------------
  // The truck phase
  // ---------------------------------------------------------------------------

  /** The truck phase keeps the bookkeeping: it never touches the assignment
      flag, and an assigned truck is held, so it does not move. */
  lemma FleetUpdatePreserves(ss: seq<Station>, ts: seq<Truck>, dt: int, travel: int, unload: int, u: int)
    requires Consistent(ss, ts, u)
    ensures Consistent(ss, FleetUpdate(ts, dt, travel, unload), u)
  {
    var ts' := FleetUpdate(ts, dt, travel, unload);
    forall v | 0 <= v < |ts|
      ensures ts'[v].isAssignedStation == ts[v].isAssignedStation
      ensures ts[v].isAssignedStation ==> ts'[v] == ts[v]
    {
      UpdateTruckKeeps(ts[v], dt, travel, unload);
    }
  }

  // ---------------------------------------------------------------------------
  // The assignment phase
  // ---------------------------------------------------------------------------

  /** The station the policy picks is a valid index. */
  lemma ShortestWaitStationInRange(ss: seq<Station>, pool: seq<int>)
    requires ss != [] && StationIdsAreIndices(ss) && PoolInRange(pool, |ss|)
    ensures 0 <= ShortestWaitStation(ss, pool) < |ss|
  {
  }

  /** Queueing an unassigned truck held in UNLOAD at station `k`, one unload
      duration more to wait, and marking it assigned keeps the bookkeeping. */
  lemma EnqueuePreserves(ss: seq<Station>, ts: seq<Truck>, idx: int, k: int, u: int)
    requires u >= 0 && Consistent(ss, ts, u) && 0 <= idx < |ts| && 0 <= k < |ss|
    requires ts[idx].isLoaded && !ts[idx].isAssignedStation && ts[idx].state == Unload
    ensures var s := ss[k];
      Consistent(ss[k := s.(vehicleIdQueue := s.vehicleIdQueue + [idx], waitTime := s.waitTime + u)],
                 ts[idx := ts[idx].(isAssignedStation := true)], u)
  {
    var s := ss[k];
    var s' := s.(vehicleIdQueue := s.vehicleIdQueue + [idx], waitTime := s.waitTime + u);
    EnqueueWaits(ss, k, s', u);
    EnqueueQueued(ss, ts, idx, k, s');
    EnqueueInRange(ss, k, s', |ts|);
  }

  lemma EnqueueWaits(ss: seq<Station>, k: int, s': Station, u: int)
    requires WaitsMatchQueues(ss, u) && 0 <= k < |ss|
    requires |s'.vehicleIdQueue| == |ss[k].vehicleIdQueue| + 1
    requires s'.waitTime == ss[k].waitTime + u
    ensures WaitsMatchQueues(ss[k := s'], u)
  {
    MulShift(u, |ss[k].vehicleIdQueue|);
  }

  lemma EnqueueQueued(ss: seq<Station>, ts: seq<Truck>, idx: int, k: int, s': Station)
    requires QueuedIffAssigned(ss, ts) && 0 <= idx < |ts| && 0 <= k < |ss| && !ts[idx].isAssignedStation
    requires s'.vehicleIdQueue == ss[k].vehicleIdQueue + [idx]
    ensures QueuedIffAssigned(ss[k := s'], ts[idx := ts[idx].(isAssignedStation := true)])
  {
    assert multiset(s'.vehicleIdQueue) == multiset(ss[k].vehicleIdQueue) + multiset{idx};
    QueuedUpdate(ss, k, s');
  }

  lemma EnqueueInRange(ss: seq<Station>, k: int, s': Station, n: int)
    requires QueuesInRange(ss, n) && 0 <= k < |ss| && |s'.vehicleIdQueue| == |ss[k].vehicleIdQueue| + 1
    requires forall j :: 0 <= j < |ss[k].vehicleIdQueue| ==> s'.vehicleIdQueue[j] == ss[k].vehicleIdQueue[j]
    requires 0 <= s'.vehicleIdQueue[|ss[k].vehicleIdQueue|] < n
    ensures QueuesInRange(ss[k := s'], n)
  {
  }

  /** An accepted assignment of truck `idx` to station `k` keeps the
      bookkeeping. */
  lemma AssignmentPreserves(ss: seq<Station>, ts: seq<Truck>, pool: seq<int>, idx: int, k: int, u: int)
    requires u >= 0 && Consistent(ss, ts, u) && 0 <= idx < |ts| && 0 <= k < |ss|
    requires ts[idx].id == idx && ts[idx].state == Unload
    ensures var o := Assignment(ts[idx], ss[k], pool, u);
      Consistent(ss[k := o.station], ts[idx := o.truck], u)
  {
    var t, s := ts[idx], ss[k];
    var o := Assignment(t, s, pool, u);
    AssignmentEffect(t, s, pool, u);
    if t.isLoaded && !t.isAssignedStation {
      EnqueuePreserves(ss, ts, idx, k, u);
      assert o.station == s.(vehicleIdQueue := s.vehicleIdQueue + [idx], waitTime := s.waitTime + u);
    } else {
      assert ss[k := o.station] == ss && ts[idx := o.truck] == ts;
    }
  }

  /** The assignment phase changes only the assignment flag of the trucks it
      places and no other truck. */
  lemma {:induction false} AssignAllFlagsOnly(ss: seq<Station>, ts: seq<Truck>, pool: seq<int>, loaded: seq<int>, u: int)
    requires ss != [] && StationIdsAreIndices(ss) && PoolInRange(pool, |ss|)
    requires forall j :: 0 <= j < |loaded| ==> 0 <= loaded[j] < |ts|
    ensures var y := AssignAll(ss, ts, pool, loaded, u);
      && (forall v :: 0 <= v < |ts| ==> y.trucks[v] == ts[v].(isAssignedStation := y.trucks[v].isAssignedStation))
      && (forall v :: 0 <= v < |ts| && v !in loaded ==> y.trucks[v] == ts[v])
    decreases |loaded|
  {
    if loaded != [] {
      var init := loaded[..|loaded| - 1];
      AssignAllFlagsOnly(ss, ts, pool, init, u);
      var y0 := AssignAll(ss, ts, pool, init, u);
      var idx := loaded[|loaded| - 1];
      var k := ShortestWaitStation(y0.stations, y0.pool);
      AssignmentEffect(y0.trucks[idx], y0.stations[k], y0.pool, u);
      assert forall v :: v in init ==> v in loaded;
    }
  }

  /** The assignment phase keeps the bookkeeping when every truck it places is
      in UNLOAD. */
  lemma {:induction false} AssignAllPreserves(ss: seq<Station>, ts: seq<Truck>, pool: seq<int>, loaded: seq<int>, u: int)
    requires u >= 0 && Consistent(ss, ts, u) && IdsAreIndices(ts)
    requires ss != [] && StationIdsAreIndices(ss) && PoolInRange(pool, |ss|)
    requires forall j :: 0 <= j < |loaded| ==> 0 <= loaded[j] < |ts| && ts[loaded[j]].state == Unload
    ensures var y := AssignAll(ss, ts, pool, loaded, u);
      Consistent(y.stations, y.trucks, u)
    decreases |loaded|
  {
    if loaded != [] {
      var init := loaded[..|loaded| - 1];
      AssignAllPreserves(ss, ts, pool, init, u);
      AssignAllFlagsOnly(ss, ts, pool, init, u);
      var y0 := AssignAll(ss, ts, pool, init, u);
      var idx := loaded[|loaded| - 1];
      ShortestWaitStationInRange(y0.stations, y0.pool);
      var k := ShortestWaitStation(y0.stations, y0.pool);
      assert y0.trucks[idx].id == idx && y0.trucks[idx].state == Unload;
      AssignmentPreserves(y0.stations, y0.trucks, y0.pool, idx, k, u);
    }
  }

  // ---------------------------------------------------------------------------
  // Ticks and runs
  // ---------------------------------------------------------------------------

  /** After the station phase, the truck phase and the assignment phase keep
      the bookkeeping; the assignment changes only the assignment flag, and
      only of the trucks that arrived loaded. */
  lemma TruckAndAssignPhases(w: World, c: Config)
    requires Invariant(w, c.unload)
    ensures var y1 := StationPhase(w, c);
      var ts2 := FleetUpdate(y1.trucks, c.dt, c.travel, c.unload);
      var loaded := LoadedIds(y1.trucks, c.dt);
      var w' := Tick(w, c);
      && Consistent(w'.stations, w'.trucks, c.unload)
      && (forall v :: 0 <= v < |ts2| ==> w'.trucks[v] == ts2[v].(isAssignedStation := w'.trucks[v].isAssignedStation))
      && (forall v :: 0 <= v < |ts2| && v !in loaded ==> w'.trucks[v] == ts2[v])
  {
    var u := c.unload;
    var y1 := StationPhase(w, c);
    assert w.stations + [] == w.stations;
    UpdateStationsPreserves(w.stations, [], w.trucks, w.pool, u);
    assert y1.stations + [] == y1.stations;
    var ts2 := FleetUpdate(y1.trucks, c.dt, c.travel, u);
    FleetUpdatePreserves(y1.stations, y1.trucks, c.dt, c.travel, u, u);
    var loaded := LoadedIds(y1.trucks, c.dt);
    LoadedIdsAscending(y1.trucks, c.dt);
    forall j | 0 <= j < |loaded|
      ensures ts2[loaded[j]].state == Unload
    {
      ArrivesLoadedIsTravelToUnload(y1.trucks[loaded[j]], c.dt, c.travel, u);
    }
    assert IdsAreIndices(ts2);
    AssignAllPreserves(y1.stations, ts2, y1.pool, loaded, u);
    AssignAllFlagsOnly(y1.stations, ts2, y1.pool, loaded, u);
  }

  /** A tick keeps the invariant. */
  lemma TickPreserves(w: World, c: Config)
    requires Invariant(w, c.unload)
    ensures Invariant(Tick(w, c), c.unload)
  {
    TruckAndAssignPhases(w, c);
  }

  /** Any number of ticks keeps the invariant. */
  lemma {:induction false} RunTicksPreserves(w: World, c: Config, n: nat)
    requires Invariant(w, c.unload)
    ensures Invariant(RunTicks(w, c, n), c.unload)
  {
    if n > 0 {
      RunTicksPreserves(w, c, n - 1);
      TickPreserves(RunTicks(w, c, n - 1), c);
    }
  }

  /** The state the constructors build: truck i and station k fresh, pool and
      loaded list empty. */
  function InitialWorld(miningTimes: seq<int>, numStations: nat): (w: World)
    ensures |w.trucks| == |miningTimes| && |w.stations| == numStations
  {
    World(seq(|miningTimes|, i requires 0 <= i < |miningTimes| => NewTruck(i, miningTimes[i])),
          seq(numStations, k => NewStation(k)), [], [])
  }

  /** The invariant holds from the start for any non-negative unload
      duration and at least one station. */
  lemma InitialInvariant(miningTimes: seq<int>, numStations: nat, u: int)
    requires numStations > 0 && u >= 0
    ensures Invariant(InitialWorld(miningTimes, numStations), u)
  {
    var w := InitialWorld(miningTimes, numStations);
    QueuedEmpty(w.stations);
  }

  /** The invariant holds at the end of every run of the simulation. */
  lemma RunKeepsInvariant(miningTimes: seq<int>, numStations: nat, c: Config, n: nat)
    requires numStations > 0 && c.unload >= 0
    ensures WellFormed(InitialWorld(miningTimes, numStations))
    ensures Invariant(RunTicks(InitialWorld(miningTimes, numStations), c, n), c.unload)
  {
    InitialInvariant(miningTimes, numStations, c.unload);
    RunTicksPreserves(InitialWorld(miningTimes, numStations), c, n);
  }

  // ---------------------------------------------------------------------------
  // Consequences
  // ---------------------------------------------------------------------------

  /** When an AVAILABLE station starts serving, the wait it recomputes from its
      queue is the wait it already had: only its state changes. */
  lemma RecomputeIsNoop(ss: seq<Station>, k: int, ts: seq<Truck>, u: int)
    requires Consistent(ss, ts, u) && 0 <= k < |ss|
    requires ss[k].state == Available && ss[k].vehicleIdQueue != []
    ensures 0 <= ss[k].vehicleIdQueue[0] < |ts|
    ensures StationTick(ss[k], ts, u) == TickOutcome(ss[k].(state := Occupied), ts, false)
  {
  }

  /** A serving station is freed (and pushed onto the pool) exactly when its
      queue runs out in this tick, and an available station is never freed. */
  lemma FreedExactlyWhenQueueRunsOut(ss: seq<Station>, k: int, ts: seq<Truck>, u: int)
    requires u >= 0 && Consistent(ss, ts, u) && 0 <= k < |ss|
    ensures ss[k].vehicleIdQueue != [] ==> 0 <= ss[k].vehicleIdQueue[0] < |ts|
    ensures var o := StationTick(ss[k], ts, u);
      o.freed <==> ss[k].state == Occupied && |ss[k].vehicleIdQueue| <= 1
  {
    var s := ss[k];
    assert s.vehicleIdQueue != [] ==> 0 <= s.vehicleIdQueue[0] < |ts|;
    if s.state == Occupied && s.vehicleIdQueue != [] {
      StationTickPreserves(ss, k, ts, u);
      var o := StationTick(s, ts, u);
      var n := |s.vehicleIdQueue|;
      assert s.waitTime == u * n;
      MulShift(u, n - 1);
      if n > 1 && u > 0 {
        MulPositive(u, n - 1);
      }
    }
  }

  lemma MulPositive(u: int, n: int)
    requires u > 0 && n > 0
    ensures u * n > 0
  {
  }

  /** What a tick does to one truck: the station phase releases it if it is
      at the front of a serving station's queue, the truck phase ticks it,
      and the assignment phase can only set its assignment flag, and only when
      it arrives loaded in this tick. */
  lemma TickTruck(w: World, c: Config, v: int)
    requires Invariant(w, c.unload) && 0 <= v < |w.trucks|
    ensures var r := Tick(w, c).trucks[v];
      && r == UpdateTruck(AfterStations(w, v), c.dt, c.travel, c.unload).(isAssignedStation := r.isAssignedStation)
      && (!ArrivesLoaded(AfterStations(w, v), c.dt) ==> r == UpdateTruck(AfterStations(w, v), c.dt, c.travel, c.unload))
  {
    var y1 := StationPhase(w, c);
    assert y1.trucks[v] == AfterStations(w, v) by {
      assert w.stations + [] == w.stations;
      UpdateStationsReleases(w.stations, [], w.trucks, w.pool, c.unload);
    }
    TruckAndAssignPhases(w, c);
    if !ArrivesLoaded(y1.trucks[v], c.dt) {
      LoadedIdsAreArrivals(y1.trucks, c.dt, v);
    }
  }

  /** Truck `v` as the station phase of a tick leaves it. */
  ghost function AfterStations(w: World, v: int): Truck
    requires 0 <= v < |w.trucks|
  {
    if FrontOfOccupied(w.stations, v) then Released(w.trucks[v]) else w.trucks[v]
  }

  /** Same-tick ordering: a truck at the front of a serving station's queue is
      released by the station phase and, in the truck phase of the same tick,
      already counts an unload tick and runs its unload timer down. The
      assignment phase then leaves it alone. */
  lemma SameTickUnload(w: World, c: Config, k: int)
    requires Invariant(w, c.unload) && 0 <= k < |w.stations|
    requires w.stations[k].state == Occupied && w.stations[k].vehicleIdQueue != []
    ensures 0 <= w.stations[k].vehicleIdQueue[0] < |w.trucks|
    ensures var v := w.stations[k].vehicleIdQueue[0];
      var t := w.trucks[v];
      var r := Tick(w, c).trucks[v];
      && r == UpdateTruck(Released(t), c.dt, c.travel, c.unload)
      && t.isLoaded && t.state == Unload
      && !r.isLoaded && !r.isAssignedStation
      && r.numUnloads == t.numUnloads + 1
      && r.timeUntilNextState == t.timeUntilNextState - c.dt
           + (if t.timeUntilNextState <= c.dt then c.travel else 0)
  {
    var v := w.stations[k].vehicleIdQueue[0];
    assert 0 <= v < |w.trucks|;
    assert w.trucks[v].isAssignedStation && IsFrozen(w.trucks[v]) by {
      QueuedIncludes(w.stations, k);
      assert multiset(w.stations[k].vehicleIdQueue)[v] >= 1;
    }
    assert FrontOfOccupied(w.stations, v);
    TickTruck(w, c, v);
  }

  /** The ticks a truck's counters hold in total. */
  function CountedTicks(t: Truck): nat
  {
    t.numMiningCycles + t.numTravelCycles + t.numUnloads
  }

  /** A tick adds at most one counted tick to truck `v` (none while it is
      held), whatever the stations and the assignment do. */
  lemma TickCountsOne(w: World, c: Config, v: int)
    requires Invariant(w, c.unload) && 0 <= v < |w.trucks|
    ensures CountedTicks(w.trucks[v]) <= CountedTicks(Tick(w, c).trucks[v]) <= CountedTicks(w.trucks[v]) + 1
  {
    TickTruck(w, c, v);
    TimerAndCounters(AfterStations(w, v), c.dt, c.travel, c.unload);
  }

  /** After `n` ticks truck `v` has counted at most `n` more ticks, so the
      time its statistics account for is at most `n` ticks. */
  lemma {:induction false} RunCountsOne(w: World, c: Config, n: nat, v: int)
    requires Invariant(w, c.unload) && 0 <= v < |w.trucks|
    ensures CountedTicks(RunTicks(w, c, n).trucks[v]) <= CountedTicks(w.trucks[v]) + n
  {
    if n > 0 {
      RunCountsOne(w, c, n - 1, v);
      RunTicksPreserves(w, c, n - 1);
      TickCountsOne(RunTicks(w, c, n - 1), c, v);
    }
  }
}
