// The simulation clock and the statistics aggregator.
//
// A tick runs the station registry, then the truck registry, then the
// assignment policy on the loaded list that same tick produced (Tick, on
// values). The class Simulation owns both registries and runs ticks while the
// elapsed time has not passed the horizon; after the run it derives the
// per-truck and per-station statistics from the counters.

module Simulation {
  import opened MiningTruck
  import opened UnloadingStation
  import opened Units
  import opened TruckProcessor
  import opened StationProcessor

  /** The fixed durations of a run, in minutes. */
  datatype Config = Config(dt: int, travel: int, unload: int)

  /** Everything a tick changes: trucks, stations, the free-station pool and
      the loaded list of the latest tick. */
  datatype World = World(trucks: seq<Truck>, stations: seq<Station>, pool: seq<int>, loaded: seq<int>)

  /** The indexing facts the source relies on without checking: at least one
      station, ids equal to positions, queued truck ids and pooled station ids
      in range. */
  ghost predicate WellFormed(w: World)
  {
    && w.stations != []
    && IdsAreIndices(w.trucks)
    && StationIdsAreIndices(w.stations)
    && QueuesInRange(w.stations, |w.trucks|)
    && PoolInRange(w.pool, |w.stations|)
  }

  // ---------------------------------------------------------------------------
  // What the phases of a tick leave alone
  // ---------------------------------------------------------------------------

  /** The station phase keeps every id and the length of both lists, and
      pushes only ids of stations it processed. */
  lemma {:induction false} UpdateStationsFrame(ss: seq<Station>, ts: seq<Truck>, pool: seq<int>, unload: int, m: int)
    requires QueuesInRange(ss, |ts|)
    requires forall k :: 0 <= k < |ss| ==> 0 <= ss[k].id < m
    requires PoolInRange(pool, m)
    ensures var y := UpdateStations(ss, ts, pool, unload);
      && (forall k :: 0 <= k < |ss| ==> y.stations[k].id == ss[k].id)
      && (forall v :: 0 <= v < |ts| ==> y.trucks[v].id == ts[v].id)
      && PoolInRange(y.pool, m)
    decreases |ss|
  {
    if ss != [] {
      var init := ss[..|ss| - 1];
      UpdateStationsFrame(init, ts, pool, unload, m);
      var y0 := UpdateStations(init, ts, pool, unload);
      var s := ss[|ss| - 1];
      assert s.vehicleIdQueue != [] ==> 0 <= s.vehicleIdQueue[0] < |y0.trucks|;
      StationTickEffect(s, y0.trucks, unload);
    }
  }

  /** The station phase only shortens queues, so they stay in range. */
  lemma {:induction false} UpdateStationsQueues(ss: seq<Station>, ts: seq<Truck>, pool: seq<int>, unload: int)
    requires QueuesInRange(ss, |ts|)
    ensures QueuesInRange(UpdateStations(ss, ts, pool, unload).stations, |ts|)
    decreases |ss|
  {
    if ss != [] {
      var init := ss[..|ss| - 1];
      UpdateStationsQueues(init, ts, pool, unload);
      var y0 := UpdateStations(init, ts, pool, unload);
      var s := ss[|ss| - 1];
      assert s.vehicleIdQueue != [] ==> 0 <= s.vehicleIdQueue[0] < |y0.trucks|;
      StationTickEffect(s, y0.trucks, unload);
      var y := UpdateStations(ss, ts, pool, unload);
      forall k, j | 0 <= k < |ss| && 0 <= j < |y.stations[k].vehicleIdQueue|
        ensures 0 <= y.stations[k].vehicleIdQueue[j] < |ts|
      {
        if k == |ss| - 1 {
          if s.state == Occupied && s.vehicleIdQueue != [] {
            assert y.stations[k].vehicleIdQueue[j] == s.vehicleIdQueue[j + 1];
          }
        } else {
          assert y.stations[k] == y0.stations[k];
        }
      }
    }
  }

  /** The assignment phase keeps every truck id; it only appends ids of the
      trucks it places, so queues stay in range. */
  lemma {:induction false} AssignAllFrame(ss: seq<Station>, ts: seq<Truck>, pool: seq<int>, loaded: seq<int>, unload: int)
    requires ss != [] && StationIdsAreIndices(ss) && PoolInRange(pool, |ss|)
    requires forall j :: 0 <= j < |loaded| ==> 0 <= loaded[j] < |ts|
    requires IdsAreIndices(ts) && QueuesInRange(ss, |ts|)
    ensures var y := AssignAll(ss, ts, pool, loaded, unload);
      IdsAreIndices(y.trucks) && QueuesInRange(y.stations, |ts|)
    decreases |loaded|
  {
    if loaded != [] {
      var init := loaded[..|loaded| - 1];
      AssignAllFrame(ss, ts, pool, init, unload);
      var y0 := AssignAll(ss, ts, pool, init, unload);
      var idx := loaded[|loaded| - 1];
      var k := ShortestWaitStation(y0.stations, y0.pool);
      AssignmentEffect(y0.trucks[idx], y0.stations[k], y0.pool, unload);
      var y := AssignAll(ss, ts, pool, loaded, unload);
      forall k', j | 0 <= k' < |ss| && 0 <= j < |y.stations[k'].vehicleIdQueue|
        ensures 0 <= y.stations[k'].vehicleIdQueue[j] < |ts|
      {
        if k' != k {
          assert y.stations[k'] == y0.stations[k'];
        } else if j < |y0.stations[k].vehicleIdQueue| {
          assert y.stations[k].vehicleIdQueue[j] == y0.stations[k].vehicleIdQueue[j];
        }
      }
    }
  }

  // ---------------------------------------------------------------------------
  // One tick and a run, on values
  // ---------------------------------------------------------------------------

  /** The stations and trucks after the station phase of a tick. */
  function StationPhase(w: World, c: Config): (y: Yard)
    requires WellFormed(w)
    ensures |y.stations| == |w.stations| && |y.trucks| == |w.trucks|
    ensures StationIdsAreIndices(y.stations) && IdsAreIndices(y.trucks)
    ensures QueuesInRange(y.stations, |w.trucks|) && PoolInRange(y.pool, |w.stations|)
  {
    UpdateStationsFrame(w.stations, w.trucks, w.pool, c.unload, |w.stations|);
    UpdateStationsQueues(w.stations, w.trucks, w.pool, c.unload);
    UpdateStations(w.stations, w.trucks, w.pool, c.unload)
  }

  /** One tick of `run`: stations, then trucks, then assignment of the trucks
      that arrived loaded in this very tick. */
  function Tick(w: World, c: Config): (w': World)
    requires WellFormed(w)
    ensures WellFormed(w') && |w'.trucks| == |w.trucks| && |w'.stations| == |w.stations|
  {
    var y1 := StationPhase(w, c);
    var ts2 := FleetUpdate(y1.trucks, c.dt, c.travel, c.unload);
    var loaded := LoadedIds(y1.trucks, c.dt);
    LoadedIdsAscending(y1.trucks, c.dt);
    assert IdsAreIndices(ts2);
    var y3 := AssignAll(y1.stations, ts2, y1.pool, loaded, c.unload);
    AssignAllFrame(y1.stations, ts2, y1.pool, loaded, c.unload);
    World(y3.trucks, y3.stations, y3.pool, loaded)
  }

  /** `n` ticks in a row. */
  function RunTicks(w: World, c: Config, n: nat): (w': World)
    requires WellFormed(w)
    ensures WellFormed(w') && |w'.trucks| == |w.trucks| && |w'.stations| == |w.stations|
  {
    if n == 0 then w else Tick(RunTicks(w, c, n - 1), c)
  }

  /** The number of ticks `run` performs from elapsed time `now`: one for every
      tick start `now + k*dt` (k = 0, 1, ...) that is not past the horizon. */
  function TickCount(now: int, horizon: int, dt: int): nat
    requires dt > 0
  {
    if now > horizon then 0 else (horizon - now) / dt + 1
  }

  /** TickCount is the only count that ends past the horizon with every tick
      started no later than the horizon. */
  lemma TickCountIsExact(now: int, horizon: int, dt: int, n: nat)
    requires dt > 0
    ensures n == TickCount(now, horizon, dt) <==> now + n * dt > horizon && (n == 0 || now + (n - 1) * dt <= horizon)
  {
    if now <= horizon {
      var q, r := (horizon - now) / dt, (horizon - now) % dt;
      assert horizon - now == q * dt + r && 0 <= r < dt;
      if now + n * dt > horizon && n > 0 && now + (n - 1) * dt <= horizon {
        MulMonotone(n - 1, q + 1, dt);
        MulMonotone(q, n, dt);
      }
      assert now + (q + 1) * dt > horizon;
    } else if n > 0 {
      assert (n - 1) * dt >= 0;
    }
  }

  /** A loop that starts ticks at `start`, `start + dt`, ... and stops at the
      first start past the horizon has run `TickCount` ticks. */
  lemma RunEnds(start: int, horizon: int, dt: int, n: nat, now: int)
    requires dt > 0 && now == start + n * dt && now > horizon
    requires n == 0 || now - dt <= horizon
    ensures n == TickCount(start, horizon, dt)
  {
    MulStep(n - 1, dt);
    TickCountIsExact(start, horizon, dt, n);
  }

  lemma MulStep(n: int, d: int)
    ensures (n + 1) * d == n * d + d
  {
  }

  /** Strict monotonicity of multiplication by a positive factor, backwards. */
  lemma MulMonotone(a: int, b: int, d: int)
    requires d > 0 && a * d < b * d
    ensures a < b
  {
  }

  // ---------------------------------------------------------------------------
  // Statistics
  // ---------------------------------------------------------------------------

  /** `computeTruckPerformance`: percentages of the horizon spent mining,
      travelling and unloading, the rest idle, and mining hours. A zero
      horizon makes every percentage infinite or NaN; the id, the hours and
      the unload total do not depend on it. */
  function ComputeTruckPerformance(t: Truck, unload: int, dt: int, horizon: int): (p: TruckPerformanceStats)
    ensures p.vehicleId == t.id
    ensures p.totalUnloads == t.numUnloads as real
    ensures horizon != 0 <==> p.percentMiningTime.Finite?
    ensures horizon != 0 <==> p.percentTravelTime.Finite?
    ensures horizon != 0 <==> p.percentUnloadingTime.Finite?
    ensures horizon != 0 <==> p.percentIdleTime.Finite?
    ensures horizon != 0 ==>
      p.percentMiningTime.value + p.percentTravelTime.value + p.percentUnloadingTime.value + p.percentIdleTime.value == 100.0
  {
    var h := horizon as real;
    var stats := NewTruckPerformanceStats(t.id);
    var mining := Scale(Divide((t.numMiningCycles as real) * (dt as real), h), 100.0);
    var travel := Scale(Divide((t.numTravelCycles as real) * (dt as real), h), 100.0);
    var unloading := Scale(Divide((t.numUnloads as real) * (unload as real), h), 100.0);
    stats.(percentMiningTime := mining,
           percentTravelTime := travel,
           percentUnloadingTime := unloading,
           percentIdleTime := Minus(Minus(Minus(Finite(100.0), mining), travel), unloading),
           totalMiningTimeHrs := ((t.numMiningCycles as real) * (dt as real)) / 60.0,
           totalUnloads := t.numUnloads as real)
  }

  /** The mining hours are the mining ticks' time in hours, whatever the
      horizon; when the horizon is not zero the mining percentage is the same
      time as a share of it. */
  lemma TruckHoursMatchPercent(t: Truck, unload: int, dt: int, horizon: int)
    ensures var p := ComputeTruckPerformance(t, unload, dt, horizon);
      && p.totalMiningTimeHrs * 60.0 == (t.numMiningCycles * dt) as real
      && (horizon != 0 ==>
            && p.totalMiningTimeHrs * 6000.0 == p.percentMiningTime.value * horizon as real
            && p.percentMiningTime.value * horizon as real == (t.numMiningCycles * dt) as real * 100.0)
  {
    ProductAsReal(t.numMiningCycles, dt);
  }

  /** When the time a truck's counters account for fits in the horizon, every
      percentage lies between 0 and 100. */
  lemma TruckPercentagesBounded(t: Truck, unload: int, dt: int, horizon: int)
    requires horizon > 0 && dt >= 0 && unload >= 0
    requires (t.numMiningCycles + t.numTravelCycles) * dt + t.numUnloads * unload <= horizon
    ensures var p := ComputeTruckPerformance(t, unload, dt, horizon);
      && 0.0 <= p.percentMiningTime.value <= 100.0 && 0.0 <= p.percentTravelTime.value <= 100.0
      && 0.0 <= p.percentUnloadingTime.value <= 100.0 && 0.0 <= p.percentIdleTime.value <= 100.0
  {
    BudgetAsReal(t.numMiningCycles, t.numTravelCycles, t.numUnloads, dt, unload, horizon);
    TruckPercentagesAsShares(t, unload, dt, horizon);
    var h := horizon as real;
    var a := (t.numMiningCycles as real) * (dt as real);
    var b := (t.numTravelCycles as real) * (dt as real);
    var u := (t.numUnloads as real) * (unload as real);
    SharesBounded(a, b, u, h);
  }

  /** Each percentage is the share of the horizon its counter's time takes;
      idle is what is left. */
  lemma TruckPercentagesAsShares(t: Truck, unload: int, dt: int, horizon: int)
    requires horizon > 0
    ensures var p := ComputeTruckPerformance(t, unload, dt, horizon);
      var h := horizon as real;
      var a := (t.numMiningCycles as real) * (dt as real);
      var b := (t.numTravelCycles as real) * (dt as real);
      var u := (t.numUnloads as real) * (unload as real);
      && p.percentMiningTime == Finite(a / h * 100.0) && p.percentTravelTime == Finite(b / h * 100.0)
      && p.percentUnloadingTime == Finite(u / h * 100.0)
      && p.percentIdleTime == Finite(100.0 - a / h * 100.0 - b / h * 100.0 - u / h * 100.0)
  {
  }

  /** Shares of a horizon `h` taken by non-negative parts that fit in it. */
  lemma SharesBounded(a: real, b: real, u: real, h: real)
    requires h > 0.0 && 0.0 <= a && 0.0 <= b && 0.0 <= u && a + b + u <= h
    ensures 0.0 <= a / h * 100.0 <= 100.0 && 0.0 <= b / h * 100.0 <= 100.0 && 0.0 <= u / h * 100.0 <= 100.0
    ensures 0.0 <= 100.0 - a / h * 100.0 - b / h * 100.0 - u / h * 100.0 <= 100.0
  {
    ShareBounded(a, h);
    ShareBounded(b, h);
    ShareBounded(u, h);
    ShareBounded(a + b + u, h);
    SharesAdd(a, b, u, h);
  }

  /** The integer time budget of the counters, in reals. */
  lemma BudgetAsReal(nm: nat, nt: nat, nu: nat, dt: int, unload: int, horizon: int)
    requires dt >= 0 && unload >= 0 && (nm + nt) * dt + nu * unload <= horizon
    ensures var a, b, u := (nm as real) * (dt as real), (nt as real) * (dt as real), (nu as real) * (unload as real);
      0.0 <= a && 0.0 <= b && 0.0 <= u && a + b + u <= horizon as real
  {
    assert (nm + nt) * dt == nm * dt + nt * dt;
    ProductAsReal(nm, dt);
    ProductAsReal(nt, dt);
    ProductAsReal(nu, unload);
  }

  lemma ProductAsReal(x: int, y: int)
    ensures (x * y) as real == (x as real) * (y as real)
  {
  }

  lemma ShareBounded(x: real, h: real)
    requires h > 0.0 && 0.0 <= x <= h
    ensures 0.0 <= x / h * 100.0 <= 100.0
  {
  }

  lemma SharesAdd(a: real, b: real, u: real, h: real)
    requires h > 0.0
    ensures a / h * 100.0 + b / h * 100.0 + u / h * 100.0 == (a + b + u) / h * 100.0
  {
  }

  /** `computeStationPerformance`: the share of the horizon spent unloading,
      the rest idle, both also in hours. A zero horizon makes both
      percentages infinite or NaN; the hours and the unload total do not
      depend on it. */
  function ComputeStationPerformance(s: Station, unload: int, horizon: int): (p: StationPerformanceStats)
    ensures p.stationId == s.id
    ensures p.totalUnloads == s.numVehiclesUnloaded as real
    ensures p.totalUnloadingTimeHrs + p.totalIdleTimeHrs == horizon as real / 60.0
    ensures p.totalUnloadingTimeHrs * 60.0 == (s.numVehiclesUnloaded as real) * (unload as real)
    ensures horizon != 0 <==> p.percentUnloadingTime.Finite?
    ensures horizon != 0 <==> p.percentIdleTime.Finite?
    ensures horizon != 0 ==> p.percentUnloadingTime.value + p.percentIdleTime.value == 100.0
    ensures horizon != 0 ==> p.percentUnloadingTime.value * horizon as real == p.totalUnloadingTimeHrs * 6000.0
  {
    var h := horizon as real;
    var stats := NewStationPerformanceStats(s.id);
    var unloading := Scale(Divide((s.numVehiclesUnloaded as real) * (unload as real), h), 100.0);
    var unloadingHrs := ((s.numVehiclesUnloaded as real) * (unload as real)) / 60.0;
    stats.(percentUnloadingTime := unloading,
           percentIdleTime := Minus(Finite(100.0), unloading),
           totalUnloadingTimeHrs := unloadingHrs,
           totalIdleTimeHrs := h / 60.0 - unloadingHrs,
           totalUnloads := s.numVehiclesUnloaded as real)
  }

  /** The statistics of a list of trucks, in list order. */
  function TruckStats(ts: seq<Truck>, unload: int, dt: int, horizon: int): (r: seq<TruckPerformanceStats>)
    ensures |r| == |ts| && forall i :: 0 <= i < |ts| ==> r[i].vehicleId == ts[i].id
  {
    seq(|ts|, i requires 0 <= i < |ts| => ComputeTruckPerformance(ts[i], unload, dt, horizon))
  }

  /** The statistics of a list of stations, in list order. */
  function StationStats(ss: seq<Station>, unload: int, horizon: int): (r: seq<StationPerformanceStats>)
    ensures |r| == |ss| && forall k :: 0 <= k < |ss| ==> r[k].stationId == ss[k].id
  {
    seq(|ss|, k requires 0 <= k < |ss| => ComputeStationPerformance(ss[k], unload, horizon))
  }

  // ---------------------------------------------------------------------------
  // The simulation object
  // ---------------------------------------------------------------------------

  class Simulation {
    /** the horizon, minutes */
    const simulationTime: int
    /** the tick, minutes */
    const simulationTimestep: int
    var currentSimulationTime: int
    const miningTrucksProcessor: MiningTrucksProcessor
    const unloadingStationProcessor: UnloadingStationProcessor
    var miningTrucksPerformance: seq<TruckPerformanceStats>
    var unloadingStationsPerformance: seq<StationPerformanceStats>

    ghost function State(): World
      reads miningTrucksProcessor, miningTrucksProcessor.fleet
      reads unloadingStationProcessor, unloadingStationProcessor.stations
    {
      World(miningTrucksProcessor.fleet[..], unloadingStationProcessor.stations[..],
            unloadingStationProcessor.pool, miningTrucksProcessor.loadedTrucks)
    }

    function Durations(): Config
    {
      Config(simulationTimestep, miningTrucksProcessor.travelDuration, miningTrucksProcessor.unloadDuration)
    }

    ghost predicate Valid()
      reads miningTrucksProcessor, miningTrucksProcessor.fleet
      reads unloadingStationProcessor, unloadingStationProcessor.stations
    {
      && miningTrucksProcessor.Valid()
      && unloadingStationProcessor.Valid()
      && miningTrucksProcessor.unloadDuration == unloadingStationProcessor.unloadDuration
      && WellFormed(State())
    }

    /** The hour figures are converted to minutes (the unload duration is
        passed through as minutes); one mining duration is drawn per truck. */
    constructor (numMiningTrucks: nat, numUnloadingStations: nat, minMiningHrs: real, maxMiningHrs: real,
                 miningTimes: seq<int>, travelHrs: real, unloadMin: int, simulationHrs: real, timestepMin: int)
      requires numUnloadingStations > 0
      requires |miningTimes| == numMiningTrucks
      requires forall d :: d in miningTimes ==> minMiningHrs * 60.0 <= d as real <= maxMiningHrs * 60.0
      requires IsWholeMinutes(travelHrs) && IsWholeMinutes(simulationHrs)
      ensures Valid() && fresh(miningTrucksProcessor) && fresh(unloadingStationProcessor)
      ensures fresh(miningTrucksProcessor.fleet) && fresh(unloadingStationProcessor.stations)
      ensures simulationTime as real == simulationHrs * 60.0 && simulationTimestep == timestepMin
      ensures currentSimulationTime == 0
      ensures miningTrucksProcessor.numMiningTrucks == numMiningTrucks
      ensures unloadingStationProcessor.numUnloadingStations == numUnloadingStations
      ensures miningTrucksProcessor.travelDuration as real == travelHrs * 60.0
      ensures miningTrucksProcessor.unloadDuration == unloadMin && unloadingStationProcessor.unloadDuration == unloadMin
      ensures forall i :: 0 <= i < numMiningTrucks ==> miningTrucksProcessor.fleet[i] == NewTruck(i, miningTimes[i])
      ensures forall k :: 0 <= k < numUnloadingStations ==> unloadingStationProcessor.stations[k] == NewStation(k)
      ensures unloadingStationProcessor.pool == [] && miningTrucksProcessor.loadedTrucks == []
      ensures miningTrucksPerformance == [] && unloadingStationsPerformance == []
    {
      simulationTime := HoursToMinutes(simulationHrs);
      simulationTimestep := timestepMin;
      currentSimulationTime := 0;
      miningTrucksProcessor := new MiningTrucksProcessor(numMiningTrucks, minMiningHrs, maxMiningHrs, miningTimes,
                                                         travelHrs, unloadMin);
      unloadingStationProcessor := new UnloadingStationProcessor(numUnloadingStations, unloadMin);
      miningTrucksPerformance := [];
      unloadingStationsPerformance := [];
    }

    /** The body of `run`'s loop, without the clock: stations, trucks, then
        assignment of the trucks that arrived loaded in this tick. */
    method Step()
      requires Valid()
      modifies miningTrucksProcessor`loadedTrucks, miningTrucksProcessor.fleet
      modifies unloadingStationProcessor`pool, unloadingStationProcessor.stations
      ensures Valid()
      ensures State() == Tick(old(State()), Durations())
    {
      ghost var w := State();
      ghost var y1 := StationPhase(w, Durations());
      var dt := simulationTimestep;
      unloadingStationProcessor.UpdateUnloadingStations(dt, miningTrucksProcessor.fleet);
      miningTrucksProcessor.UpdateMiningTrucks(dt);
      LoadedIdsAscending(y1.trucks, dt);
      unloadingStationProcessor.AssignVehiclesToStations(miningTrucksProcessor.fleet, miningTrucksProcessor.loadedTrucks);
      assert State() == Tick(w, Durations());
    }

    /** `run`: while the elapsed time has not passed the horizon, tick and
        advance the clock by one tick. */
    method Run()
      requires Valid() && simulationTimestep > 0
      modifies this`currentSimulationTime
      modifies miningTrucksProcessor`loadedTrucks, miningTrucksProcessor.fleet
      modifies unloadingStationProcessor`pool, unloadingStationProcessor.stations
      ensures Valid()
      ensures var n := TickCount(old(currentSimulationTime), simulationTime, simulationTimestep);
        && State() == RunTicks(old(State()), Durations(), n)
        && currentSimulationTime == old(currentSimulationTime) + n * simulationTimestep
      ensures currentSimulationTime > simulationTime
    {
      ghost var n: nat := 0;
      ghost var start := currentSimulationTime;
      ghost var w0 := State();
      ghost var c := Durations();
      var dt := simulationTimestep;
      while currentSimulationTime <= simulationTime
        invariant Valid() && Durations() == c && c.dt == dt
        invariant currentSimulationTime == start + n * dt
        invariant n == 0 || currentSimulationTime - dt <= simulationTime
        invariant State() == RunTicks(w0, c, n)
        decreases simulationTime - currentSimulationTime
      {
        ghost var before := State();
        Step();
        assert State() == Tick(before, c) == RunTicks(w0, c, n + 1);
        MulStep(n, dt);
        currentSimulationTime := currentSimulationTime + dt;
        n := n + 1;
      }
      RunEnds(start, simulationTime, dt, n, currentSimulationTime);
    }

    /** `computePerformanceStats`: append one record per truck and one per
        station, in list order. */
    method ComputePerformanceStats()
      modifies this`miningTrucksPerformance, this`unloadingStationsPerformance
      ensures miningTrucksPerformance == old(miningTrucksPerformance)
        + TruckStats(miningTrucksProcessor.fleet[..], unloadingStationProcessor.unloadDuration, simulationTimestep, simulationTime)
      ensures unloadingStationsPerformance == old(unloadingStationsPerformance)
        + StationStats(unloadingStationProcessor.stations[..], unloadingStationProcessor.unloadDuration, simulationTime)
    {
      var unloadDuration := unloadingStationProcessor.unloadDuration;
      var fleet := miningTrucksProcessor.fleet;
      for i := 0 to fleet.Length
        invariant miningTrucksPerformance == old(miningTrucksPerformance)
          + TruckStats(fleet[..i], unloadDuration, simulationTimestep, simulationTime)
        invariant unloadingStationsPerformance == old(unloadingStationsPerformance)
      {
        var truckStats := ComputeTruckPerformance(fleet[i], unloadDuration, simulationTimestep, simulationTime);
        miningTrucksPerformance := miningTrucksPerformance + [truckStats];
        assert TruckStats(fleet[..i + 1], unloadDuration, simulationTimestep, simulationTime)
          == TruckStats(fleet[..i], unloadDuration, simulationTimestep, simulationTime) + [truckStats];
      }
      assert fleet[..fleet.Length] == fleet[..];
      var stations := unloadingStationProcessor.stations;
      for k := 0 to stations.Length
        invariant unloadingStationsPerformance == old(unloadingStationsPerformance)
          + StationStats(stations[..k], unloadDuration, simulationTime)
        invariant miningTrucksPerformance == old(miningTrucksPerformance)
          + TruckStats(fleet[..], unloadDuration, simulationTimestep, simulationTime)
      {
        var stationStats := ComputeStationPerformance(stations[k], unloadDuration, simulationTime);
        unloadingStationsPerformance := unloadingStationsPerformance + [stationStats];
        assert StationStats(stations[..k + 1], unloadDuration, simulationTime)
          == StationStats(stations[..k], unloadDuration, simulationTime) + [stationStats];
      }
      assert stations[..stations.Length] == stations[..];
    }

    /** `getMiningTruckPerformances`: computes the statistics only when none
        are stored yet, then returns the stored truck statistics. */
    method GetMiningTruckPerformances() returns (r: seq<TruckPerformanceStats>)
      modifies this`miningTrucksPerformance, this`unloadingStationsPerformance
      ensures old(miningTrucksPerformance) != [] ==>
        miningTrucksPerformance == old(miningTrucksPerformance)
        && unloadingStationsPerformance == old(unloadingStationsPerformance)
      ensures old(miningTrucksPerformance) == [] ==>
        && miningTrucksPerformance
             == TruckStats(miningTrucksProcessor.fleet[..], unloadingStationProcessor.unloadDuration, simulationTimestep, simulationTime)
        && unloadingStationsPerformance == old(unloadingStationsPerformance)
             + StationStats(unloadingStationProcessor.stations[..], unloadingStationProcessor.unloadDuration, simulationTime)
      ensures r == miningTrucksPerformance
    {
      if |miningTrucksPerformance| == 0 {
        ComputePerformanceStats();
      }
      r := miningTrucksPerformance;
    }

    /** `getUnloadingStationPerformances`: computes the statistics only when
        none are stored yet, then returns the stored station statistics. */
    method GetUnloadingStationPerformances() returns (r: seq<StationPerformanceStats>)
      modifies this`miningTrucksPerformance, this`unloadingStationsPerformance
      ensures old(unloadingStationsPerformance) != [] ==>
        miningTrucksPerformance == old(miningTrucksPerformance)
        && unloadingStationsPerformance == old(unloadingStationsPerformance)
      ensures old(unloadingStationsPerformance) == [] ==>
        && miningTrucksPerformance == old(miningTrucksPerformance)
             + TruckStats(miningTrucksProcessor.fleet[..], unloadingStationProcessor.unloadDuration, simulationTimestep, simulationTime)
        && unloadingStationsPerformance
             == StationStats(unloadingStationProcessor.stations[..], unloadingStationProcessor.unloadDuration, simulationTime)
      ensures r == unloadingStationsPerformance
    {
      if |unloadingStationsPerformance| == 0 {
        ComputePerformanceStats();
      }
      r := unloadingStationsPerformance;
    }
  }
}
