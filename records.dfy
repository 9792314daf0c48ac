// The plain records of the haulage simulation: a mining truck, an unloading
// station, and the per-entity performance summaries computed after a run.
// Durations are whole minutes; the source's float counters are naturals; a
// percentage is a Figure, which a zero horizon makes non-finite.

module MiningTruck {
  import opened Units

  /** The phase a truck is in: MINING, TRAVEL (either direction) or UNLOAD. */
  datatype TruckState = Mining | Travel | Unload

  /** A mining truck. `id` and `miningCycleDuration` are never updated by any
      operation of the model (they are `const` in the source). */
  datatype Truck = Truck(
    id: int,
    miningCycleDuration: int,
    state: TruckState,
    timeUntilNextState: int,
    isLoaded: bool,
    isAssignedStation: bool,
    numTravelCycles: nat,
    numMiningCycles: nat,
    numUnloads: nat)

  /** The parameterised constructor: a new truck is mining, empty, unassigned,
      has a full mining cycle ahead of it and has counted nothing yet. */
  function NewTruck(id: int, miningTime: int): (t: Truck)
    ensures t.id == id && t.miningCycleDuration == miningTime
    ensures t.state == Mining && t.timeUntilNextState == miningTime
    ensures !t.isLoaded && !t.isAssignedStation
    ensures t.numTravelCycles == 0 && t.numMiningCycles == 0 && t.numUnloads == 0
  {
    Truck(id, miningTime, Mining, miningTime, false, false, 0, 0, 0)
  }

  /** Per-truck statistics reported after a run. */
  datatype TruckPerformanceStats = TruckPerformanceStats(
    vehicleId: int,
    percentMiningTime: Figure,
    percentTravelTime: Figure,
    percentUnloadingTime: Figure,
    percentIdleTime: Figure,
    totalMiningTimeHrs: real,
    totalUnloads: real)

  /** The statistics constructor keeps the id and zeroes every figure. */
  function NewTruckPerformanceStats(id: int): (p: TruckPerformanceStats)
    ensures p.vehicleId == id
    ensures p.percentMiningTime == Finite(0.0) && p.percentTravelTime == Finite(0.0)
    ensures p.percentUnloadingTime == Finite(0.0) && p.percentIdleTime == Finite(0.0)
    ensures p.totalMiningTimeHrs == 0.0 && p.totalUnloads == 0.0
  {
    TruckPerformanceStats(id, Finite(0.0), Finite(0.0), Finite(0.0), Finite(0.0), 0.0, 0.0)
  }
}

module UnloadingStation {
  import opened Units

  /** A station is either free or serving its queue. */
  datatype StationState = Available | Occupied

  /** An unloading station. `waitTime` is the station's load estimate used by
      the assignment policy; `vehicleIdQueue` is used first-in first-out
      (front at index 0). `id` is never updated by any operation. */
  datatype Station = Station(
    id: int,
    state: StationState,
    waitTime: int,
    vehicleIdQueue: seq<int>,
    numVehiclesUnloaded: nat)

  /** The parameterised constructor: available, no wait, empty queue, nothing
      unloaded yet. */
  function NewStation(id: int): (s: Station)
    ensures s.id == id && s.state == Available
    ensures s.waitTime == 0 && s.vehicleIdQueue == [] && s.numVehiclesUnloaded == 0
  {
    Station(id, Available, 0, [], 0)
  }

  /** Per-station statistics reported after a run. */
  datatype StationPerformanceStats = StationPerformanceStats(
    stationId: int,
    totalUnloads: real,
    percentUnloadingTime: Figure,
    percentIdleTime: Figure,
    totalUnloadingTimeHrs: real,
    totalIdleTimeHrs: real)

  /** The statistics constructor keeps the id and zeroes every figure. */
  function NewStationPerformanceStats(id: int): (p: StationPerformanceStats)
    ensures p.stationId == id && p.totalUnloads == 0.0
    ensures p.percentUnloadingTime == Finite(0.0) && p.percentIdleTime == Finite(0.0)
    ensures p.totalUnloadingTimeHrs == 0.0 && p.totalIdleTimeHrs == 0.0
  {
    StationPerformanceStats(id, 0.0, Finite(0.0), Finite(0.0), 0.0, 0.0)
  }
}
