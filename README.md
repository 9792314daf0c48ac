# Mining haulage simulation, modelled in Dafny

The system simulates a fleet of mining trucks and a set of unloading
stations on a fixed time step. Each truck cycles MINING → TRAVEL (loaded) →
UNLOAD → TRAVEL (empty) → MINING, with its own randomly drawn mining duration,
a common travel duration and a common unload duration. Each tick:

1. The station registry runs first. An AVAILABLE station with a queue
   becomes OCCUPIED. An OCCUPIED station unloads the truck at the front of
   its queue and pops it. An OCCUPIED station becomes AVAILABLE again, and
   is pushed onto the free-station pool, when its queue was already empty,
   or when the unload it just did used up its wait and left the queue
   empty.
2. The truck registry ticks every truck and records, in list order, the
   trucks that arrived loaded at the unloading area.
3. The assignment policy places each of those trucks. It takes the station
   at the front of the free pool if there is one. Otherwise it takes the
   first station with the least wait. The truck joins that station's queue
   and the station's wait grows by one unload duration.

The run repeats ticks while the elapsed time has not passed the horizon.
Afterwards, per-truck and per-station statistics are derived from the tick
counters.

The model has these parts:

- `records.dfy`: the records, as datatypes (modules `MiningTruck` and
  `UnloadingStation`).
- `units.dfy`: the hours-to-minutes conversion (module `Units`).
- `truck_processor.dfy`: the truck registry (module `TruckProcessor`).
  - `UpdateTruck`, `FleetUpdate` and `LoadedIds` give one tick on values.
  - The class `MiningTrucksProcessor` does the same tick in place on an
    `array<Truck>` and is proved equal to those functions.
- `station_processor.dfy`: the station registry and the assignment policy
  (module `StationProcessor`).
  - `StationTick`, `UpdateStations`, `MinWaitIndex`, `ShortestWaitStation`,
    `Assignment` and `AssignAll` work on values.
  - The class `UnloadingStationProcessor` works in place on an
    `array<Station>`, the pool and the truck array, and is proved equal to
    those functions.
- `simulation.dfy`: the clock and the statistics (module `Simulation`).
  - `Tick` and `RunTicks` work on values.
  - The class `Simulation` owns both registries. `Run` is proved to perform
    exactly `TickCount` ticks.
- `truck_cycle.dfy`: how long each phase of one truck lasts, over many
  ticks.
- `invariants.dfy`: the station/truck bookkeeping every tick keeps, and its
  consequences. The bookkeeping is:
  - a station's wait is one unload duration per queued truck;
  - a truck is queued, exactly once, iff it is marked assigned;
  - an assigned truck is held in UNLOAD, still loaded.
- `scenarios.dfy`: the assignment policy on the concrete yard of the
  repository's assignment test.

Durations are whole minutes (`int`). Counters are naturals. Statistics are
`real`, except percentages, which are `Units.Figure` values because a zero
horizon makes them infinite or NaN.

## Model

| member | source | states |
|---|---|---|
| MiningTruck.NewTruck | include/MiningTruck.h:30-32 | A new truck has the given id and mining duration. It is MINING, with its full mining duration ahead, and is empty and unassigned. All counters are zero. |
| MiningTruck.NewTruckPerformanceStats | include/MiningTruck.h:48-49 | A new truck statistics record keeps the id, and every figure is zero. |
| UnloadingStation.NewStation | include/UnloadingStation.h:28 | A new station has the given id. It is AVAILABLE with no wait, an empty queue and nothing unloaded. |
| UnloadingStation.NewStationPerformanceStats | include/UnloadingStation.h:43-44 | A new station statistics record keeps the id, and every figure is zero. |
| Units.HoursToMinutes | include/MiningTruckProcessor.h:22 | An hour figure times 60, exactly, for a figure that is a whole number of minutes. |
| Units.Divide | include/Simulation.h:261-263 | A float quotient is finite iff the divisor is not zero, and is then the exact quotient. A zero divisor gives the non-finite result (infinity or NaN). |
| TruckProcessor.UpdateTruckFollowsCycle | include/MiningTruckProcessor.h:53-110 | The per-state switch is one step of the phase cycle, checked against an independent cycle formulation. A truck in UNLOAD that is still loaded is unchanged. Any other truck counts the tick and loses `dt`. When its timer is used up, it moves to the next phase and the remainder is carried into that phase's budget. |
| TruckProcessor.TransitionTable | include/MiningTruckProcessor.h:53-110 | A truck changes phase in a tick iff it is not held and its timer is at most `dt` (both directions). The only transitions are MINING→TRAVEL (now loaded), loaded TRAVEL→UNLOAD, empty TRAVEL→MINING and empty UNLOAD→TRAVEL. A truck that stays in its phase keeps its load flag. |
| TruckProcessor.TimerAndCounters | include/MiningTruckProcessor.h:54-109 | A held truck changes in nothing. Any other truck loses exactly `dt` from its timer. On a transition it also gains the whole budget of the new phase. It counts exactly one tick, in the counter of the phase it started the tick in, including on the transition tick. |
| TruckProcessor.UpdateTruckKeeps | include/MiningTruckProcessor.h:45-115 | A truck tick never changes the id, the mining duration or the assignment flag. |
| TruckProcessor.ArrivesLoadedIsTravelToUnload | include/MiningTruckProcessor.h:72-84 | A truck is recorded as arrived iff it goes from TRAVEL to UNLOAD in this tick. |
| TruckProcessor.LoadedIdsAreArrivals | include/MiningTruckProcessor.h:47-114 | An id is on the loaded list iff some truck with that id arrives loaded in the tick (both directions). |
| TruckProcessor.LoadedIdsAscending | include/MiningTruckProcessor.h:50-80 | When ids are positions, the loaded list is strictly ascending. Every entry is a valid index of a truck that arrives loaded. |
| TruckProcessor.MiningTrucksProcessor.constructor | include/MiningTruckProcessor.h:21-24 | Truck i is `NewTruck(i, miningTimes[i])`, with every mining duration within [min, max] hours. Travel is converted from hours to minutes. Unload is taken as minutes. The loaded list is empty. |
| TruckProcessor.MiningTrucksProcessor.InitMiningTrucks | include/MiningTruckProcessor.h:32-39 | Returns n trucks, where truck i has id i and the i-th mining duration. |
| TruckProcessor.MiningTrucksProcessor.RunTruckCycle | include/MiningTruckProcessor.h:187-201 | Takes `dt` off truck i's timer and changes nothing else. Reports a state change iff the timer is now at or below zero. |
| TruckProcessor.MiningTrucksProcessor.UpdateTruckAt | include/MiningTruckProcessor.h:51-110 | Truck i in the array becomes `UpdateTruck` of its old value, and no other truck changes. Reports an arrival iff the truck arrives loaded. |
| TruckProcessor.MiningTrucksProcessor.UpdateMiningTrucks | include/MiningTruckProcessor.h:45-115 | The array becomes `FleetUpdate` of the old fleet. The loaded list is replaced by `LoadedIds` of the old fleet, whose meaning `LoadedIdsAreArrivals` proves. |
| StationProcessor.UnloadVehicleEffect | include/UnloadingStationProcessor.h:191-223 | An unload succeeds iff the truck is loaded and the unload duration is non-negative. Then the station counts one more unload and its wait drops by one duration. The truck becomes empty and unassigned, and nothing else changes. The result is true iff the old wait was at most one duration. A refused unload changes nothing and returns false. |
| StationProcessor.StationTickEffect | include/UnloadingStationProcessor.h:46-87 | A station is freed iff it goes from OCCUPIED to AVAILABLE, and a freed station has an empty queue. A station is freed iff it is OCCUPIED and either its queue was already empty, or the queue held one truck and unloading it returned true (the wait is used up). For an OCCUPIED station with a queue, the front truck, the wait and the unload count become those of `UnloadVehicle`. An AVAILABLE station touches no truck. With a queue it becomes OCCUPIED with wait `u·|queue|`; without one it is unchanged. An OCCUPIED station with a queue pops exactly its front truck and touches no other truck. |
| StationProcessor.UpdateStations | include/UnloadingStationProcessor.h:44-89 | The station pass, in list order. It keeps the number of stations and of trucks. Its effect on the bookkeeping is proved by `Invariants.UpdateStationsPreserves` and `Invariants.UpdateStationsReleases`. |
| StationProcessor.MinWaitIndexIsFirstMinimum | include/UnloadingStationProcessor.h:165-179 | The running minimum selects a station whose wait is no larger than any other's. Every earlier station has a strictly larger wait, so ties go to the lowest index. |
| StationProcessor.AssignmentEffect | include/UnloadingStationProcessor.h:228-260 | An assignment is accepted iff the truck is loaded, not yet assigned, and the unload duration is non-negative. Then the truck's id joins the back of the queue and the wait grows by one duration. The truck is marked assigned. The pool is popped iff its front is this station. The state and count are unchanged. A refused assignment changes nothing. |
| StationProcessor.AssignOne | include/UnloadingStationProcessor.h:101-104 | Placing one truck keeps the number of stations and trucks, the ids of the stations, and the pool within range. |
| StationProcessor.AssignAll | include/UnloadingStationProcessor.h:96-106 | Placing all loaded trucks keeps the number of stations and trucks, the ids of the stations, and the pool within range. |
| StationProcessor.UnloadingStationProcessor.constructor | include/UnloadingStationProcessor.h:23-24 | Station k is `NewStation(k)`, and the pool is empty. |
| StationProcessor.UnloadingStationProcessor.InitUnloadingStations | include/UnloadingStationProcessor.h:30-37 | Returns n stations, where station k is `NewStation(k)`. |
| StationProcessor.UnloadingStationProcessor.SetAvailableLoadingStations | include/UnloadingStationProcessor.h:125-127 | The pool becomes the given queue. |
| StationProcessor.UnloadingStationProcessor.UnloadVehicleAtStation | include/UnloadingStationProcessor.h:191-223 | Truck v and station k become the result of `UnloadVehicle`, nothing else changes, and the flag is its `stateChange`. |
| StationProcessor.UnloadingStationProcessor.UpdateStation | include/UnloadingStationProcessor.h:47-87 | Station i and the trucks become the result of `StationTick`. The station's id is appended to the pool iff the station is freed. |
| StationProcessor.UnloadingStationProcessor.UpdateUnloadingStations | include/UnloadingStationProcessor.h:44-89 | Stations, trucks and pool become `UpdateStations` of their old values. |
| StationProcessor.UnloadingStationProcessor.GetShortestWaitStationIdx | include/UnloadingStationProcessor.h:153-186 | If the pool is not empty, returns its front without popping it. Otherwise returns a valid index whose wait is no larger than any station's, with every earlier station waiting strictly longer. Returns -1 when there are no stations. |
| StationProcessor.UnloadingStationProcessor.AssignVehicle | include/UnloadingStationProcessor.h:228-260 | Truck i, station k and the pool become the result of `Assignment`, and nothing else changes. |
| StationProcessor.UnloadingStationProcessor.AssignVehiclesToStations | include/UnloadingStationProcessor.h:96-106 | Stations, trucks and pool become `AssignAll` of their old values. |
| Simulation.StationPhase | include/Simulation.h:38 | The station pass keeps ids equal to positions, and keeps queued truck ids and pooled station ids in range. |
| Simulation.Tick | include/Simulation.h:37-40 | A tick (stations, then trucks, then assignment of this tick's arrivals) keeps the indexing facts and the number of trucks and stations. |
| Simulation.RunTicks | include/Simulation.h:36-44 | Any number of ticks keeps the indexing facts and the number of trucks and stations. |
| Simulation.TickCountIsExact | include/Simulation.h:36-43 | `TickCount` is the one count n whose end `now + n·dt` is past the horizon while every tick start is at or before it (both directions). |
| Simulation.RunEnds | include/Simulation.h:36-44 | A loop that stops at the first start past the horizon has run exactly `TickCount` ticks. |
| Simulation.ComputeTruckPerformance | include/Simulation.h:259-268 | The truck statistics keep the truck's id, and the total of unloads is the unload counter. Each of the four percentages is finite iff the horizon is not zero; a zero horizon makes all four infinite or NaN. With a non-zero horizon the four sum to exactly 100. |
| Simulation.TruckHoursMatchPercent | include/Simulation.h:261-265 | For any horizon, the mining hours are the mining ticks' time in hours (`hours·60 = mining ticks·dt`). With a non-zero horizon, the mining percentage measures the same time: `hours·6000 = percent·horizon = mining ticks·dt·100`. |
| Simulation.TruckPercentagesAsShares | include/Simulation.h:261-264 | With a positive horizon h, the mining and travel percentages are the finite values (ticks·dt)/h·100, the unloading percentage is (unloads·unload duration)/h·100, and idle is 100 minus the three. |
| Simulation.TruckPercentagesBounded | include/Simulation.h:261-264 | When the time the counters account for fits in the horizon, every percentage, idle included, is between 0 and 100. |
| Simulation.ComputeStationPerformance | include/Simulation.h:273-281 | The station statistics keep the id, and the total of unloads is the station's count. For any horizon, the unloading hours are the count times the unload duration in hours, and the unloading and idle hours sum to the horizon in hours. Both percentages are finite iff the horizon is not zero. With a non-zero horizon they sum to 100, and the unloading percentage and hours measure the same time. |
| Simulation.TruckStats | include/Simulation.h:54-57 | One record per truck, in list order, with matching ids. |
| Simulation.StationStats | include/Simulation.h:60-63 | One record per station, in list order, with matching ids. |
| Simulation.Simulation.constructor | include/Simulation.h:25-30 | The horizon is converted from hours to minutes and the time step is taken as given. The clock starts at 0. Both registries are built as their own constructors say, and both use the same unload duration. |
| Simulation.Simulation.Step | include/Simulation.h:37-40 | One pass of the loop body turns the whole state into `Tick` of the old state. |
| Simulation.Simulation.Run | include/Simulation.h:35-45 | The state becomes `RunTicks` of the old state for exactly `TickCount(start, horizon, dt)` ticks. The clock ends at start plus that many steps, and past the horizon. |
| Simulation.Simulation.ComputePerformanceStats | include/Simulation.h:50-64 | Appends `TruckStats` of the fleet and `StationStats` of the stations to the stored statistics. |
| Simulation.Simulation.GetMiningTruckPerformances | include/Simulation.h:76-81 | Computes the statistics only when no truck statistics are stored yet, and returns the stored truck statistics. |
| Simulation.Simulation.GetUnloadingStationPerformances | include/Simulation.h:93-98 | Computes the statistics only when no station statistics are stored yet, and returns the stored station statistics. |
| TruckCycle.StaysInPhase | include/MiningTruckProcessor.h:54-109 | While its timer stays positive, a truck that is not held only counts ticks in its phase and loses `dt` per tick. |
| TruckCycle.FrozenStaysFrozen | include/MiningTruckProcessor.h:94-109 | A truck in UNLOAD that is still loaded is unchanged by any number of ticks. |
| TruckCycle.PhaseHolds | include/MiningTruckProcessor.h:54-109 | A truck stays in its phase for every tick before the one that uses up its timer. |
| TruckCycle.PhaseEnds | include/MiningTruckProcessor.h:54-109 | The tick that uses up the timer moves the truck to the next phase, with the remainder carried over and all ticks counted. |
| TruckCycle.PhaseLength | include/MiningTruckProcessor.h:54-109 | A phase entered with timer τ > 0 lasts exactly ⌈τ/dt⌉ ticks. The phase is unchanged before that tick. At that tick the next phase starts with the remainder plus its budget, and exactly that many ticks are counted. |
| TruckCycle.PhaseOfWholeTicks | include/MiningTruckProcessor.h:54-109 | A timer of n whole ticks plus a remainder in (−dt, 0] lasts n ticks and hands the same remainder on. |
| TruckCycle.HaulCycle | include/MiningTruckProcessor.h:53-110 | A fresh truck mines for ⌈m/dt⌉ ticks, travels loaded for a ticks, and is held in UNLOAD for any wait. Once it is unloaded, it spends b ticks in UNLOAD and a ticks travelling empty, and is back in MINING. Its counters are then ⌈m/dt⌉, 2a and b. |
| Invariants.StationTickPreserves | include/UnloadingStationProcessor.h:46-87 | One station's tick keeps the bookkeeping. A serving station really unloads its front truck, releases it, and counts one more unload. |
| Invariants.ServingTickPreserves | include/UnloadingStationProcessor.h:62-86 | A serving station's front truck is loaded and assigned, so its unload is never refused. The bookkeeping holds afterwards. |
| Invariants.UpdateStationsPreserves | include/UnloadingStationProcessor.h:44-89 | The whole station pass keeps the bookkeeping. |
| Invariants.UpdateStationsReleases | include/UnloadingStationProcessor.h:62-73 | The station pass changes exactly the trucks at the front of a serving station's queue, and releases each of them. |
| Invariants.FleetUpdatePreserves | include/MiningTruckProcessor.h:94-109 | The truck pass keeps the bookkeeping: an assigned truck is held and does not move. |
| Invariants.ShortestWaitStationInRange | include/UnloadingStationProcessor.h:153-186 | The policy's choice is a valid station index whenever there is a station. |
| Invariants.EnqueuePreserves | include/UnloadingStationProcessor.h:248-259 | Queueing an unassigned held truck, adding one duration of wait and marking it assigned keeps the bookkeeping. |
| Invariants.AssignmentPreserves | include/UnloadingStationProcessor.h:228-260 | Any assignment of a truck in UNLOAD, whether accepted or refused, keeps the bookkeeping. |
| Invariants.AssignAllFlagsOnly | include/UnloadingStationProcessor.h:96-106 | The assignment pass changes only the assignment flag, and only of the trucks on the loaded list. |
| Invariants.AssignAllPreserves | include/UnloadingStationProcessor.h:96-106 | The assignment pass keeps the bookkeeping when every truck it places is in UNLOAD. |
| Invariants.TickPreserves | include/Simulation.h:37-40 | A tick keeps the indexing facts and the bookkeeping. |
| Invariants.RunTicksPreserves | include/Simulation.h:36-44 | Any number of ticks keeps them. |
| Invariants.InitialInvariant | include/Simulation.h:25-30 | The state the constructors build satisfies the invariant for any non-negative unload duration and at least one station. |
| Invariants.RunKeepsInvariant | include/Simulation.h:25-45 | The invariant holds after any run of the simulation from its initial state. |
| Invariants.RecomputeIsNoop | include/UnloadingStationProcessor.h:51-60 | When an AVAILABLE station starts serving, the wait it recomputes equals the wait it already had, so only its state changes. |
| Invariants.FreedExactlyWhenQueueRunsOut | include/UnloadingStationProcessor.h:62-86 | For any non-negative unload duration, a station is freed in a tick iff it is serving and has at most one truck queued. An available station is never freed. |
| Invariants.TickTruck | include/Simulation.h:37-40 | After a tick, a truck is the truck pass applied to the truck as the stations left it. Only the assignment flag can differ, and only for a truck that arrived loaded. |
| Invariants.SameTickUnload | include/Simulation.h:38-39 | The front truck of a serving station is loaded, in UNLOAD, and is released by the station pass. In the same tick's truck pass it counts an unload tick and loses `dt` from its unload timer; if that uses the timer up, the travel budget is added. It ends the tick empty and unassigned. |
| Invariants.TickCountsOne | include/Simulation.h:37-40 | One tick adds zero or one counted tick to a truck. |
| Invariants.RunCountsOne | include/Simulation.h:36-44 | After n ticks, any truck has counted at most n more ticks. |
| Scenarios.PlacedInOrder | test/test_UnloadingStations_AssignVehicles.cpp:25-68 | On the test's yard, placing the first n loaded trucks goes through the yards `Placed(0..5)`. |
| Scenarios.AssignScenario | test/test_UnloadingStations_AssignVehicles.cpp:25-105 | On the test's yard, trucks 0 and 2 go to station 0, trucks 1 and 3 to station 3, and truck 4 to station 4. Stations 1 and 2 get nothing. Trucks 0 to 4 are assigned, the empty truck 5 is not, and the pool ends empty. |

## Left out

- Random mining durations (`generateMiningTime`, include/MiningTruckProcessor.h:176-182): the constructors take the drawn durations as a parameter `miningTimes`, one per truck, each within [min, max] hours.
- Floating point: durations are whole minutes (`int`), counters are naturals and statistics are exact `real`s. A percentage is a `Units.Figure`: either a finite value or the non-finite result of a division by zero, which covers both infinity and NaN. An hour figure is accepted only when it is a whole number of minutes (`Units.IsWholeMinutes`). Float rounding is not modelled.
- Simulation.ComputeTruckPerformance, Simulation.ComputeStationPerformance: with a zero horizon, every non-finite percentage is one value, `NonFinite`. The model does not say which of +∞, −∞ or NaN the source's float division gives.
- Logging (`spdlog`), console printing, CSV output and timestamps are output only and are not modelled. This covers include/MiningTruckProcessor.h:120-124 and include/Simulation.h:103-218 and 286-320.
- `src/main.cpp` (argument parsing) and the Python plotting scripts are not part of this model.
- `getMiningTrucks`, `getUnloadingStations`, `getLoadedTrucks`, `getNumUnloadingStations` and `getUnloadDuration` only return copies of fields. The model reads those fields directly.
- The -1 that `getShortestWaitStationIdx` returns when there is no station is modelled (`ShortestWaitStation`, `GetShortestWaitStationIdx`). The source would then index the station list at -1. The model instead requires at least one station wherever the assignment pass runs (`AssignVehiclesToStations`, `Simulation.WellFormed`), so that undefined access is not modelled.
- The source indexes its truck and station lists by queued and pooled ids without checking them. The model states the indexing facts it relies on as `Simulation.WellFormed` and proves that every tick keeps them.
- The `timestep` argument of `updateUnloadingStations` is unused in the source, and is unused in the model.
- Simulation.Simulation.constructor: the source's parameter `unload_duration_hrs` is passed through unconverted to both registries, which treat it as minutes (include/Simulation.h:26-30). The model takes it as minutes, as the code does.
- Simulation.Simulation.Run: the loop's guard is `elapsed <= horizon`, so a run performs ⌊(horizon − start)/dt⌋ + 1 ticks, one more than ⌈horizon/dt⌉ when dt divides the horizon. The model follows the code (`TickCount`). For a time step of zero or less the source's loop never ends, and the program does not check the time step. The model requires a positive time step, so that non-terminating run is not modelled.
- Simulation.TruckPercentagesBounded: the unload percentage multiplies the number of UNLOAD ticks by the unload duration rather than by `dt`. The mining and travel counters also count the tick in which the phase ends. So for short horizons or long unload durations the percentages can exceed 100 and the idle percentage can be negative. The bound is therefore proved only under the stated budget condition. `RunCountsOne` bounds the counted ticks by the number of ticks run, which can be one more than the horizon holds.
- TruckCycle.HaulCycle: stated for travel and unload durations that are whole multiples of `dt`. `PhaseLength` covers any durations one phase at a time.
- Concurrency: none in the source.
