// The truck registry: the per-tick truck state machine and the list of trucks
// that arrive loaded at the unloading area in a tick.
//
// The pure functions give the meaning of one tick for one truck (UpdateTruck)
// and for the whole fleet (FleetUpdate, LoadedIds); the class
// MiningTrucksProcessor performs the same tick in place on its truck array and
// is proved to agree with them.

module TruckProcessor {
  import opened MiningTruck
  import opened Units

  // ---------------------------------------------------------------------------
  // One truck, one tick
  // ---------------------------------------------------------------------------

  /** An unloading truck that is still loaded waits for its station: the tick
      leaves it alone. */
  predicate IsFrozen(t: Truck)
  {
    t.state == Unload && t.isLoaded
  }

  /** The tick of `updateMiningTrucks` for one truck, case by case as the
      source's switch: count the tick in the current phase, take `dt` off the
      timer and, once the timer is at or below zero, move to the next phase and
      ADD that phase's duration to the (possibly negative) remainder. */
  function UpdateTruck(t: Truck, dt: int, travel: int, unload: int): Truck
  {
    var rest := t.timeUntilNextState - dt;
    match t.state
    case Mining =>
      var u := t.(timeUntilNextState := rest, numMiningCycles := t.numMiningCycles + 1);
      if rest <= 0 then u.(state := Travel, isLoaded := true, timeUntilNextState := rest + travel)
      else u
    case Travel =>
      var u := t.(timeUntilNextState := rest, numTravelCycles := t.numTravelCycles + 1);
      if rest > 0 then u
      else if t.isLoaded then u.(state := Unload, timeUntilNextState := rest + unload)
      else u.(state := Mining, timeUntilNextState := rest + t.miningCycleDuration)
    case Unload =>
      if t.isLoaded then t
      else
        var u := t.(timeUntilNextState := rest, numUnloads := t.numUnloads + 1);
        if rest <= 0 then u.(state := Travel, timeUntilNextState := rest + travel) else u
  }

  // A reference formulation of the same tick as a cycle of phases, each with a
  // time budget: MINING -> TRAVEL -> UNLOAD -> TRAVEL -> MINING -> ...

  /** The phase that follows `s` when its timer runs out. */
  function NextPhase(s: TruckState, loaded: bool): TruckState
  {
    match s
    case Mining => Travel
    case Travel => if loaded then Unload else Mining
    case Unload => Travel
  }

  /** The time budget of phase `s` for truck `t`. */
  function PhaseBudget(s: TruckState, t: Truck, travel: int, unload: int): int
  {
    match s
    case Mining => t.miningCycleDuration
    case Travel => travel
    case Unload => unload
  }

  /** `t` with one more tick counted in its current phase. */
  function CountTick(t: Truck): Truck
  {
    match t.state
    case Mining => t.(numMiningCycles := t.numMiningCycles + 1)
    case Travel => t.(numTravelCycles := t.numTravelCycles + 1)
    case Unload => t.(numUnloads := t.numUnloads + 1)
  }

  /** One tick of a truck that is not frozen, in cycle terms. */
  function Advance(t: Truck, dt: int, travel: int, unload: int): Truck
  {
    var rest := t.timeUntilNextState - dt;
    var c := CountTick(t).(timeUntilNextState := rest);
    if rest > 0 then c
    else
      var next := NextPhase(t.state, t.isLoaded);
      c.(state := next, isLoaded := t.state == Mining || t.isLoaded,
         timeUntilNextState := rest + PhaseBudget(next, t, travel, unload))
  }

  /** The source's switch is the cycle: a frozen truck is unchanged, any other
      truck advances by one tick, carrying the remainder into the next phase. */
  lemma UpdateTruckFollowsCycle(t: Truck, dt: int, travel: int, unload: int)
    ensures UpdateTruck(t, dt, travel, unload) == if IsFrozen(t) then t else Advance(t, dt, travel, unload)
  {
  }

  /** The transition table, with both directions: a truck changes phase in a
      tick exactly when it is not frozen and at most one tick remains, and then
      MINING -> TRAVEL (now loaded), loaded TRAVEL -> UNLOAD, empty TRAVEL ->
      MINING, empty UNLOAD -> TRAVEL; no other change of phase exists. */
  lemma TransitionTable(t: Truck, dt: int, travel: int, unload: int)
    ensures var r := UpdateTruck(t, dt, travel, unload);
      && (r.state != t.state <==> !IsFrozen(t) && t.timeUntilNextState <= dt)
      && (r.state != t.state ==>
            match t.state
            case Mining => r.state == Travel && r.isLoaded
            case Travel => r.state == (if t.isLoaded then Unload else Mining) && r.isLoaded == t.isLoaded
            case Unload => !t.isLoaded && r.state == Travel && !r.isLoaded)
      && (r.state == t.state ==> r.isLoaded == t.isLoaded)
  {
  }

  /** Timer and counters: a non-frozen truck loses exactly `dt`, gains the next
      phase's whole budget when it changes phase, and counts exactly one tick in
      the phase it started the tick in; a frozen truck changes in nothing. */
  lemma TimerAndCounters(t: Truck, dt: int, travel: int, unload: int)
    ensures var r := UpdateTruck(t, dt, travel, unload);
      && (IsFrozen(t) ==> r == t)
      && (!IsFrozen(t) ==>
            && r.timeUntilNextState == t.timeUntilNextState - dt
                 + (if t.timeUntilNextState <= dt then PhaseBudget(r.state, t, travel, unload) else 0)
            && r.numMiningCycles == t.numMiningCycles + (if t.state == Mining then 1 else 0)
            && r.numTravelCycles == t.numTravelCycles + (if t.state == Travel then 1 else 0)
            && r.numUnloads == t.numUnloads + (if t.state == Unload then 1 else 0))
  {
  }

  /** A tick never touches the identity, the mining duration or the station
      assignment of a truck. */
  lemma UpdateTruckKeeps(t: Truck, dt: int, travel: int, unload: int)
    ensures var r := UpdateTruck(t, dt, travel, unload);
      r.id == t.id && r.miningCycleDuration == t.miningCycleDuration
      && r.isAssignedStation == t.isAssignedStation
  {
  }

  // ---------------------------------------------------------------------------
  // The fleet, one tick
  // ---------------------------------------------------------------------------

  /** Every truck ticks independently. */
  function FleetUpdate(ts: seq<Truck>, dt: int, travel: int, unload: int): seq<Truck>
  {
    seq(|ts|, i requires 0 <= i < |ts| => UpdateTruck(ts[i], dt, travel, unload))
  }

  /** A truck that ends a loaded TRAVEL in this tick. */
  predicate ArrivesLoaded(t: Truck, dt: int)
  {
    t.state == Travel && t.isLoaded && t.timeUntilNextState <= dt
  }

  /** Arriving loaded is the same as going from TRAVEL to UNLOAD in the tick. */
  lemma ArrivesLoadedIsTravelToUnload(t: Truck, dt: int, travel: int, unload: int)
    ensures ArrivesLoaded(t, dt) <==> t.state == Travel && UpdateTruck(t, dt, travel, unload).state == Unload
  {
  }

  /** The ids pushed onto `loadedTrucksIds` while the trucks of `ts` are ticked
      in list order. */
  function LoadedIds(ts: seq<Truck>, dt: int): seq<int>
    decreases |ts|
  {
    if ts == [] then []
    else
      var last := ts[|ts| - 1];
      LoadedIds(ts[..|ts| - 1], dt) + (if ArrivesLoaded(last, dt) then [last.id] else [])
  }

  /** Truck `i` of a list sits at index `i`. */
  ghost predicate IdsAreIndices(ts: seq<Truck>)
  {
    forall i :: 0 <= i < |ts| ==> ts[i].id == i
  }

  /** The loaded list names exactly the trucks that arrive loaded, each once. */
  lemma {:induction false} LoadedIdsAreArrivals(ts: seq<Truck>, dt: int, x: int)
    ensures x in LoadedIds(ts, dt) <==> exists i :: 0 <= i < |ts| && ts[i].id == x && ArrivesLoaded(ts[i], dt)
    decreases |ts|
  {
    if ts != [] {
      var init := ts[..|ts| - 1];
      LoadedIdsAreArrivals(init, dt, x);
      if x in LoadedIds(init, dt) {
        var i :| 0 <= i < |init| && init[i].id == x && ArrivesLoaded(init[i], dt);
        assert ts[i] == init[i];
      }
      if exists i :: 0 <= i < |ts| && ts[i].id == x && ArrivesLoaded(ts[i], dt) {
        var i :| 0 <= i < |ts| && ts[i].id == x && ArrivesLoaded(ts[i], dt);
        if i < |init| {
          assert init[i] == ts[i];
        }
      }
    }
  }

  /** When truck ids are their indices, the loaded list is strictly ascending
      and names valid indices only. */
  lemma {:induction false} LoadedIdsAscending(ts: seq<Truck>, dt: int)
    requires IdsAreIndices(ts)
    ensures forall j :: 0 <= j < |LoadedIds(ts, dt)| ==>
      0 <= LoadedIds(ts, dt)[j] < |ts| && ArrivesLoaded(ts[LoadedIds(ts, dt)[j]], dt)
    ensures forall j, k :: 0 <= j < k < |LoadedIds(ts, dt)| ==> LoadedIds(ts, dt)[j] < LoadedIds(ts, dt)[k]
    decreases |ts|
  {
    if ts != [] {
      var init := ts[..|ts| - 1];
      assert IdsAreIndices(init) by {
        forall i | 0 <= i < |init| ensures init[i].id == i {
          assert init[i] == ts[i];
        }
      }
      LoadedIdsAscending(init, dt);
      var l0 := LoadedIds(init, dt);
      assert forall j :: 0 <= j < |l0| ==> 0 <= l0[j] < |init|;
      if ArrivesLoaded(ts[|ts| - 1], dt) {
        assert LoadedIds(ts, dt) == l0 + [|ts| - 1];
      } else {
        assert LoadedIds(ts, dt) == l0;
      }
    }
  }

  // ---------------------------------------------------------------------------
  // The processor object
  // ---------------------------------------------------------------------------

  /** The truck registry: owns the trucks (a fixed-size array, mutated in place
      by its own tick and by the station registry) and the loaded list of the
      latest tick. */
  class MiningTrucksProcessor {
    const numMiningTrucks: nat
    /** minutes */
    const travelDuration: int
    /** minutes */
    const unloadDuration: int
    const fleet: array<Truck>
    var loadedTrucks: seq<int>

    ghost predicate Valid()
      reads this, fleet
    {
      fleet.Length == numMiningTrucks && IdsAreIndices(fleet[..])
    }

    /** Builds the trucks with the given mining durations (one draw per truck,
        each drawn from [minHrs, maxHrs] hours); travel is given in hours,
        unload in minutes. */
    constructor (numMiningTrucks: nat, minHrs: real, maxHrs: real, miningTimes: seq<int>,
                 travelHrs: real, unloadMin: int)
      requires |miningTimes| == numMiningTrucks
      requires forall d :: d in miningTimes ==> minHrs * 60.0 <= d as real <= maxHrs * 60.0
      requires IsWholeMinutes(travelHrs)
      ensures Valid() && fresh(fleet)
      ensures this.numMiningTrucks == numMiningTrucks
      ensures travelDuration as real == travelHrs * 60.0 && unloadDuration == unloadMin
      ensures forall i :: 0 <= i < numMiningTrucks ==> fleet[i] == NewTruck(i, miningTimes[i])
      ensures forall i :: 0 <= i < numMiningTrucks ==>
        minHrs * 60.0 <= fleet[i].miningCycleDuration as real <= maxHrs * 60.0
      ensures loadedTrucks == []
    {
      var trucks := InitMiningTrucks(numMiningTrucks, miningTimes);
      this.numMiningTrucks := numMiningTrucks;
      travelDuration := HoursToMinutes(travelHrs);
      unloadDuration := unloadMin;
      fleet := new Truck[numMiningTrucks](i requires 0 <= i < numMiningTrucks => trucks[i]);
      loadedTrucks := [];
      new;
      forall i | 0 <= i < numMiningTrucks
        ensures minHrs * 60.0 <= fleet[i].miningCycleDuration as real <= maxHrs * 60.0
      {
        assert miningTimes[i] in miningTimes;
      }
    }

    /** `initMiningTrucks`: truck i gets id i and the i-th mining duration. */
    static method InitMiningTrucks(n: nat, miningTimes: seq<int>) returns (trucks: seq<Truck>)
      requires |miningTimes| == n
      ensures |trucks| == n
      ensures forall i :: 0 <= i < n ==> trucks[i] == NewTruck(i, miningTimes[i])
    {
      trucks := [];
      for i := 0 to n
        invariant |trucks| == i
        invariant forall j :: 0 <= j < i ==> trucks[j] == NewTruck(j, miningTimes[j])
      {
        trucks := trucks + [NewTruck(i, miningTimes[i])];
      }
    }

    /** `runTruckCycle`: take one tick off truck i's timer and report whether
        its phase is over. */
    method RunTruckCycle(i: int, dt: int) returns (stateChange: bool)
      requires 0 <= i < fleet.Length
      modifies fleet
      ensures fleet[..] == old(fleet[..])[i := old(fleet[i]).(timeUntilNextState := old(fleet[i]).timeUntilNextState - dt)]
      ensures stateChange <==> old(fleet[i]).timeUntilNextState <= dt
    {
      fleet[i] := fleet[i].(timeUntilNextState := fleet[i].timeUntilNextState - dt);
      stateChange := fleet[i].timeUntilNextState <= 0;
    }

    /** The body of `updateMiningTrucks` for truck `i`: tick it in place and
        report whether it arrived loaded, so that the caller records it. */
    method UpdateTruckAt(i: int, dt: int) returns (arrived: bool)
      requires 0 <= i < fleet.Length
      modifies fleet
      ensures fleet[..] == old(fleet[..])[i := UpdateTruck(old(fleet[i]), dt, travelDuration, unloadDuration)]
      ensures arrived <==> ArrivesLoaded(old(fleet[i]), dt)
    {
      arrived := false;
      var stateChange: bool;
      match fleet[i].state {
        case Mining =>
          stateChange := RunTruckCycle(i, dt);
          fleet[i] := fleet[i].(numMiningCycles := fleet[i].numMiningCycles + 1);
          if stateChange {
            fleet[i] := fleet[i].(state := Travel, isLoaded := true,
                                  timeUntilNextState := fleet[i].timeUntilNextState + travelDuration);
          }
        case Travel =>
          stateChange := RunTruckCycle(i, dt);
          fleet[i] := fleet[i].(numTravelCycles := fleet[i].numTravelCycles + 1);
          if stateChange {
            if fleet[i].isLoaded {
              fleet[i] := fleet[i].(state := Unload);
              arrived := true;
              fleet[i] := fleet[i].(timeUntilNextState := fleet[i].timeUntilNextState + unloadDuration);
            } else {
              fleet[i] := fleet[i].(state := Mining,
                                    timeUntilNextState := fleet[i].timeUntilNextState + fleet[i].miningCycleDuration);
            }
          }
        case Unload =>
          if !fleet[i].isLoaded {
            stateChange := RunTruckCycle(i, dt);
            fleet[i] := fleet[i].(numUnloads := fleet[i].numUnloads + 1);
            if stateChange {
              fleet[i] := fleet[i].(state := Travel,
                                    timeUntilNextState := fleet[i].timeUntilNextState + travelDuration);
            }
          }
      }
    }

    /** `updateMiningTrucks`: tick every truck in list order, in place, and
        replace the loaded list with the trucks that arrived loaded. */
    method UpdateMiningTrucks(dt: int)
      modifies fleet, this`loadedTrucks
      ensures fleet[..] == FleetUpdate(old(fleet[..]), dt, travelDuration, unloadDuration)
      ensures loadedTrucks == LoadedIds(old(fleet[..]), dt)
    {
      var loadedTrucksIds: seq<int> := [];
      for i := 0 to fleet.Length
        invariant forall j :: 0 <= j < i ==> fleet[j] == UpdateTruck(old(fleet[j]), dt, travelDuration, unloadDuration)
        invariant forall j :: i <= j < fleet.Length ==> fleet[j] == old(fleet[j])
        invariant loadedTrucksIds == LoadedIds(old(fleet[..])[..i], dt)
      {
        assert old(fleet[..])[..i + 1][..i] == old(fleet[..])[..i];
        var arrived := UpdateTruckAt(i, dt);
        if arrived {
          loadedTrucksIds := loadedTrucksIds + [fleet[i].id];
        }
      }
      loadedTrucks := loadedTrucksIds;
      assert old(fleet[..])[..fleet.Length] == old(fleet[..]);
    }
  }
}
