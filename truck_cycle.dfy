// How long a truck stays in each phase when the truck registry ticks it
// repeatedly, and the haul cycle of one fresh truck: MINING for ceil(m/dt)
// ticks, TRAVEL out, UNLOAD (held as long as the truck is still loaded),
// TRAVEL back, MINING again.

module TruckCycle {
  import opened MiningTruck
  import opened TruckProcessor

  /** `n` consecutive ticks of one truck. */
  function Steps(t: Truck, dt: int, travel: int, unload: int, n: nat): Truck
  {
    if n == 0 then t else UpdateTruck(Steps(t, dt, travel, unload, n - 1), dt, travel, unload)
  }

  /** The number of ticks of length `dt` needed to use up `tau`. */
  function CeilDiv(tau: int, dt: int): int
    requires dt > 0
  {
    (tau + dt - 1) / dt
  }

  /** `CeilDiv(tau, dt)` is the one `k` with `(k-1)*dt < tau <= k*dt`. */
  lemma CeilDivIsCeiling(tau: int, dt: int, k: int)
    requires dt > 0
    ensures k == CeilDiv(tau, dt) <==> (k - 1) * dt < tau <= k * dt
  {
    var c := CeilDiv(tau, dt);
    var r := (tau + dt - 1) % dt;
    assert tau + dt - 1 == c * dt + r && 0 <= r < dt;
    assert (c - 1) * dt == c * dt - dt;
    if (k - 1) * dt < tau <= k * dt {
      assert (k - 1) * dt == k * dt - dt;
      if k < c {
        LessTimes(k, c - 1, dt);
      } else if k > c {
        LessTimes(c, k - 1, dt);
      }
    }
  }

  lemma LessTimes(a: int, b: int, d: int)
    requires d > 0 && a <= b
    ensures a * d <= b * d
  {
  }

  /** `t` with `j` more ticks counted in its current phase. */
  function Counted(t: Truck, j: nat): Truck
  {
    match t.state
    case Mining => t.(numMiningCycles := t.numMiningCycles + j)
    case Travel => t.(numTravelCycles := t.numTravelCycles + j)
    case Unload => t.(numUnloads := t.numUnloads + j)
  }

  /** While the timer stays above zero a truck that is not held only counts
      ticks in its phase and loses `dt` per tick. */
  lemma {:induction false} StaysInPhase(t: Truck, dt: int, travel: int, unload: int, j: nat)
    requires !IsFrozen(t) && j * dt < t.timeUntilNextState
    requires dt >= 0
    ensures Steps(t, dt, travel, unload, j) == Counted(t, j).(timeUntilNextState := t.timeUntilNextState - j * dt)
  {
    if j > 0 {
      assert (j - 1) * dt == j * dt - dt;
      StaysInPhase(t, dt, travel, unload, j - 1);
    }
  }

  /** A held truck (UNLOAD and still loaded) is unchanged by any number of
      ticks. */
  lemma {:induction false} FrozenStaysFrozen(t: Truck, dt: int, travel: int, unload: int, n: nat)
    requires IsFrozen(t)
    ensures Steps(t, dt, travel, unload, n) == t
  {
    if n > 0 {
      FrozenStaysFrozen(t, dt, travel, unload, n - 1);
    }
  }

  /** A phase entered with timer `tau > 0` lasts exactly `CeilDiv(tau, dt)`
      ticks: the truck is in the same phase before that, and after it the
      truck is in the next phase with that phase's budget added to the
      remainder and exactly that many ticks counted. */
  lemma PhaseLength(t: Truck, dt: int, travel: int, unload: int)
    requires dt > 0 && !IsFrozen(t) && t.timeUntilNextState > 0
    ensures var k := CeilDiv(t.timeUntilNextState, dt);
      && k >= 1
      && (forall j: nat :: j < k ==> Steps(t, dt, travel, unload, j).state == t.state)
      && var r := Steps(t, dt, travel, unload, k);
      var next := NextPhase(t.state, t.isLoaded);
      r == Counted(t, k).(state := next, isLoaded := t.state == Mining || t.isLoaded,
                          timeUntilNextState := t.timeUntilNextState - k * dt + PhaseBudget(next, t, travel, unload))
  {
    var k := CeilDiv(t.timeUntilNextState, dt);
    CeilDivIsCeiling(t.timeUntilNextState, dt, k);
    if k < 1 {
      LessTimes(k, 0, dt);
    }
    PhaseHolds(t, dt, travel, unload, k);
    PhaseEnds(t, dt, travel, unload, k);
  }

  /** Before `k` ticks with `(k-1)*dt < tau` the truck is in the same phase. */
  lemma PhaseHolds(t: Truck, dt: int, travel: int, unload: int, k: int)
    requires dt > 0 && !IsFrozen(t) && (k - 1) * dt < t.timeUntilNextState
    ensures forall j: nat :: j < k ==> Steps(t, dt, travel, unload, j).state == t.state
  {
    forall j: nat | j < k
      ensures Steps(t, dt, travel, unload, j).state == t.state
    {
      LessTimes(j, k - 1, dt);
      StaysInPhase(t, dt, travel, unload, j);
    }
  }

  /** Tick `k`, the first with `tau <= k*dt`, moves the truck to its next
      phase. */
  lemma PhaseEnds(t: Truck, dt: int, travel: int, unload: int, k: int)
    requires dt > 0 && k >= 1 && !IsFrozen(t) && (k - 1) * dt < t.timeUntilNextState <= k * dt
    ensures var next := NextPhase(t.state, t.isLoaded);
      Steps(t, dt, travel, unload, k)
        == Counted(t, k).(state := next, isLoaded := t.state == Mining || t.isLoaded,
                          timeUntilNextState := t.timeUntilNextState - k * dt + PhaseBudget(next, t, travel, unload))
  {
    StaysInPhase(t, dt, travel, unload, k - 1);
    assert (k - 1) * dt == k * dt - dt;
  }

  /** One haul cycle of a fresh truck with mining time `m`, when travel and
      unload take `a` and `b` whole ticks: MINING for CeilDiv(m, dt) ticks,
      then TRAVEL loaded for `a` ticks, then UNLOAD held for any number of
      ticks while loaded; once its station clears `isLoaded`, UNLOAD for `b`
      ticks, then TRAVEL empty for `a` ticks, back in MINING. The counters are
      then CeilDiv(m, dt) mining ticks, `2a` travel ticks and `b` unload
      ticks. */
  lemma HaulCycle(id: int, m: int, dt: int, a: int, b: int, wait: nat)
    requires dt > 0 && m > 0 && a >= 1 && b >= 1
    ensures var km := CeilDiv(m, dt);
      var t1 := Steps(NewTruck(id, m), dt, a * dt, b * dt, km);
      var t2 := Steps(t1, dt, a * dt, b * dt, a);
      var t3 := Steps(t2, dt, a * dt, b * dt, wait);
      var t4 := Steps(t3.(isLoaded := false), dt, a * dt, b * dt, b);
      var t5 := Steps(t4, dt, a * dt, b * dt, a);
      && t1.state == Travel && t1.isLoaded
      && t2.state == Unload && t2.isLoaded && t2.numTravelCycles == a && t2.numUnloads == 0
      && t3 == t2
      && t4.state == Travel && !t4.isLoaded
      && t5.state == Mining && !t5.isLoaded
      && t5.numMiningCycles == km && t5.numTravelCycles == 2 * a && t5.numUnloads == b
  {
    var travel, unload := a * dt, b * dt;
    var t0 := NewTruck(id, m);
    var km := CeilDiv(m, dt);
    PhaseLength(t0, dt, travel, unload);
    var t1 := Steps(t0, dt, travel, unload, km);
    // the remainder left by the mining phase, carried through the cycle
    var rest := m - km * dt;
    CeilDivIsCeiling(m, dt, km);
    assert (km - 1) * dt == km * dt - dt;
    assert -dt < rest <= 0;
    assert t1.timeUntilNextState == rest + a * dt;

    PhaseOfWholeTicks(t1, dt, travel, unload, rest, a);
    var t2 := Steps(t1, dt, travel, unload, a);
    assert t2.timeUntilNextState == rest + b * dt;

    FrozenStaysFrozen(t2, dt, travel, unload, wait);
    var t3 := Steps(t2, dt, travel, unload, wait);

    var u := t3.(isLoaded := false);
    PhaseOfWholeTicks(u, dt, travel, unload, rest, b);
    var t4 := Steps(u, dt, travel, unload, b);
    assert t4.timeUntilNextState == rest + a * dt;

    PhaseOfWholeTicks(t4, dt, travel, unload, rest, a);
  }

  /** A phase whose timer is `n` whole ticks plus a remainder in (-dt, 0]
      lasts exactly `n` ticks and hands the same remainder to the next
      phase. */
  lemma PhaseOfWholeTicks(t: Truck, dt: int, travel: int, unload: int, rest: int, n: int)
    requires dt > 0 && n >= 1 && -dt < rest <= 0
    requires !IsFrozen(t) && t.timeUntilNextState == rest + n * dt
    ensures var next := NextPhase(t.state, t.isLoaded);
      Steps(t, dt, travel, unload, n)
        == Counted(t, n).(state := next, isLoaded := t.state == Mining || t.isLoaded,
                          timeUntilNextState := rest + PhaseBudget(next, t, travel, unload))
  {
    assert (n - 1) * dt == n * dt - dt;
    CeilDivIsCeiling(t.timeUntilNextState, dt, n);
    PhaseLength(t, dt, travel, unload);
  }
}
