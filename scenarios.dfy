// Concrete instances of the assignment policy with the numbers the repository's
// tests use.

module Scenarios {
  import opened MiningTruck
  import opened UnloadingStation
  import opened StationProcessor

  /** A station that is available with the given wait and queue. */
  function At(id: int, wait: int, queue: seq<int>): Station
  {
    Station(id, Available, wait, queue, 0)
  }

  /** A truck with mining time 0 and the given flags. */
  function Hauler(id: int, loaded: bool, queued: bool): Truck
  {
    NewTruck(id, 0).(isLoaded := loaded, isAssignedStation := queued)
  }

  /** Five stations, stations 1, 2 and 4 with waits of 3, 4 and 1 unload
      durations (5 minutes), stations 0 and 3 in the free pool, trucks 0..4
      loaded and truck 5 empty. */
  function Start(): Yard
  {
    Yard([At(0, 0, []), At(1, 15, []), At(2, 20, []), At(3, 0, []), At(4, 5, [])],
         [Hauler(0, true, false), Hauler(1, true, false), Hauler(2, true, false),
          Hauler(3, true, false), Hauler(4, true, false), Hauler(5, false, false)],
         [0, 3])
  }

  /** The yard after the first `n` loaded trucks are placed. */
  function Placed(n: nat): Yard
    requires n <= 5
  {
    if n == 0 then Start()
    else if n == 1 then
      Yard(Start().stations[0 := At(0, 5, [0])], Start().trucks[0 := Hauler(0, true, true)], [3])
    else if n == 2 then
      Yard(Placed(1).stations[3 := At(3, 5, [1])], Placed(1).trucks[1 := Hauler(1, true, true)], [])
    else if n == 3 then
      Yard(Placed(2).stations[0 := At(0, 10, [0, 2])], Placed(2).trucks[2 := Hauler(2, true, true)], [])
    else if n == 4 then
      Yard(Placed(3).stations[3 := At(3, 10, [1, 3])], Placed(3).trucks[3 := Hauler(3, true, true)], [])
    else
      Yard(Placed(4).stations[4 := At(4, 10, [4])], Placed(4).trucks[4 := Hauler(4, true, true)], [])
  }

  lemma PlaceFromPool()
    ensures AssignOne(Placed(0), 0, 5) == Placed(1)
    ensures AssignOne(Placed(1), 1, 5) == Placed(2)
  {
    assert [] + [0] == [0] && [] + [1] == [1];
  }

  /** The first station of least wait among the five, given the minimum of
      each prefix. */
  lemma LeastWait(ss: seq<Station>, m1: nat, m2: nat, m3: nat, m4: nat, m5: nat)
    requires |ss| == 5
    requires m1 == 0
    requires m2 == if ss[1].waitTime < ss[m1].waitTime then 1 else m1
    requires m3 == if ss[2].waitTime < ss[m2].waitTime then 2 else m2
    requires m4 == if ss[3].waitTime < ss[m3].waitTime then 3 else m3
    requires m5 == if ss[4].waitTime < ss[m4].waitTime then 4 else m4
    ensures MinWaitIndex(ss) == m5
  {
    assert MinWaitIndex(ss[..1]) == m1;
    assert ss[..2][..1] == ss[..1];
    assert MinWaitIndex(ss[..2]) == m2;
    assert ss[..3][..2] == ss[..2];
    assert MinWaitIndex(ss[..3]) == m3;
    assert ss[..4][..3] == ss[..3];
    assert MinWaitIndex(ss[..4]) == m4;
    assert ss[..4] == ss[..|ss| - 1];
  }

  /** Truck 2 goes to station 0, the first of the three stations with the
      least wait (5 minutes). */
  lemma PlaceThird()
    ensures AssignOne(Placed(2), 2, 5) == Placed(3)
  {
    LeastWait(Placed(2).stations, 0, 0, 0, 0, 0);
    assert [0] + [2] == [0, 2];
  }

  /** Truck 3 goes to station 3, now the first of least wait. */
  lemma PlaceFourth()
    ensures AssignOne(Placed(3), 3, 5) == Placed(4)
  {
    LeastWait(Placed(3).stations, 0, 0, 0, 3, 3);
    assert [1] + [3] == [1, 3];
  }

  /** Truck 4 goes to station 4, the only one left with a 5-minute wait. */
  lemma PlaceFifth()
    ensures AssignOne(Placed(4), 4, 5) == Placed(5)
  {
    LeastWait(Placed(4).stations, 0, 0, 0, 0, 4);
    assert [] + [4] == [4];
  }

  /** Placing the loaded trucks one by one goes through the yards above. */
  lemma {:induction false} PlacedInOrder(n: nat)
    requires n <= 5
    ensures AssignAll(Start().stations, Start().trucks, Start().pool, [0, 1, 2, 3, 4][..n], 5) == Placed(n)
  {
    var loaded := [0, 1, 2, 3, 4];
    if n == 0 {
      assert loaded[..0] == [];
    } else {
      PlacedInOrder(n - 1);
      assert loaded[..n][..n - 1] == loaded[..n - 1];
      assert loaded[..n][n - 1] == n - 1;
      if n <= 2 {
        PlaceFromPool();
      } else if n == 3 {
        PlaceThird();
      } else if n == 4 {
        PlaceFourth();
      } else {
        PlaceFifth();
      }
    }
  }

  /** What the last yard holds. */
  lemma LastYard()
    ensures var y := Placed(5);
      && y.stations[0].vehicleIdQueue == [0, 2]
      && y.stations[1].vehicleIdQueue == []
      && y.stations[2].vehicleIdQueue == []
      && y.stations[3].vehicleIdQueue == [1, 3]
      && y.stations[4].vehicleIdQueue == [4]
      && (forall v :: 0 <= v < 5 ==> y.trucks[v].isAssignedStation)
      && !y.trucks[5].isAssignedStation
      && y.pool == []
  {
  }

  /** The pool is used first (truck 0 to station 0, truck 1 to station 3),
      then the first station of least wait (truck 2 to station 0, truck 3 to
      station 3, truck 4 to station 4); stations 1 and 2 get nothing, trucks
      0..4 are assigned and the empty truck 5 is not. */
  lemma AssignScenario()
    ensures var y := AssignAll(Start().stations, Start().trucks, Start().pool, [0, 1, 2, 3, 4], 5);
      && y.stations[0].vehicleIdQueue == [0, 2]
      && y.stations[1].vehicleIdQueue == []
      && y.stations[2].vehicleIdQueue == []
      && y.stations[3].vehicleIdQueue == [1, 3]
      && y.stations[4].vehicleIdQueue == [4]
      && (forall v :: 0 <= v < 5 ==> y.trucks[v].isAssignedStation)
      && !y.trucks[5].isAssignedStation
      && y.pool == []
  {
    PlacedInOrder(5);
    assert [0, 1, 2, 3, 4][..5] == [0, 1, 2, 3, 4];
    LastYard();
  }
}
