/**
 * The fixed game vocabulary and the weighted room graph of the engine
 * (normal corridors cost 6 steps, secret passages 1; the Billiard Room has an
 * extra one-way corridor of 8 steps to the Hall).
 */
module Board {
  import opened Options
  import opened Distances

  const Suspects: seq<string> :=
    ["Miss Scarlet", "Colonel Mustard", "Mrs. Peacock", "Professor Plum", "Mr. Green", "Mrs. White"]
  const Weapons: seq<string> :=
    ["Candlestick", "Dagger", "Lead Pipe", "Revolver", "Rope", "Wrench"]
  const Rooms: seq<string> :=
    ["Kitchen", "Ballroom", "Conservatory", "Dining Room", "Lounge", "Hall", "Study", "Library", "Billiard Room"]

  const RoomConnections: Graph := map[
    "Kitchen"       := map["Ballroom" := 6, "Dining Room" := 6, "Study" := 1],
    "Ballroom"      := map["Kitchen" := 6, "Conservatory" := 6, "Billiard Room" := 6],
    "Conservatory"  := map["Ballroom" := 6, "Lounge" := 1, "Library" := 6],
    "Dining Room"   := map["Kitchen" := 6, "Lounge" := 6, "Hall" := 6],
    "Lounge"        := map["Dining Room" := 6, "Hall" := 6, "Conservatory" := 1],
    "Hall"          := map["Dining Room" := 6, "Lounge" := 6, "Study" := 6],
    "Study"         := map["Hall" := 6, "Library" := 6, "Kitchen" := 1],
    "Library"       := map["Study" := 6, "Billiard Room" := 6, "Conservatory" := 6],
    "Billiard Room" := map["Library" := 6, "Ballroom" := 6, "Hall" := 8]
  ]

  predicate Distinct(s: seq<string>) {
    forall i, j :: 0 <= i < j < |s| ==> s[i] != s[j]
  }

  lemma BoardWellFormed()
    ensures Distinct(Suspects) && Distinct(Weapons) && Distinct(Rooms)
    ensures ClosedOver(RoomConnections, RoomSet(Rooms))
    ensures RoomConnections.Keys == RoomSet(Rooms)
  {
  }

  // ---------------------------------------------------------------------------
  // Connectivity

  /**
   * A directed cycle through all nine rooms: Kitchen, Study, Library,
   * Billiard Room, Ballroom, Conservatory, Lounge, Hall, Dining Room and back
   * to the Kitchen.
   */
  const Lap: seq<string> := [
    "Kitchen", "Study", "Library", "Billiard Room", "Ballroom", "Conservatory", "Lounge", "Hall", "Dining Room",
    "Kitchen"]

  lemma LapIsPath()
    ensures IsPath(RoomConnections, Lap)
  {
    forall k | 0 <= k < |Lap| - 1 ensures Lap[k + 1] in Neighbors(RoomConnections, Lap[k]) {
      assert k in {0, 1, 2, 3, 4, 5, 6, 7, 8};
    }
  }

  lemma LapCoversRooms()
    ensures forall r :: r in Rooms ==> r in Lap[..9]
  {
    forall r | r in Rooms ensures r in Lap[..9] {
      var m :| 0 <= m < |Rooms| && Rooms[m] == r;
      var at := [0, 4, 5, 8, 6, 7, 1, 2, 3];
      assert Lap[at[m]] == Rooms[m] by {
        assert m in {0, 1, 2, 3, 4, 5, 6, 7, 8};
      }
      assert Lap[..9][at[m]] == r;
    }
  }

  /** Every room reaches every room (itself included) by a walk along the corridors. */
  lemma BoardConnected(a: string, b: string)
    requires a in Rooms && b in Rooms
    ensures exists p :: IsPathFrom(RoomConnections, p, a, b)
  {
    LapIsPath();
    LapCoversRooms();
    var first := Lap[..9];
    assert a in first && b in first;
    var i :| 0 <= i < 9 && first[i] == a;
    var j :| 0 <= j < 9 && first[j] == b;
    CycleConnects(RoomConnections, Lap, i, j);
  }

  // ---------------------------------------------------------------------------
  // Concrete shortest distances on this board

  /** Shortest distances from the Kitchen, computed by hand. */
  const FromKitchen: map<string, int> := map[
    "Kitchen" := 0, "Study" := 1, "Ballroom" := 6, "Dining Room" := 6, "Hall" := 7,
    "Library" := 7, "Lounge" := 12, "Conservatory" := 12, "Billiard Room" := 12]

  /** Shortest distances from the Billiard Room, computed by hand. */
  const FromBilliardRoom: map<string, int> := map[
    "Billiard Room" := 0, "Library" := 6, "Ballroom" := 6, "Hall" := 8, "Study" := 12,
    "Kitchen" := 12, "Conservatory" := 12, "Lounge" := 13, "Dining Room" := 14]

  /** Shortest distances from the Hall, computed by hand. */
  const FromHall: map<string, int> := map[
    "Hall" := 0, "Dining Room" := 6, "Lounge" := 6, "Study" := 6, "Kitchen" := 7,
    "Conservatory" := 7, "Library" := 12, "Ballroom" := 13, "Billiard Room" := 18]

  /** Every edge out of a room with potential `base` keeps within the potential. */
  predicate EdgesOk(row: map<string, nat>, pot: map<string, int>, base: int) {
    forall v :: v in row ==> v in pot && pot[v] <= base + row[v]
  }

  predicate RowsOk(pot: map<string, int>, rs: seq<string>) {
    forall i :: 0 <= i < |rs| ==>
      (rs[i] in RoomConnections && rs[i] in pot && EdgesOk(RoomConnections[rs[i]], pot, pot[rs[i]]))
  }

  /** The rows of the board, checked a third at a time, make a potential feasible. */
  lemma FeasibleByRows(pot: map<string, int>)
    requires RowsOk(pot, Rooms[..3]) && RowsOk(pot, Rooms[3..6]) && RowsOk(pot, Rooms[6..])
    ensures Feasible(RoomConnections, pot)
  {
    forall u | u in RoomConnections
      ensures u in pot && EdgesOk(RoomConnections[u], pot, pot[u])
    {
      BoardWellFormed();
      var i :| 0 <= i < |Rooms| && Rooms[i] == u;
      if i < 3 {
        assert Rooms[..3][i] == u;
      } else if i < 6 {
        assert Rooms[3..6][i - 3] == u;
      } else {
        assert Rooms[6..][i - 6] == u;
      }
    }
  }

  lemma FromKitchenFeasible()
    ensures Feasible(RoomConnections, FromKitchen)
  {
    FromKitchenRowsA();
    FromKitchenRowsB();
    FromKitchenRowsC();
    FeasibleByRows(FromKitchen);
  }
  lemma FromKitchenRowsA() ensures RowsOk(FromKitchen, Rooms[..3]) {}
  lemma FromKitchenRowsB() ensures RowsOk(FromKitchen, Rooms[3..6]) {}
  lemma FromKitchenRowsC() ensures RowsOk(FromKitchen, Rooms[6..]) {}

  lemma FromBilliardRoomFeasible()
    ensures Feasible(RoomConnections, FromBilliardRoom)
  {
    FromBilliardRoomRowsA();
    FromBilliardRoomRowsB();
    FromBilliardRoomRowsC();
    FeasibleByRows(FromBilliardRoom);
  }
  lemma FromBilliardRoomRowsA() ensures RowsOk(FromBilliardRoom, Rooms[..3]) {}
  lemma FromBilliardRoomRowsB() ensures RowsOk(FromBilliardRoom, Rooms[3..6]) {}
  lemma FromBilliardRoomRowsC() ensures RowsOk(FromBilliardRoom, Rooms[6..]) {}

  lemma FromHallFeasible()
    ensures Feasible(RoomConnections, FromHall)
  {
    FromHallRowsA();
    FromHallRowsB();
    FromHallRowsC();
    FeasibleByRows(FromHall);
  }
  lemma FromHallRowsA() ensures RowsOk(FromHall, Rooms[..3]) {}
  lemma FromHallRowsB() ensures RowsOk(FromHall, Rooms[3..6]) {}
  lemma FromHallRowsC() ensures RowsOk(FromHall, Rooms[6..]) {}

  /** A walk extended at its front by one edge costs that edge's weight more. */
  lemma Prepend(a: string, p: seq<string>)
    requires IsPath(RoomConnections, p) && p[0] in Neighbors(RoomConnections, a)
    ensures IsPath(RoomConnections, [a] + p)
    ensures PathCost(RoomConnections, [a] + p) == Neighbors(RoomConnections, a)[p[0]] + PathCost(RoomConnections, p)
  {
    assert IsPath(RoomConnections, [a]);
    ExtendPath(RoomConnections, [a], p[0]);
    JoinPaths(RoomConnections, [a, p[0]], p);
    assert [a, p[0]] + p[1..] == [a] + p;
    assert [a, p[0]][..1] == [a];
  }

  /** The Kitchen reaches the Library in 7 steps, through the secret passage to the Study. */
  lemma KitchenToLibrary()
    ensures IsShortest(RoomConnections, "Kitchen", "Library", Fin(7))
  {
    var p := ["Library"];
    assert IsPath(RoomConnections, p);
    Prepend("Study", p);
    Prepend("Kitchen", ["Study"] + p);
    assert ["Kitchen"] + (["Study"] + p) == ["Kitchen", "Study", "Library"];
    FromKitchenFeasible();
    ShortestByPotential(RoomConnections, FromKitchen, ["Kitchen", "Study", "Library"], "Kitchen", "Library", 7);
  }

  /** The one-way corridor puts the Hall 8 steps from the Billiard Room ... */
  lemma BilliardRoomToHall()
    ensures IsShortest(RoomConnections, "Billiard Room", "Hall", Fin(8))
  {
    var p := ["Hall"];
    assert IsPath(RoomConnections, p);
    Prepend("Billiard Room", p);
    assert ["Billiard Room"] + p == ["Billiard Room", "Hall"];
    FromBilliardRoomFeasible();
    ShortestByPotential(RoomConnections, FromBilliardRoom, ["Billiard Room", "Hall"], "Billiard Room", "Hall", 8);
  }

  /** ... while the way back goes through the Study and the Library and costs 18. */
  lemma HallToBilliardRoom()
    ensures IsShortest(RoomConnections, "Hall", "Billiard Room", Fin(18))
  {
    var p := ["Billiard Room"];
    assert IsPath(RoomConnections, p);
    Prepend("Library", p);
    Prepend("Study", ["Library"] + p);
    Prepend("Hall", ["Study"] + (["Library"] + p));
    assert ["Hall"] + (["Study"] + (["Library"] + p)) == ["Hall", "Study", "Library", "Billiard Room"];
    FromHallFeasible();
    ShortestByPotential(RoomConnections, FromHall, ["Hall", "Study", "Library", "Billiard Room"], "Hall", "Billiard Room", 18);
  }
}
