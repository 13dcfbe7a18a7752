/**
 * The engine's turn actions as pure transitions of the table: moving with the
 * dice roll, checking the vocabulary, making a suggestion and making an
 * accusation, with the properties each keeps.
 */
module Rules {
  import opened Options
  import opened Distances
  import opened Board
  import opened Cards
  import opened Players

  type DistanceTable = map<string, map<string, Dist>>

  // ---------------------------------------------------------------------------
  // Moving

  /** The table's distance from `from` to `to`; `Inf` for a destination the row does not list. */
  function Lookup(table: DistanceTable, from: string, to: string): (d: Dist)
    requires from in table
    ensures to in table[from] ==> d == table[from][to]
    ensures to !in table[from] ==> d.Inf?
  {
    if to in table[from] then table[from][to] else Inf
  }

  /** The rooms of `order`, in that order, other than `current` and listed in `row` within `roll`. */
  function ReachableFrom(row: map<string, Dist>, order: seq<string>, current: string, roll: int): (rs: seq<string>)
    ensures forall r :: r in rs <==> r in order && r != current && r in row && AtMost(row[r], roll)
    ensures |rs| <= |order|
  {
    if order == [] then []
    else
      var r := order[|order| - 1];
      assert forall x :: x in order <==> x in order[..|order| - 1] || x == r;
      ReachableFrom(row, order[..|order| - 1], current, roll) +
      (if r != current && r in row && AtMost(row[r], roll) then [r] else [])
  }

  /** The rooms, in board order, other than `current` that lie within `roll` steps of it. */
  function ReachableRooms(table: DistanceTable, rooms: seq<string>, current: string, roll: int): (rs: seq<string>)
    ensures forall r :: r in rs <==>
      current in table && r in rooms && r != current && r in table[current] && AtMost(table[current][r], roll)
  {
    if current !in table then [] else ReachableFrom(table[current], rooms, current, roll)
  }

  /**
   * A smaller roll reaches a sub-list of what a larger roll reaches: filtering
   * the larger roll's list by the smaller roll gives the smaller roll's list,
   * in the same order.
   */
  lemma {:induction false} SmallerRollFilters(row: map<string, Dist>, order: seq<string>, current: string, r1: int, r2: int)
    requires r1 <= r2
    ensures ReachableFrom(row, ReachableFrom(row, order, current, r2), current, r1) == ReachableFrom(row, order, current, r1)
  {
    if order != [] {
      var front := order[..|order| - 1];
      var r := order[|order| - 1];
      SmallerRollFilters(row, front, current, r1, r2);
      var kept := ReachableFrom(row, front, current, r2);
      var longer := ReachableFrom(row, order, current, r2);
      var tail := if r != current && r in row && AtMost(row[r], r1) then [r] else [];
      assert ReachableFrom(row, order, current, r1) == ReachableFrom(row, front, current, r1) + tail;
      if r != current && r in row && AtMost(row[r], r2) {
        assert longer == kept + [r];
        assert longer[..|longer| - 1] == kept && longer[|longer| - 1] == r;
        assert ReachableFrom(row, longer, current, r1) == ReachableFrom(row, kept, current, r1) + tail;
      } else {
        assert longer == kept && tail == [];
      }
    }
  }

  /** The rooms a roll reaches are among those any larger roll reaches, in the same order. */
  lemma ReachableGrowsWithRoll(table: DistanceTable, rooms: seq<string>, current: string, r1: int, r2: int)
    requires r1 <= r2
    ensures forall r :: r in ReachableRooms(table, rooms, current, r1) ==> r in ReachableRooms(table, rooms, current, r2)
    ensures current in table ==>
      ReachableFrom(table[current], ReachableRooms(table, rooms, current, r2), current, r1) == ReachableRooms(table, rooms, current, r1)
  {
    if current in table {
      SmallerRollFilters(table[current], rooms, current, r1, r2);
    }
  }

  /** With a true distance table, a room is reachable exactly when some walk of at most `roll` steps leads there. */
  lemma ReachableMeansWalk(g: Graph, rooms: seq<string>, table: DistanceTable, current: string, roll: int, r: string)
    requires IsDistanceTable(g, rooms, table) && current in rooms
    ensures r in ReachableRooms(table, rooms, current, roll) <==>
      r in rooms && r != current &&
      exists p :: IsPathFrom(g, p, current, r) && PathCost(g, p) <= roll
  {
    if r in rooms && r != current {
      assert r in table[current];
      var d := table[current][r];
      assert IsShortest(g, current, r, d);
      if d.Fin? && d.n <= roll {
        var p :| IsPathFrom(g, p, current, r) && PathCost(g, p) == d.n;
      }
    }
  }

  /**
   * Where a move ends: the requested destination if it lies within the roll;
   * otherwise the reachable room the random pick designates (the first one
   * for a pick out of range); `None` when nothing is within reach and the
   * player stays put.
   */
  function MoveTarget(table: DistanceTable, rooms: seq<string>, current: string, destination: string, roll: int, pick: nat): (r: Option<string>)
    requires current in table
    ensures AtMost(Lookup(table, current, destination), roll) ==> r == Some(destination)
    ensures r.Some? ==> AtMost(Lookup(table, current, r.value), roll)
    ensures r.Some? && r.value != destination ==> r.value in ReachableRooms(table, rooms, current, roll)
    ensures r.None? <==> !AtMost(Lookup(table, current, destination), roll) && ReachableRooms(table, rooms, current, roll) == []
  {
    if AtMost(Lookup(table, current, destination), roll) then Some(destination)
    else
      var valid := ReachableRooms(table, rooms, current, roll);
      if valid == [] then None
      else if pick < |valid| then Some(valid[pick])
      else Some(valid[0])
  }

  /** A move never leaves the board: with a table over the rooms, its target is one of the rooms. */
  lemma MoveTargetOnBoard(table: DistanceTable, rooms: seq<string>, current: string, destination: string, roll: int, pick: nat)
    requires TableOver(rooms, table) && current in rooms
    ensures MoveTarget(table, rooms, current, destination, roll, pick).Some? ==>
      MoveTarget(table, rooms, current, destination, roll, pick).value in rooms
  {
    var r := MoveTarget(table, rooms, current, destination, roll, pick);
    if r.Some? {
      assert r.value in table[current];
    }
  }

  /** What `move_player` reports. */
  datatype MoveOutcome =
    | PlayerNotFound
    | Moved(from: string, to: string)
    | Redirected(from: string, requested: string, to: string)
    | StayedPut(room: string)

  /** `move_player`: the table after the named player's move, and the report. */
  function Move(table: DistanceTable, rooms: seq<string>, ps: seq<Player>, name: string, destination: string, roll: int, pick: nat): (res: (seq<Player>, MoveOutcome))
    requires FindPlayer(ps, name).Some? ==> ps[FindPlayer(ps, name).value].loc in table
    ensures |res.0| == |ps|
    ensures res.1.PlayerNotFound? <==> FindPlayer(ps, name).None?
    ensures forall i :: 0 <= i < |ps| ==> res.0[i] == ps[i].(loc := res.0[i].loc)
    ensures forall i :: 0 <= i < |ps| && res.0[i].loc != ps[i].loc ==>
      FindPlayer(ps, name) == Some(i) && AtMost(Lookup(table, ps[i].loc, res.0[i].loc), roll)
    ensures res.1.Moved? ==> res.1.from in table && res.1.to == destination && AtMost(Lookup(table, res.1.from, destination), roll)
    ensures res.1.Redirected? ==>
      res.1.from in table && res.1.requested == destination &&
      !AtMost(Lookup(table, res.1.from, destination), roll) && res.1.to in ReachableRooms(table, rooms, res.1.from, roll)
    ensures res.1.StayedPut? ==> res.1.room in table && ReachableRooms(table, rooms, res.1.room, roll) == []
    ensures res.1.StayedPut? ==> res.0 == ps
    ensures FindPlayer(ps, name).Some? ==> var i := FindPlayer(ps, name).value;
      (AtMost(Lookup(table, ps[i].loc, destination), roll) ==>
        res.0[i].loc == destination && res.1 == Moved(ps[i].loc, destination)) &&
      (res.1.Moved? ==> res.1.from == ps[i].loc && res.0[i].loc == res.1.to) &&
      (res.1.Redirected? ==> res.1.from == ps[i].loc && res.0[i].loc == res.1.to) &&
      (res.1.StayedPut? ==> res.1.room == ps[i].loc)
  {
    match FindPlayer(ps, name)
    case None => (ps, PlayerNotFound)
    case Some(i) =>
      var current := ps[i].loc;
      match MoveTarget(table, rooms, current, destination, roll, pick)
      case None => (ps, StayedPut(current))
      case Some(r) =>
        (ps[i := ps[i].(loc := r)], if r == destination then Moved(current, r) else Redirected(current, destination, r))
  }

  // ---------------------------------------------------------------------------
  // Vocabulary

  /** The word lists a suggestion or accusation is checked against. */
  datatype Vocabulary = Vocabulary(suspects: seq<string>, weapons: seq<string>, rooms: seq<string>)

  datatype VocabularyError = UnknownSuspect(suspect: string) | UnknownWeapon(weapon: string) | UnknownRoom(room: string)

  /** The strict vocabulary check: the suspect is checked first, then the weapon, then the room. */
  function ValidateVocabulary(v: Vocabulary, suspect: string, weapon: string, room: string): (e: Option<VocabularyError>)
    ensures e.None? <==> suspect in v.suspects && weapon in v.weapons && room in v.rooms
    ensures e == Some(UnknownSuspect(suspect)) <==> suspect !in v.suspects
    ensures e == Some(UnknownWeapon(weapon)) <==> suspect in v.suspects && weapon !in v.weapons
    ensures e == Some(UnknownRoom(room)) <==> suspect in v.suspects && weapon in v.weapons && room !in v.rooms
  {
    if suspect !in v.suspects then Some(UnknownSuspect(suspect))
    else if weapon !in v.weapons then Some(UnknownWeapon(weapon))
    else if room !in v.rooms then Some(UnknownRoom(room))
    else None
  }

  // ---------------------------------------------------------------------------
  // Suggestions

  /** The named suspect's token, if a player has that name, is brought into the suggested room. */
  function Summon(ps: seq<Player>, suspect: string, room: string): (qs: seq<Player>)
    ensures |qs| == |ps|
    ensures forall i :: 0 <= i < |ps| ==> qs[i] == ps[i].(loc := qs[i].loc)
    ensures forall i :: 0 <= i < |ps| ==> qs[i].loc == if FindPlayer(ps, suspect) == Some(i) then room else ps[i].loc
  {
    match FindPlayer(ps, suspect)
    case None => ps
    case Some(i) => ps[i := ps[i].(loc := room)]
  }

  /** What `handle_suggestion` reports. */
  datatype SuggestionOutcome =
    | SuggestionRejected(error: VocabularyError)
    | Refuted(refuter: string, card: string)
    | Unrefuted

  /**
   * `handle_suggestion`: summon the suspect, then ask the players clockwise
   * from the suggester; the first holding a named card shows one, which the
   * suggester notes under that player's name.
   *
   * It is rejected exactly for an unknown word and then changes nothing.
   * Otherwise the named suspect's token is in the suggested room, nothing
   * else moves, names and hands stay as they were, and no notebook but the
   * suggester's changes (none at all when nobody refutes).
   */
  function Suggest(v: Vocabulary, ps: seq<Player>, suggester: string, suspect: string, weapon: string, room: string,
                   humanInput: Option<int>, aiPick: nat): (res: (seq<Player>, SuggestionOutcome))
    requires ValidateVocabulary(v, suspect, weapon, room).None? ==> FindPlayer(ps, suggester).Some?
    ensures |res.0| == |ps|
    ensures res.1.SuggestionRejected? <==> ValidateVocabulary(v, suspect, weapon, room).Some?
    ensures res.1.SuggestionRejected? ==> res.0 == ps
    ensures forall i :: 0 <= i < |ps| ==> res.0[i] == ps[i].(loc := res.0[i].loc, memory := res.0[i].memory)
    ensures ValidateVocabulary(v, suspect, weapon, room).None? ==>
      forall i :: 0 <= i < |ps| ==> res.0[i].loc == if FindPlayer(ps, suspect) == Some(i) then room else ps[i].loc
    ensures forall i :: 0 <= i < |ps| && res.0[i].memory != ps[i].memory ==> FindPlayer(ps, suggester) == Some(i)
    ensures res.1.Unrefuted? ==> forall i :: 0 <= i < |ps| ==> res.0[i].memory == ps[i].memory
  {
    match ValidateVocabulary(v, suspect, weapon, room)
    case Some(e) => (ps, SuggestionRejected(e))
    case None => Ask(Summon(ps, suspect, room), FindPlayer(ps, suggester).value, suspect, weapon, room, humanInput, aiPick)
  }

  /**
   * The round of questions after the summons: the nearest refuter clockwise
   * from seat `si` shows a card, which only the suggester's notebook records.
   */
  function Ask(qs: seq<Player>, si: nat, suspect: string, weapon: string, room: string,
               humanInput: Option<int>, aiPick: nat): (res: (seq<Player>, SuggestionOutcome))
    requires si < |qs|
    ensures |res.0| == |qs| && !res.1.SuggestionRejected?
    ensures forall i :: 0 <= i < |qs| ==> res.0[i] == qs[i].(memory := res.0[i].memory)
    ensures forall i :: 0 <= i < |qs| && i != si ==> res.0[i].memory == qs[i].memory
    ensures res.1.Unrefuted? ==> res.0 == qs
  {
    match RefutingOffset(qs, si, suspect, weapon, room, 1)
    case None => (qs, Unrefuted)
    case Some(o) =>
      var checker := qs[Seat(|qs|, si, o)];
      var card := ChooseCard(checker.isAi, Matches(checker.hand, suspect, weapon, room), humanInput, aiPick);
      (qs[si := qs[si].(memory := qs[si].memory[card := checker.name])], Refuted(checker.name, card))
  }

  /**
   * What a suggestion's answer means: if nobody refutes, no other player
   * holds any named card; a refutation comes from another player holding the
   * shown card, which is one of the three named, and the suggester's notebook
   * now records that player as its source.
   */
  lemma SuggestionAnswer(v: Vocabulary, ps: seq<Player>, suggester: string, suspect: string, weapon: string, room: string,
                         humanInput: Option<int>, aiPick: nat)
    requires ValidateVocabulary(v, suspect, weapon, room).None? && FindPlayer(ps, suggester).Some?
    ensures var (qs, out) := Suggest(v, ps, suggester, suspect, weapon, room, humanInput, aiPick);
      var si := FindPlayer(ps, suggester).value;
      (out.Unrefuted? ==> forall j :: 0 <= j < |ps| && j != si ==> Matches(ps[j].hand, suspect, weapon, room) == []) &&
      (out.Refuted? ==>
        Named(out.card, suspect, weapon, room) &&
        qs[si].memory == ps[si].memory[out.card := out.refuter] &&
        exists j :: 0 <= j < |ps| && j != si && ps[j].name == out.refuter && out.card in ps[j].hand)
  {
    var qs := Summon(ps, suspect, room);
    var si := FindPlayer(ps, suggester).value;
    RefuterIsAnotherPlayer(qs, si, suspect, weapon, room);
    match RefutingOffset(qs, si, suspect, weapon, room, 1)
    case None =>
      forall j | 0 <= j < |ps| && j != si ensures Matches(ps[j].hand, suspect, weapon, room) == [] {
        assert qs[j].hand == ps[j].hand;
      }
    case Some(o) =>
      var j := Seat(|qs|, si, o);
      assert qs[j].hand == ps[j].hand && qs[j].name == ps[j].name;
  }

  /**
   * The refuter is the nearest player clockwise: every player the search
   * passes over before the refuter holds none of the named cards.
   */
  lemma RefuterIsNearest(v: Vocabulary, ps: seq<Player>, suggester: string, suspect: string, weapon: string, room: string,
                         humanInput: Option<int>, aiPick: nat)
    requires ValidateVocabulary(v, suspect, weapon, room).None? && FindPlayer(ps, suggester).Some?
    ensures var si := FindPlayer(ps, suggester).value;
      var out := Suggest(v, ps, suggester, suspect, weapon, room, humanInput, aiPick).1;
      out.Refuted? ==> exists o :: (1 <= o < |ps| && ps[Seat(|ps|, si, o)].name == out.refuter &&
        forall o' :: 1 <= o' < o ==> Matches(ps[Seat(|ps|, si, o')].hand, suspect, weapon, room) == [])
  {
    var qs := Summon(ps, suspect, room);
    var si := FindPlayer(ps, suggester).value;
    match RefutingOffset(qs, si, suspect, weapon, room, 1)
    case None =>
    case Some(o) =>
      forall o' | 1 <= o' < o ensures Matches(ps[Seat(|ps|, si, o')].hand, suspect, weapon, room) == [] {
        assert !RefutesAt(qs, si, o', suspect, weapon, room);
      }
      assert ps[Seat(|ps|, si, o)].name == qs[Seat(|qs|, si, o)].name;
  }

  /** A suggestion keeps the table invariant: the new notebook entry is true. */
  lemma SuggestionKeepsTable(v: Vocabulary, t: Solution, ps: seq<Player>, suggester: string, suspect: string, weapon: string, room: string,
                             humanInput: Option<int>, aiPick: nat)
    requires HandsDealt(t, ps)
    requires ValidateVocabulary(v, suspect, weapon, room).None? ==> FindPlayer(ps, suggester).Some?
    ensures HandsDealt(t, Suggest(v, ps, suggester, suspect, weapon, room, humanInput, aiPick).0)
  {
    if ValidateVocabulary(v, suspect, weapon, room).None? {
      var qs := Summon(ps, suspect, room);
      HandsDealtIgnoresPlaces(t, ps, qs);
      var si := FindPlayer(ps, suggester).value;
      RefuterIsAnotherPlayer(qs, si, suspect, weapon, room);
      match RefutingOffset(qs, si, suspect, weapon, room, 1)
      case None =>
      case Some(o) =>
        var j := Seat(|qs|, si, o);
        var card := ChooseCard(qs[j].isAi, Matches(qs[j].hand, suspect, weapon, room), humanInput, aiPick);
        NotingKeepsHandsDealt(t, qs, si, j, card);
    }
  }

  // ---------------------------------------------------------------------------
  // Accusations

  /** What `handle_accusation` reports. */
  datatype AccusationOutcome = AccusationRejected(error: VocabularyError) | Solved | Eliminated

  /**
   * `handle_accusation`: an accusation in the vocabulary is correct exactly
   * when it names the envelope's three cards; a wrong one eliminates the
   * accuser and changes nothing else.
   */
  function Accuse(v: Vocabulary, truth: Option<Solution>, ps: seq<Player>, accuser: string, suspect: string, weapon: string, room: string): (res: (seq<Player>, AccusationOutcome))
    requires ValidateVocabulary(v, suspect, weapon, room).None? ==>
      truth.Some? && (truth.value == Solution(suspect, weapon, room) || FindPlayer(ps, accuser).Some?)
    ensures res.1.AccusationRejected? <==> ValidateVocabulary(v, suspect, weapon, room).Some?
    ensures res.1.Solved? <==> ValidateVocabulary(v, suspect, weapon, room).None? && truth == Some(Solution(suspect, weapon, room))
    ensures !res.1.Eliminated? ==> res.0 == ps
    ensures res.1.Eliminated? ==> |res.0| == |ps| && forall i :: 0 <= i < |ps| ==>
      res.0[i] == if FindPlayer(ps, accuser) == Some(i) then ps[i].(eliminated := true) else ps[i]
  {
    match ValidateVocabulary(v, suspect, weapon, room)
    case Some(e) => (ps, AccusationRejected(e))
    case None =>
      if truth.value == Solution(suspect, weapon, room) then (ps, Solved)
      else
        var i := FindPlayer(ps, accuser).value;
        (ps[i := ps[i].(eliminated := true)], Eliminated)
  }

  /** Accusing with a card some notebook records is always wrong: notebooks never hold an envelope card. */
  lemma NotedCardLosesAccusation(v: Vocabulary, t: Solution, ps: seq<Player>, accuser: string, suspect: string, weapon: string, room: string, i: nat)
    requires HandsDealt(t, ps) && FindPlayer(ps, accuser).Some?
    requires i < |ps| && (suspect in ps[i].memory || weapon in ps[i].memory || room in ps[i].memory)
    ensures !Accuse(v, Some(t), ps, accuser, suspect, weapon, room).1.Solved?
  {
    NotebookAvoidsSolution(t, ps);
  }

  /** A wrong accusation keeps the table invariant. */
  lemma AccusationKeepsTable(v: Vocabulary, t: Solution, ps: seq<Player>, accuser: string, suspect: string, weapon: string, room: string)
    requires HandsDealt(t, ps)
    requires ValidateVocabulary(v, suspect, weapon, room).None? ==> t == Solution(suspect, weapon, room) || FindPlayer(ps, accuser).Some?
    ensures HandsDealt(t, Accuse(v, Some(t), ps, accuser, suspect, weapon, room).0)
  {
    var qs := Accuse(v, Some(t), ps, accuser, suspect, weapon, room).0;
    HandsDealtIgnoresPlaces(t, ps, qs);
  }
}
