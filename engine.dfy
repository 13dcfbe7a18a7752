/**
 * The game engine object: the fixed distance table it builds once, the hidden
 * solution, the seated players, the dice roll of the current turn and the
 * end-of-game state, with the operations the game loop and the players' tools
 * call on it.
 */
module Engine {
  import opened Options
  import opened Distances
  import opened Board
  import opened Cards
  import opened Players
  import opened Rules

  /**
   * What the engine keeps true of its players: everybody stands in one of the
   * rooms; nobody is seated before the envelope is filled, and once it is,
   * the table invariant of the deal holds.
   */
  ghost predicate PlayersValid(rooms: seq<string>, truth: Option<Solution>, ps: seq<Player>) {
    (forall i :: 0 <= i < |ps| ==> ps[i].loc in rooms) &&
    (truth.None? ==> ps == []) &&
    (truth.Some? ==> HandsDealt(truth.value, ps))
  }

  class ClueGameEngine {
    const suspects: seq<string>
    const weapons: seq<string>
    const rooms: seq<string>
    /** Corridor and secret-passage costs between rooms. */
    const roomConnections: Graph
    /** Shortest distance between every ordered pair of rooms, computed at construction. */
    const distances: DistanceTable
    /** The envelope; `None` until the game is set up. */
    var truth: Option<Solution>
    var players: seq<Player>
    /** Whose turn it is; only the game loop advances it. */
    var turnIndex: int
    var currentDiceRoll: int
    var gameOver: bool
    var winner: Option<string>

    /** The word lists suggestions and accusations are checked against. */
    function Words(): Vocabulary {
      Vocabulary(suspects, weapons, rooms)
    }

    /**
     * The engine's invariant: the distance table is exact for the room graph,
     * the start room is a room, the players satisfy `PlayersValid`, and the
     * game is over exactly when somebody has won.
     */
    ghost predicate Valid()
      reads this
    {
      IsDistanceTable(roomConnections, rooms, distances) &&
      StartRoom in rooms &&
      PlayersValid(rooms, truth, players) &&
      (gameOver <==> winner.Some?)
    }

    /** Builds the board of the standard game and its distance table; nobody is seated yet. */
    constructor ()
      ensures Valid()
      ensures suspects == Suspects && weapons == Weapons && rooms == Rooms && roomConnections == RoomConnections
      ensures truth.None? && players == [] && turnIndex == 0 && currentDiceRoll == 0
      ensures !gameOver && winner.None?
    {
      suspects := Suspects;
      weapons := Weapons;
      rooms := Rooms;
      roomConnections := RoomConnections;
      var table := StandardTable();
      distances := table;
      truth := None;
      players := [];
      turnIndex := 0;
      currentDiceRoll := 0;
      gameOver := false;
      winner := None;
    }

    /**
     * Fills the envelope with `t`, seats the human and the three AI players
     * drawn from the other suspects, and deals the shuffled deck round by
     * round, popping from its end, four rounds in all.
     */
    method SetupGame(humanName: string, t: Solution, shuffled: seq<string>, aiNames: seq<string>)
      requires Valid()
      requires ValidSolution(t) && multiset(shuffled) == multiset(Deck(t))
      requires |aiNames| == PlayerCount - 1 && Distinct(aiNames)
      requires forall n :: n in aiNames ==> n in suspects && n != humanName
      modifies this
      ensures Valid()
      ensures truth == Some(t) && players == DealtPlayers(humanName, aiNames, shuffled)
      ensures turnIndex == old(turnIndex) && currentDiceRoll == old(currentDiceRoll)
      ensures gameOver == old(gameOver) && winner == old(winner)
    {
      SetupSound(rooms, t, humanName, aiNames, shuffled);
      truth := Some(t);
      players := Deal(humanName, aiNames, shuffled);
    }

    /** The index of the first player called `name`, if any. */
    method GetPlayerByName(name: string) returns (idx: Option<nat>)
      ensures idx == FindPlayer(players, name)
    {
      idx := IndexOf(players, name);
    }

    /** Rolls two dice, given as `d1` and `d2`, and keeps their sum as the turn's roll. */
    method StartTurn(d1: int, d2: int) returns (roll: int)
      requires 1 <= d1 <= 6 && 1 <= d2 <= 6
      requires Valid()
      modifies this
      ensures Valid()
      ensures 2 <= roll <= 12 && roll == d1 + d2 && currentDiceRoll == roll
      ensures truth == old(truth) && players == old(players) && turnIndex == old(turnIndex)
      ensures gameOver == old(gameOver) && winner == old(winner)
    {
      currentDiceRoll := d1 + d2;
      roll := currentDiceRoll;
    }

    /** The rooms other than `current` within `roll` steps, in board order. */
    method GetReachableRooms(current: string, roll: int) returns (reachable: seq<string>)
      ensures reachable == ReachableRooms(distances, rooms, current, roll)
    {
      if current !in distances {
        return [];
      }
      reachable := CollectReachable(distances[current], rooms, current, roll);
    }

    /**
     * Moves the named player to `destination` if it lies within the turn's
     * roll; otherwise to the reachable room `pick` designates, or nowhere if
     * no room is within reach.
     */
    method MovePlayer(name: string, destination: string, pick: nat) returns (outcome: MoveOutcome)
      requires Valid()
      modifies this
      ensures Valid()
      ensures (players, outcome) == Move(distances, rooms, old(players), name, destination, currentDiceRoll, pick)
      ensures truth == old(truth) && turnIndex == old(turnIndex) && currentDiceRoll == old(currentDiceRoll)
      ensures gameOver == old(gameOver) && winner == old(winner)
    {
      MoveKeepsPlayersValid(distances, rooms, truth, players, name, destination, currentDiceRoll, pick);
      players, outcome := MoveOnTable(distances, rooms, players, name, destination, currentDiceRoll, pick);
    }

    /**
     * Checks the words, summons the suspect into the room, then asks the
     * players clockwise from the suggester; the first holding a named card
     * shows one (the human chooses with `humanInput`, an AI with `aiPick`),
     * and the suggester notes it under that player's name.
     */
    method HandleSuggestion(suggester: string, suspect: string, weapon: string, room: string,
                            humanInput: Option<int>, aiPick: nat) returns (outcome: SuggestionOutcome)
      requires Valid()
      requires ValidateVocabulary(Words(), suspect, weapon, room).None? ==> FindPlayer(players, suggester).Some?
      modifies this
      ensures Valid()
      ensures (players, outcome) == Suggest(Words(), old(players), suggester, suspect, weapon, room, humanInput, aiPick)
      ensures truth == old(truth) && turnIndex == old(turnIndex) && currentDiceRoll == old(currentDiceRoll)
      ensures gameOver == old(gameOver) && winner == old(winner)
    {
      SuggestionKeepsPlayersValid(Words(), truth, players, suggester, suspect, weapon, room, humanInput, aiPick);
      players, outcome := SuggestOnTable(Words(), players, suggester, suspect, weapon, room, humanInput, aiPick);
    }

    /**
     * Checks the words, then compares the accusation with the envelope: a
     * correct one ends the game with the accuser as winner, a wrong one
     * eliminates the accuser.
     */
    method HandleAccusation(accuser: string, suspect: string, weapon: string, room: string) returns (outcome: AccusationOutcome)
      requires Valid()
      requires ValidateVocabulary(Words(), suspect, weapon, room).None? ==>
        truth.Some? && (truth.value == Solution(suspect, weapon, room) || FindPlayer(players, accuser).Some?)
      modifies this
      ensures Valid()
      ensures (players, outcome) == Accuse(Words(), old(truth), old(players), accuser, suspect, weapon, room)
      ensures gameOver == (old(gameOver) || outcome.Solved?)
      ensures winner == if outcome.Solved? then Some(accuser) else old(winner)
      ensures truth == old(truth) && turnIndex == old(turnIndex) && currentDiceRoll == old(currentDiceRoll)
    {
      AccusationKeepsPlayersValid(Words(), truth, players, accuser, suspect, weapon, room);
      players, outcome := AccuseOnTable(Words(), truth, players, accuser, suspect, weapon, room);
      if outcome.Solved? {
        gameOver := true;
        winner := Some(accuser);
      }
    }
  }

  // ---------------------------------------------------------------------------
  // The loops and invariant steps behind the methods

  /** The loop of `get_player_by_name`: the first seat holding `name`. */
  method IndexOf(ps: seq<Player>, name: string) returns (idx: Option<nat>)
    ensures idx == FindPlayer(ps, name)
  {
    var i := 0;
    while i < |ps|
      invariant i <= |ps|
      invariant forall j :: 0 <= j < i ==> ps[j].name != name
    {
      if ps[i].name == name {
        return Some(i);
      }
      i := i + 1;
    }
    return None;
  }

  /**
   * The deal of `setup_game`: four rounds, each serving the seats in order
   * with the card popped from the end of the deck while any is left; a
   * card served goes into the hand and into the notebook as the player's own.
   */
  method Deal(humanName: string, aiNames: seq<string>, shuffled: seq<string>) returns (ps: seq<Player>)
    requires |aiNames| == PlayerCount - 1
    ensures ps == DealtPlayers(humanName, aiNames, shuffled)
  {
    var seated := Seated(humanName, aiNames);
    ps := seated;
    NothingDealtYet(humanName, aiNames, shuffled);
    var deck := shuffled;
    for r := 0 to HandLimit
      invariant ps == PartlyDealt(seated, shuffled, r, 0)
      invariant |deck| == |shuffled| - Popped(|shuffled|, PlayerCount * r) && deck == shuffled[..|deck|]
    {
      for k := 0 to |ps|
        invariant |ps| == PlayerCount
        invariant ps == PartlyDealt(seated, shuffled, r, k)
        invariant |deck| == |shuffled| - Popped(|shuffled|, PlayerCount * r + k) && deck == shuffled[..|deck|]
      {
        DealStep(seated, shuffled, r, k);
        if deck != [] {
          var card := deck[|deck| - 1];
          deck := deck[..|deck| - 1];
          var p := ps[k];
          ps := ps[k := p.(hand := p.hand + [card], memory := p.memory[card := SelfSource])];
        }
      }
      RoundDone(seated, shuffled, r);
    }
  }

  /** The body of `move_player` over the table of players. */
  method MoveOnTable(table: DistanceTable, rooms: seq<string>, ps: seq<Player>, name: string, destination: string, roll: int, pick: nat)
    returns (qs: seq<Player>, outcome: MoveOutcome)
    requires FindPlayer(ps, name).Some? ==> ps[FindPlayer(ps, name).value].loc in table
    ensures (qs, outcome) == Move(table, rooms, ps, name, destination, roll, pick)
  {
    qs := ps;
    var found := IndexOf(ps, name);
    if found.None? {
      return qs, PlayerNotFound;
    }
    var i := found.value;
    var current := ps[i].loc;
    var dist := Lookup(table, current, destination);
    if AtMost(dist, roll) {
      qs := ps[i := ps[i].(loc := destination)];
      return qs, Moved(current, destination);
    }
    var validMoves := CollectReachable(table[current], rooms, current, roll);
    if validMoves != [] {
      var fallback := if pick < |validMoves| then validMoves[pick] else validMoves[0];
      qs := ps[i := ps[i].(loc := fallback)];
      return qs, Redirected(current, destination, fallback);
    }
    return qs, StayedPut(current);
  }

  /** The body of `handle_suggestion` over the table of players. */
  method SuggestOnTable(v: Vocabulary, ps: seq<Player>, suggester: string, suspect: string, weapon: string, room: string,
                        humanInput: Option<int>, aiPick: nat) returns (qs: seq<Player>, outcome: SuggestionOutcome)
    requires ValidateVocabulary(v, suspect, weapon, room).None? ==> FindPlayer(ps, suggester).Some?
    ensures (qs, outcome) == Suggest(v, ps, suggester, suspect, weapon, room, humanInput, aiPick)
  {
    qs := ps;
    var validation := ValidateVocabulary(v, suspect, weapon, room);
    if validation.Some? {
      return qs, SuggestionRejected(validation.value);
    }
    var suspectIdx := IndexOf(qs, suspect);
    if suspectIdx.Some? {
      var j := suspectIdx.value;
      qs := qs[j := qs[j].(loc := room)];
    }
    assert qs == Summon(ps, suspect, room);
    var suggesterIdx := IndexOf(qs, suggester);
    SameNamesSameSeat(ps, qs, suggester);
    var si := suggesterIdx.value;
    var found := FindRefuter(qs, si, suspect, weapon, room);
    if found.None? {
      return qs, Unrefuted;
    }
    var checker := qs[Seat(|qs|, si, found.value)];
    var matches := Matches(checker.hand, suspect, weapon, room);
    var shown := ChooseCard(checker.isAi, matches, humanInput, aiPick);
    qs := qs[si := qs[si].(memory := qs[si].memory[shown := checker.name])];
    return qs, Refuted(checker.name, shown);
  }

  /** The body of `handle_accusation` over the envelope and the table of players. */
  method AccuseOnTable(v: Vocabulary, truth: Option<Solution>, ps: seq<Player>, accuser: string,
                       suspect: string, weapon: string, room: string) returns (qs: seq<Player>, outcome: AccusationOutcome)
    requires ValidateVocabulary(v, suspect, weapon, room).None? ==>
      truth.Some? && (truth.value == Solution(suspect, weapon, room) || FindPlayer(ps, accuser).Some?)
    ensures (qs, outcome) == Accuse(v, truth, ps, accuser, suspect, weapon, room)
  {
    qs := ps;
    var validation := ValidateVocabulary(v, suspect, weapon, room);
    if validation.Some? {
      return qs, AccusationRejected(validation.value);
    }
    var t := truth.value;
    var isCorrect := suspect == t.suspect && weapon == t.weapon && room == t.room;
    if isCorrect {
      return qs, Solved;
    }
    var p := IndexOf(ps, accuser);
    var i := p.value;
    qs := ps[i := ps[i].(eliminated := true)];
    return qs, Eliminated;
  }

  /** The distance table of the standard board, as the constructor computes it. */
  method StandardTable() returns (table: DistanceTable)
    ensures IsDistanceTable(RoomConnections, Rooms, table) && StartRoom in Rooms
  {
    BoardWellFormed();
    table := ComputeAllDistances(RoomConnections, Rooms);
    assert Rooms[4] == StartRoom;
  }

  /** How many cards `pops` pops take from a deck of `size` cards. */
  function Popped(size: nat, pops: nat): (n: nat)
    ensures n <= size && n <= pops && (n == pops || n == size)
  {
    if pops <= size then pops else size
  }

  /** The loop of `get_reachable_rooms` over the row, in the order `order` lists the rooms. */
  method CollectReachable(row: map<string, Dist>, order: seq<string>, current: string, roll: int) returns (reachable: seq<string>)
    ensures reachable == ReachableFrom(row, order, current, roll)
  {
    reachable := [];
    for k := 0 to |order|
      invariant reachable == ReachableFrom(row, order[..k], current, roll)
    {
      var room := order[k];
      assert order[..k + 1][..k] == order[..k];
      if room != current && room in row && AtMost(row[room], roll) {
        reachable := reachable + [room];
      }
    }
    assert order[..|order|] == order;
  }

  /** Two tables with the same names in the same seats find everybody in the same seat. */
  lemma SameNamesSameSeat(ps: seq<Player>, qs: seq<Player>, name: string)
    requires |ps| == |qs| && forall i :: 0 <= i < |ps| ==> qs[i].name == ps[i].name
    ensures FindPlayer(qs, name) == FindPlayer(ps, name)
  {
    if ps != [] {
      SameNamesSameSeat(ps[1..], qs[1..], name);
    }
  }

  /** The deal leaves the players valid, with everybody in the start room. */
  lemma SetupSound(rooms: seq<string>, t: Solution, humanName: string, aiNames: seq<string>, shuffled: seq<string>)
    requires StartRoom in rooms
    requires ValidSolution(t) && multiset(shuffled) == multiset(Deck(t))
    requires |aiNames| == PlayerCount - 1 && Distinct(aiNames) && humanName !in aiNames
    ensures PlayersValid(rooms, Some(t), DealtPlayers(humanName, aiNames, shuffled))
  {
    assert Distinct([humanName] + aiNames);
    DealtPlayersSound(t, humanName, aiNames, shuffled);
    DealtInStartRoom(rooms, t, DealtPlayers(humanName, aiNames, shuffled));
  }

  /** A dealt table whose players all stand in the start room keeps the players valid. */
  lemma DealtInStartRoom(rooms: seq<string>, t: Solution, ps: seq<Player>)
    requires StartRoom in rooms && HandsDealt(t, ps)
    requires forall k :: 0 <= k < |ps| ==> ps[k].loc == StartRoom
    ensures PlayersValid(rooms, Some(t), ps)
  {
  }

  /** A move keeps the players valid; the mover stands in a room the table lists. */
  lemma MoveKeepsPlayersValid(table: DistanceTable, rooms: seq<string>, truth: Option<Solution>, ps: seq<Player>,
                              name: string, destination: string, roll: int, pick: nat)
    requires TableOver(rooms, table) && PlayersValid(rooms, truth, ps)
    ensures FindPlayer(ps, name).Some? ==> ps[FindPlayer(ps, name).value].loc in table
    ensures PlayersValid(rooms, truth, Move(table, rooms, ps, name, destination, roll, pick).0)
  {
    var qs := Move(table, rooms, ps, name, destination, roll, pick).0;
    if FindPlayer(ps, name).Some? {
      var i := FindPlayer(ps, name).value;
      MoveTargetOnBoard(table, rooms, ps[i].loc, destination, roll, pick);
      if truth.Some? {
        HandsDealtIgnoresPlaces(truth.value, ps, qs);
      }
    }
  }

  /** A suggestion keeps the players valid. */
  lemma SuggestionKeepsPlayersValid(v: Vocabulary, truth: Option<Solution>, ps: seq<Player>, suggester: string,
                                    suspect: string, weapon: string, room: string, humanInput: Option<int>, aiPick: nat)
    requires PlayersValid(v.rooms, truth, ps)
    requires ValidateVocabulary(v, suspect, weapon, room).None? ==> FindPlayer(ps, suggester).Some?
    ensures ValidateVocabulary(v, suspect, weapon, room).None? ==> truth.Some?
    ensures PlayersValid(v.rooms, truth, Suggest(v, ps, suggester, suspect, weapon, room, humanInput, aiPick).0)
  {
    if truth.Some? {
      SuggestionKeepsTable(v, truth.value, ps, suggester, suspect, weapon, room, humanInput, aiPick);
    }
  }

  /** An accusation keeps the players valid. */
  lemma AccusationKeepsPlayersValid(v: Vocabulary, truth: Option<Solution>, ps: seq<Player>, accuser: string,
                                    suspect: string, weapon: string, room: string)
    requires PlayersValid(v.rooms, truth, ps)
    requires ValidateVocabulary(v, suspect, weapon, room).None? ==>
      truth.Some? && (truth.value == Solution(suspect, weapon, room) || FindPlayer(ps, accuser).Some?)
    ensures PlayersValid(v.rooms, truth, Accuse(v, truth, ps, accuser, suspect, weapon, room).0)
  {
    if truth.Some? {
      AccusationKeepsTable(v, truth.value, ps, accuser, suspect, weapon, room);
    }
  }

  // ---------------------------------------------------------------------------
  // What the engine's distance table says about this board

  /**
   * The table's distances behave as distances: zero from a room to itself,
   * and never more than the cost of going through a third room.
   */
  lemma TableIsMetric(g: Graph, rooms: seq<string>, table: DistanceTable, a: string, b: string, c: string)
    requires IsDistanceTable(g, rooms, table) && a in rooms && b in rooms && c in rooms
    ensures table[a][a] == Fin(0)
    ensures table[a][b].Fin? && table[b][c].Fin? ==> AtMost(table[a][c], table[a][b].n + table[b][c].n)
  {
    ShortestToSelf(g, a, table[a][a]);
    if table[a][b].Fin? && table[b][c].Fin? {
      Triangle(g, a, b, c, table[a][b], table[b][c], table[a][c]);
    }
  }

  /**
   * Concrete entries of the standard board's table: the Kitchen's secret
   * passage makes the Library 7 steps away, and the one-way corridor from the
   * Billiard Room to the Hall makes distances asymmetric (8 one way, 18 the
   * other).
   */
  lemma TableEntries(table: DistanceTable)
    requires IsDistanceTable(RoomConnections, Rooms, table)
    ensures "Kitchen" in table && "Library" in table["Kitchen"] && table["Kitchen"]["Library"] == Fin(7)
    ensures "Billiard Room" in table && "Hall" in table["Billiard Room"] && table["Billiard Room"]["Hall"] == Fin(8)
    ensures "Hall" in table && "Billiard Room" in table["Hall"] && table["Hall"]["Billiard Room"] == Fin(18)
  {
    assert Rooms[0] == "Kitchen" && Rooms[5] == "Hall" && Rooms[7] == "Library" && Rooms[8] == "Billiard Room";
    KitchenToLibrary();
    EntryIsShortest(RoomConnections, Rooms, table, "Kitchen", "Library", Fin(7));
    BilliardRoomToHall();
    EntryIsShortest(RoomConnections, Rooms, table, "Billiard Room", "Hall", Fin(8));
    HallToBilliardRoom();
    EntryIsShortest(RoomConnections, Rooms, table, "Hall", "Billiard Room", Fin(18));
  }

  /** On the standard board no entry of an exact table is `Inf`: every room reaches every other. */
  lemma TableAllFinite(table: DistanceTable)
    requires IsDistanceTable(RoomConnections, Rooms, table)
    ensures forall a, b :: a in table && b in table[a] ==> table[a][b].Fin?
  {
    forall a, b | a in table && b in table[a] ensures table[a][b].Fin? {
      BoardConnected(a, b);
      var p :| IsPathFrom(RoomConnections, p, a, b);
      assert AtMost(table[a][b], PathCost(RoomConnections, p));
    }
  }

  /** A distance table holds, for two rooms, the one shortest distance between them. */
  lemma EntryIsShortest(g: Graph, rooms: seq<string>, table: DistanceTable, a: string, b: string, d: Dist)
    requires IsDistanceTable(g, rooms, table) && a in rooms && b in rooms && IsShortest(g, a, b, d)
    ensures a in table && b in table[a] && table[a][b] == d
  {
    ShortestUnique(g, a, b, table[a][b], d);
  }
}
