# Clue game engine, modelled in Dafny

This project models `ClueGameEngine`, the rules engine of a Clue-style
deduction game for one human and three AI players.

The engine does five things:

- **Distance table.** It builds a shortest-path table over a directed,
  weighted graph of nine rooms. Corridors cost 6 steps and secret passages 1.
  A one-way corridor of 8 steps runs from the Billiard Room to the Hall.
- **Setup.** It hides one suspect, one weapon and one room in the envelope.
  It seats the human in the Lounge with three AI suspects and shuffles the
  other 18 cards. It deals four rounds round-robin, popping from the end of
  the deck, so each player gets four cards and the two cards at the bottom
  of the deck stay undealt. Each player writes each of their cards into
  their own notebook as `"Self"`.
- **Movement.** A player moves to any room within the sum of two dice. A
  destination out of reach falls back to a random reachable room, or the
  player stays put when no room is reachable.
- **Suggestions.** A suggestion brings the named suspect's token into the
  room. The players are then asked clockwise from the suggester. The first
  one holding a named card shows one, and the suggester notes that card
  under the shower's name.
- **Accusations.** A correct accusation wins the game. A wrong one
  eliminates the accuser.

## Modules

- `Options` is the `Option` datatype.
- `Distances` holds the generic shortest-path theory: walks, their cost,
  `IsShortest`, the metric lemmas, and a proved Dijkstra pass
  (`ShortestFrom`) with the all-pairs table built from it
  (`ComputeAllDistances`).
- `Board` holds the word lists and the room graph. It also proves concrete
  distances with hand-computed potentials.
- `Cards` covers the envelope and the deck, and gives a closed form for the
  round-robin deal and its counting facts.
- `Players` has the player record and the lookup by name. It also has the
  suggestion helpers (matching cards, the card shown, the clockwise search)
  and the table invariant that the deal establishes.
- `Rules` has each turn action as a pure transition with its properties:
  `Move`, `ValidateVocabulary`, `Suggest` and `Accuse`.
- `Engine` has the class `ClueGameEngine`. Its fields are those of the source
  object and its methods update them. Each method's algorithm runs as a
  value-level method (`Deal`, `MoveOnTable`, `SuggestOnTable`,
  `AccuseOnTable`, `IndexOf`, `CollectReachable`). Each of these is proved
  equal to the function that specifies it: `DealtPlayers` and `FindPlayer`
  in `Players`; `Move`, `Suggest`, `Accuse` and `ReachableFrom` in `Rules`.

The engine invariant `ClueGameEngine.Valid` is what every method keeps. It
says the distance table is exact for the room graph and the Lounge is a
room. It also requires `PlayersValid`: every player stands in a room; nobody
is seated while the envelope is empty; and once it is filled, the dealt
table holds (`HandsDealt`). A dealt table has four players with distinct
names. No hand holds an envelope card, more than four cards, or a card of
another hand. Every notebook entry is true: the card is in the player's own
hand under `"Self"`, or in the hand of the player it names. Finally, the
game is over exactly when there is a winner. The constructor establishes
`Valid`, and every method requires and ensures it. Each step is proved by
`SetupSound`, `MoveKeepsPlayersValid`, `SuggestionKeepsPlayersValid` and
`AccusationKeepsPlayersValid`.

Randomness and console input are passed in as parameters:

| source | model |
|---|---|
| the envelope triple | `t` |
| the shuffled deck | `shuffled`, a permutation of `Deck(t)` |
| the sampled AI names | `aiNames` |
| the two dice | `d1`, `d2` |
| the random fallback room and the AI's random card | the indices `pick` and `aiPick` |
| the human's typed choice | `humanInput` (`None` when it is not a number) |

An index out of range selects the first element.

The human's choice follows Python's indexing exactly: typing `0` shows the
*last* matching card, because `matches[-1]` is valid Python.

Code paths where the source crashes become preconditions, each applying
only once the vocabulary check has passed; they are listed under
"Left out".

## Model

| member | source | states |
|---|---|---|
| Distances.ExtractMin | src/game_hub/clue/clue_engine.py:61-65 | the room taken next is unsettled and no unsettled room has a smaller tentative distance |
| Distances.RelaxEdges | src/game_hub/clue/clue_engine.py:67-73 | after relaxing the edges out of `u`, every neighbour's distance is at most `dist[u]` plus the edge weight; no distance grows; settled rooms keep theirs; every finite distance is still witnessed by a walk of that cost |
| Distances.SettleAndRelax | src/game_hub/clue/clue_engine.py:61-73 | settling the closest unsettled room and relaxing its edges keeps the Dijkstra invariant: settled distances are shortest, finite ones are witnessed, settled rooms come first |
| Distances.ShortestFrom | src/game_hub/clue/clue_engine.py:57-73 | the pass from `start` gives every room its shortest directed walk cost from `start`, `Inf` exactly when no walk exists |
| Distances.ComputeAllDistances | src/game_hub/clue/clue_engine.py:53-74 | the table has a row for every room, each listing every room, and each entry is the shortest walk cost |
| Distances.ShortestUnique | src/game_hub/clue/clue_engine.py:53-74 | the shortest distance between two rooms is unique |
| Distances.ShortestToSelf | src/game_hub/clue/clue_engine.py:58 | a room's distance to itself is 0 |
| Distances.ShortestAtMostEdge | src/game_hub/clue/clue_engine.py:69-72 | a shortest distance never exceeds a direct corridor's weight |
| Distances.Triangle | src/game_hub/clue/clue_engine.py:53-74 | shortest distances satisfy the triangle inequality |
| Distances.ShortestByPotential | src/game_hub/clue/clue_engine.py:53-74 | a walk whose cost equals the rise of a feasible potential is a shortest one |
| Board.BoardWellFormed | src/game_hub/clue/clue_engine.py:22-38 | the word lists have no repeats; every corridor leads to a room; the graph has exactly one row per room |
| Board.KitchenToLibrary | src/game_hub/clue/clue_engine.py:28-38 | the Kitchen is 7 steps from the Library, through the Study passage |
| Board.BilliardRoomToHall | src/game_hub/clue/clue_engine.py:28-38 | the Billiard Room is 8 steps from the Hall |
| Board.HallToBilliardRoom | src/game_hub/clue/clue_engine.py:28-38 | the Hall is 18 steps from the Billiard Room, so distances are not symmetric |
| Board.BoardConnected | src/game_hub/clue/clue_engine.py:28-38 | every room reaches every room by a walk along the corridors: the graph has a directed cycle through all nine rooms |
| Cards.Without | src/game_hub/clue/clue_engine.py:85-87 | removing the envelope card from a list keeps exactly the other cards and one fewer when it was there |
| Cards.CategoriesDisjoint | src/game_hub/clue/clue_engine.py:22-24 | no word is both a suspect and a weapon or room, nor both a weapon and a room |
| Cards.DeckContents | src/game_hub/clue/clue_engine.py:84-88 | the deck holds 18 distinct cards, exactly the cards not in the envelope |
| Cards.PermutationDistinct | src/game_hub/clue/clue_engine.py:89 | shuffling keeps the deck's size and its lack of repeats |
| Cards.DealtCount | src/game_hub/clue/clue_engine.py:122-125 | seat `k` is served in round `r` exactly when the deck still has a card for it |
| Cards.DealtHandStep | src/game_hub/clue/clue_engine.py:123-126 | one more round appends to seat `k` the card popped for it, if any |
| Cards.DealSizes | src/game_hub/clue/clue_engine.py:120-128 | with 18 distinct cards every player receives exactly 4 distinct cards |
| Cards.DealDisjoint | src/game_hub/clue/clue_engine.py:122-128 | no card is dealt to two players |
| Cards.DealCovers | src/game_hub/clue/clue_engine.py:122-130 | dealt cards come from the top 16 of the deck, and every one of those is dealt; the bottom 2 stay unused |
| Players.FindPlayer | src/game_hub/clue/clue_engine.py:137-141 | the first seat holding the name, or none when no player has it |
| Players.Matches | src/game_hub/clue/clue_engine.py:216 | a card is a match exactly when it is in the hand and is one of the three named; there are no more matches than cards in the hand |
| Players.ChooseCard | src/game_hub/clue/clue_engine.py:222-234 | the shown card is one of the matches: for the human, number `n` from 1 to the count shows match `n`; 0 and the negative numbers above minus the count count back from the end (0 shows the last match); a non-number or any other number shows the first; the AI shows the match its pick designates |
| Players.RefutingOffset | src/game_hub/clue/clue_engine.py:211-218 | the first clockwise offset whose player holds a named card; none means nobody in range does |
| Players.FindRefuter | src/game_hub/clue/clue_engine.py:211-218 | the clockwise loop returns exactly that first refuting offset |
| Players.OffsetsVisitOthers | src/game_hub/clue/clue_engine.py:211-213 | offsets 1 to n-1 visit every seat but the suggester's, each once |
| Players.RefuterIsAnotherPlayer | src/game_hub/clue/clue_engine.py:211-244 | the refuter is never the suggester; without a refuter no other player holds a named card |
| Players.SelfMemory | src/game_hub/clue/clue_engine.py:128 | a dealt notebook records exactly the hand's cards, each as `"Self"` |
| Players.NothingDealtYet | src/game_hub/clue/clue_engine.py:94-118 | before the deal every seated player has an empty hand and notebook |
| Players.DealStep | src/game_hub/clue/clue_engine.py:123-128 | serving one seat pops the next card into that hand and notebook and changes nothing else |
| Players.RoundDone | src/game_hub/clue/clue_engine.py:122-123 | after the last seat of a round the next round begins |
| Players.NotebookAvoidsSolution | src/game_hub/clue/clue_engine.py:128 | in a dealt game no notebook ever records an envelope card |
| Players.HandsDealtIgnoresPlaces | src/game_hub/clue/clue_engine.py:171 | moving tokens or eliminating players keeps the table invariant |
| Players.NotingKeepsHandsDealt | src/game_hub/clue/clue_engine.py:237 | noting a card another player holds, under that player's name, keeps the table invariant |
| Players.Seated | src/game_hub/clue/clue_engine.py:94-118 | four seats: the human first and not an AI, then the AI players in draw order; everybody in the Lounge, not eliminated, with an empty hand and notebook |
| Players.PartlyDealt | src/game_hub/clue/clue_engine.py:120-128 | part-way through the deal only hands and notebooks differ from the seated table; each seat holds as many cards as its rounds found in the deck, every one noted as its own |
| Players.DealtPlayers | src/game_hub/clue/clue_engine.py:94-128 | after the deal the human sits first and the AIs follow; everybody is in the Lounge, not eliminated, holding the cards popped for that seat, all noted as their own |
| Players.FreshTableDealt | src/game_hub/clue/clue_engine.py:120-128 | distinct names and small, disjoint hands outside the envelope, each noted as own, make the table invariant |
| Players.ShuffledDeck | src/game_hub/clue/clue_engine.py:84-89 | the shuffled deck has 18 distinct cards, none in the envelope, including every other card |
| Players.DealtPlayersSound | src/game_hub/clue/clue_engine.py:76-130 | the deal establishes the table invariant, gives every player 4 cards in the Lounge, and deals every card above the bottom 2 |
| Rules.ReachableFrom | src/game_hub/clue/clue_engine.py:156-158 | a room is kept exactly when it is listed, not the current room, and within the roll |
| Rules.ReachableRooms | src/game_hub/clue/clue_engine.py:150-159 | the reachable rooms are exactly the rooms other than the current one within the roll; none for a room without a row |
| Rules.SmallerRollFilters | src/game_hub/clue/clue_engine.py:156-158 | filtering a larger roll's reachable list by a smaller roll gives the smaller roll's list |
| Rules.ReachableGrowsWithRoll | src/game_hub/clue/clue_engine.py:150-159 | the rooms a roll reaches are a sub-list of those any larger roll reaches |
| Rules.ReachableMeansWalk | src/game_hub/clue/clue_engine.py:150-159 | with an exact table, a room is reachable exactly when some walk of at most the roll leads there |
| Rules.MoveTarget | src/game_hub/clue/clue_engine.py:168-182 | a destination within the roll is taken; otherwise a reachable room or nothing, nothing exactly when no room is within the roll |
| Rules.MoveTargetOnBoard | src/game_hub/clue/clue_engine.py:170-178 | a move always ends in one of the rooms |
| Rules.Move | src/game_hub/clue/clue_engine.py:161-182 | unknown player: nothing changes; only the mover's location changes, to a room within the roll; a requested room within reach becomes the mover's location and is reported as a move from the old location; otherwise the report names the old location and the random room now occupied, which is within reach; nobody moves when nothing is reachable and the report names the room stayed in |
| Rules.ValidateVocabulary | src/game_hub/clue/clue_engine.py:184-192 | rejected exactly when a word is unknown, naming the suspect first, then the weapon, then the room |
| Rules.Summon | src/game_hub/clue/clue_engine.py:200-203 | only the token of the player named as the suspect moves, and it moves into the suggested room |
| Rules.Suggest | src/game_hub/clue/clue_engine.py:194-244 | rejected exactly for an unknown word, and then nothing changes; otherwise the named suspect's token is in the suggested room and nobody else moves; names, hands, AI flags and eliminations never change; only the suggester's notebook may change, and none changes when nobody refutes |
| Rules.SuggestionAnswer | src/game_hub/clue/clue_engine.py:211-244 | without a refutation no other player holds a named card; a refutation shows a named card that another player holds and notes it under that player's name |
| Rules.RefuterIsNearest | src/game_hub/clue/clue_engine.py:211-218 | every player the search passes over before the refuter holds none of the named cards |
| Rules.SuggestionKeepsTable | src/game_hub/clue/clue_engine.py:236-237 | a suggestion keeps the table invariant |
| Rules.Accuse | src/game_hub/clue/clue_engine.py:246-267 | a known triple wins exactly when it equals the envelope; a wrong one eliminates only the accuser; a rejected one changes nothing |
| Rules.NotedCardLosesAccusation | src/game_hub/clue/clue_engine.py:254-258 | accusing with a card some notebook records never wins |
| Rules.AccusationKeepsTable | src/game_hub/clue/clue_engine.py:264-266 | an accusation keeps the table invariant |
| Engine.ClueGameEngine.constructor | src/game_hub/clue/clue_engine.py:21-51 | the standard board with an exact distance table, no envelope, nobody seated, roll 0, game not over |
| Engine.ClueGameEngine.SetupGame | src/game_hub/clue/clue_engine.py:76-130 | fills the envelope and seats the dealt table, keeping the engine invariant |
| Engine.ClueGameEngine.GetPlayerByName | src/game_hub/clue/clue_engine.py:137-141 | the first seat holding the name, or none |
| Engine.ClueGameEngine.StartTurn | src/game_hub/clue/clue_engine.py:143-148 | the roll is the dice sum, between 2 and 12, and is kept for the turn; nothing else changes |
| Engine.ClueGameEngine.GetReachableRooms | src/game_hub/clue/clue_engine.py:150-159 | exactly the reachable rooms in board order |
| Engine.ClueGameEngine.MovePlayer | src/game_hub/clue/clue_engine.py:161-182 | the players become those of `Move` with the turn's roll; roll, turn, envelope and game state are unchanged; the invariant holds |
| Engine.ClueGameEngine.HandleSuggestion | src/game_hub/clue/clue_engine.py:194-244 | the players and report are those of `Suggest`; nothing else changes; the invariant holds |
| Engine.ClueGameEngine.HandleAccusation | src/game_hub/clue/clue_engine.py:246-267 | the players and report are those of `Accuse`; the game ends with the accuser as winner exactly on a correct accusation |
| Engine.IndexOf | src/game_hub/clue/clue_engine.py:137-141 | the loop finds the first seat holding the name |
| Engine.Deal | src/game_hub/clue/clue_engine.py:120-128 | the nested deal loops produce exactly the dealt table |
| Engine.MoveOnTable | src/game_hub/clue/clue_engine.py:161-182 | the body of the move computes `Move` |
| Engine.SuggestOnTable | src/game_hub/clue/clue_engine.py:194-244 | the body of the suggestion computes `Suggest` |
| Engine.AccuseOnTable | src/game_hub/clue/clue_engine.py:246-267 | the body of the accusation computes `Accuse` |
| Engine.CollectReachable | src/game_hub/clue/clue_engine.py:152-159 | the filtering loop computes the reachable list |
| Engine.StandardTable | src/game_hub/clue/clue_engine.py:28-41 | the table computed for the standard board is exact |
| Engine.SameNamesSameSeat | src/game_hub/clue/clue_engine.py:201-208 | moving the suspect's token does not change where the suggester sits |
| Engine.SetupSound | src/game_hub/clue/clue_engine.py:76-128 | the deal leaves every player in a room with the table invariant |
| Engine.MoveKeepsPlayersValid | src/game_hub/clue/clue_engine.py:161-182 | a move keeps every player in a room and keeps the table invariant |
| Engine.SuggestionKeepsPlayersValid | src/game_hub/clue/clue_engine.py:194-244 | a suggestion keeps every player in a room and keeps the table invariant |
| Engine.AccusationKeepsPlayersValid | src/game_hub/clue/clue_engine.py:246-267 | an accusation keeps every player in a room and keeps the table invariant |
| Engine.TableIsMetric | src/game_hub/clue/clue_engine.py:53-74 | in the engine's table every room is 0 from itself, and the triangle inequality holds |
| Engine.EntryIsShortest | src/game_hub/clue/clue_engine.py:53-74 | the table's entry for two rooms is their one shortest distance |
| Engine.TableEntries | src/game_hub/clue/clue_engine.py:28-38 | the standard table has Kitchen to Library 7, Billiard Room to Hall 8 and Hall to Billiard Room 18 |
| Engine.TableAllFinite | src/game_hub/clue/clue_engine.py:55-73 | no entry of the standard board's exact table stays at the initial `inf`: every distance is finite |

## Left out

- The `crewai` import guard, `sys.exit` and every `print` are I/O. The
  global `game` instance is also left out; the model constructs an engine
  explicitly.
- `ClueTools` and `run_clue_game` are agent orchestration, console I/O and
  sleeps, together with the `logs` list they append to. This includes the
  game loop that skips eliminated players and advances `turn_index`, so the
  engine only carries `turnIndex` and never changes it, as the engine itself
  never does.
- The player record's `agent` field is an external object and is not
  modelled.
- Result strings are replaced by outcome datatypes. These carry the rooms
  of a move, the unknown word of a rejection, and the refuter and card of a
  refutation. They leave out the caller's own name, the distance, the roll
  and the wording. Both refutation wordings (lines 240 and 242) become the
  one `Refuted` case.
- The heap of the Dijkstra pass is replaced by a linear scan for the closest
  unsettled room. Rooms with equal distances may be settled in another
  order; the table is the same, since shortest distances are unique.
- `float('inf')` is the `Inf` case of `Dist`.
- Engine.ClueGameEngine.SetupGame: the random envelope, shuffle and sample
  are not modelled as draws. The method takes their results and requires
  what they guarantee: a triple from the lists, a permutation of that deck,
  and three distinct other suspects.
- The player dicts, which the source mutates in place, are values in
  `players`. Each update writes the changed record back at its index. The
  dicts are reachable only through that list, so no aliasing is lost.
- Engine.ClueGameEngine.MovePlayer: `random.choice` over the reachable
  rooms is an index `pick` chosen by the caller; an index out of range means
  the first room.
- Engine.ClueGameEngine.HandleSuggestion: `random.choice` over an AI
  refuter's matches is an index `aiPick` chosen by the caller, passed on to
  `ChooseCard`; an index out of range means the first match.
- A suggestion by a name no player has is a precondition of `Suggest`.
  The source summons the suspect's token (clue_engine.py:201-203) and only
  then raises `StopIteration` at `next(...)` (line 208), so the summons
  survives the crash; the model does not capture that partial effect.
- An accusation before `setup_game` is a precondition of `Accuse`: the
  source raises `KeyError` on the empty `truth` dict (lines 254-258).
- A wrong accusation by a name no player has is a precondition of
  `Accuse`: the source raises `TypeError` on `None["eliminated"]` (line 266).
- The envelope being a triple from the word lists is required by
  `SetupGame`, but it is not part of the engine invariant `Valid`. The
  invariant keeps the facts about hands and notebooks relative to the
  envelope.
