/**
 * Players and the rules that act on them: lookup by name, the cards of a hand
 * that match a suggestion, the card a refuting player chooses to show, the
 * clockwise refutation search, and the invariant the deal establishes and every
 * later operation keeps.
 */
module Players {
  import opened Options
  import opened Board
  import opened Cards

  /** The notebook source recorded for a card the player holds. */
  const SelfSource := "Self"

  /** Every player starts the game in the Lounge. */
  const StartRoom := "Lounge"

  /**
   * A seat at the table. `memory` is the player's notebook: card to the
   * source it was learnt from (`SelfSource` or the name of the player who
   * showed it).
   */
  datatype Player = Player(
    name: string,
    isAi: bool,
    hand: seq<string>,
    loc: string,
    eliminated: bool,
    memory: map<string, string>)

  /** The index of the first player called `name`, if any. */
  function FindPlayer(ps: seq<Player>, name: string): (r: Option<nat>)
    ensures r.Some? ==> r.value < |ps| && ps[r.value].name == name
    ensures r.Some? ==> forall j :: 0 <= j < r.value ==> ps[j].name != name
    ensures r.None? ==> forall j :: 0 <= j < |ps| ==> ps[j].name != name
  {
    if ps == [] then None
    else if ps[0].name == name then Some(0)
    else match FindPlayer(ps[1..], name)
      case None => None
      case Some(i) => Some(i + 1)
  }

  // ---------------------------------------------------------------------------
  // Suggestions

  /** `c` is one of the three cards named in a suggestion. */
  predicate Named(c: string, suspect: string, weapon: string, room: string) {
    c == suspect || c == weapon || c == room
  }

  /** `[c for c in hand if c in [suspect, weapon, room]]` */
  function Matches(hand: seq<string>, suspect: string, weapon: string, room: string): (m: seq<string>)
    ensures forall c :: c in m <==> c in hand && Named(c, suspect, weapon, room)
    ensures |m| <= |hand|
  {
    if hand == [] then []
    else (if Named(hand[0], suspect, weapon, room) then [hand[0]] else []) + Matches(hand[1..], suspect, weapon, room)
  }

  /** Python's `s[i]`, which counts from the end for a negative `i`, or `s[0]` where it would raise. */
  function PyIndexOrFirst(s: seq<string>, i: int): (c: string)
    requires s != []
    ensures c in s
    ensures 0 <= i < |s| ==> c == s[i]
    ensures -|s| <= i < 0 ==> c == s[|s| + i]
    ensures (i < -|s| || |s| <= i) ==> c == s[0]
  {
    if 0 <= i < |s| then s[i]
    else if -|s| <= i < 0 then s[|s| + i]
    else s[0]
  }

  /**
   * The card a refuting player shows. A human types a number `n` and shows
   * `matches[n - 1]` (Python indexing, so 0 and negative numbers count from
   * the end); input that is not a number (`None`) or out of range shows the
   * first match. An AI player shows the match its random pick designates.
   */
  function ChooseCard(isAi: bool, matches: seq<string>, humanInput: Option<int>, aiPick: nat): (c: string)
    requires matches != []
    ensures c in matches
    ensures isAi && aiPick < |matches| ==> c == matches[aiPick]
    ensures !isAi && humanInput.None? ==> c == matches[0]
    ensures !isAi && humanInput.Some? && 1 <= humanInput.value <= |matches| ==> c == matches[humanInput.value - 1]
    ensures !isAi && humanInput.Some? && -|matches| < humanInput.value <= 0 ==> c == matches[|matches| + humanInput.value - 1]
    ensures !isAi && humanInput == Some(0) ==> c == matches[|matches| - 1]
    ensures !isAi && humanInput.Some? && (humanInput.value <= -|matches| || |matches| < humanInput.value) ==> c == matches[0]
  {
    if isAi then
      if aiPick < |matches| then matches[aiPick] else matches[0]
    else
      match humanInput
      case None => matches[0]
      case Some(n) => PyIndexOrFirst(matches, n - 1)
  }

  /** The player `o` seats clockwise from seat `si`. */
  function Seat(n: nat, si: nat, o: nat): (j: nat)
    requires si < n
    ensures j < n
  {
    (si + o) % n
  }

  /** The player `o` seats after the suggester holds a card named in the suggestion. */
  predicate RefutesAt(ps: seq<Player>, si: nat, o: nat, suspect: string, weapon: string, room: string)
    requires si < |ps|
  {
    Matches(ps[Seat(|ps|, si, o)].hand, suspect, weapon, room) != []
  }

  /**
   * The clockwise search: the first offset `o` from `from` up to `|ps| - 1`
   * whose player can refute, or `None` if nobody in that range can.
   */
  function RefutingOffset(ps: seq<Player>, si: nat, suspect: string, weapon: string, room: string, from: nat): (r: Option<nat>)
    requires si < |ps|
    ensures r.Some? ==> from <= r.value < |ps| && RefutesAt(ps, si, r.value, suspect, weapon, room)
    ensures r.Some? ==> forall o :: from <= o < r.value ==> !RefutesAt(ps, si, o, suspect, weapon, room)
    ensures r.None? ==> forall o :: from <= o < |ps| ==> !RefutesAt(ps, si, o, suspect, weapon, room)
    decreases |ps| - from
  {
    if from >= |ps| then None
    else if RefutesAt(ps, si, from, suspect, weapon, room) then Some(from)
    else RefutingOffset(ps, si, suspect, weapon, room, from + 1)
  }

  /**
   * The loop `for i in range(1, len(players))` of the suggestion: the offset
   * of the first player clockwise from the suggester holding a named card.
   */
  method FindRefuter(ps: seq<Player>, si: nat, suspect: string, weapon: string, room: string) returns (found: Option<nat>)
    requires si < |ps|
    ensures found == RefutingOffset(ps, si, suspect, weapon, room, 1)
  {
    var i := 1;
    while i < |ps|
      invariant 1 <= i
      invariant RefutingOffset(ps, si, suspect, weapon, room, i) == RefutingOffset(ps, si, suspect, weapon, room, 1)
    {
      var checker := ps[Seat(|ps|, si, i)];
      var matches := Matches(checker.hand, suspect, weapon, room);
      if matches != [] {
        return Some(i);
      }
      i := i + 1;
    }
    return None;
  }

  /** Within one lap of the table, the seat arithmetic wraps at most once. */
  lemma SeatOneLap(n: nat, si: nat, o: nat)
    requires si < n && o < n
    ensures Seat(n, si, o) == if si + o < n then si + o else si + o - n
  {
    if si + o >= n {
      assert si + o == n + (si + o - n);
    }
  }

  /** The offset at which the search starting after seat `si` reaches seat `j`. */
  function OffsetOf(n: nat, si: nat, j: nat): nat
    requires si < n && j < n
  {
    if j > si then j - si else n - si + j
  }

  /** Offsets 1 to n - 1 visit exactly the other players, each once. */
  lemma OffsetsVisitOthers(n: nat, si: nat)
    requires si < n
    ensures forall o :: 1 <= o < n ==> Seat(n, si, o) != si
    ensures forall j :: 0 <= j < n && j != si ==> 1 <= OffsetOf(n, si, j) < n && Seat(n, si, OffsetOf(n, si, j)) == j
    ensures forall o1, o2 :: 1 <= o1 < o2 < n ==> Seat(n, si, o1) != Seat(n, si, o2)
  {
    forall o | 1 <= o < n ensures Seat(n, si, o) != si {
      SeatOneLap(n, si, o);
    }
    forall j | 0 <= j < n && j != si ensures 1 <= OffsetOf(n, si, j) < n && Seat(n, si, OffsetOf(n, si, j)) == j {
      SeatOneLap(n, si, OffsetOf(n, si, j));
    }
    forall o1, o2 | 1 <= o1 < o2 < n ensures Seat(n, si, o1) != Seat(n, si, o2) {
      SeatOneLap(n, si, o1);
      SeatOneLap(n, si, o2);
    }
  }

  /** The refuter, if any, is never the suggester; if none, no other player holds a named card. */
  lemma RefuterIsAnotherPlayer(ps: seq<Player>, si: nat, suspect: string, weapon: string, room: string)
    requires si < |ps|
    ensures match RefutingOffset(ps, si, suspect, weapon, room, 1)
      case Some(o) => Seat(|ps|, si, o) != si
      case None => forall j :: 0 <= j < |ps| && j != si ==> Matches(ps[j].hand, suspect, weapon, room) == []
  {
    OffsetsVisitOthers(|ps|, si);
    if RefutingOffset(ps, si, suspect, weapon, room, 1).None? {
      forall j | 0 <= j < |ps| && j != si ensures Matches(ps[j].hand, suspect, weapon, room) == [] {
        assert !RefutesAt(ps, si, OffsetOf(|ps|, si, j), suspect, weapon, room);
      }
    }
  }

  // ---------------------------------------------------------------------------
  // Seating and dealing

  /** The notebook entries for a freshly dealt hand: every card learnt from `SelfSource`. */
  function SelfMemory(hand: seq<string>): (m: map<string, string>)
    ensures forall c :: c in m <==> c in hand
    ensures forall c :: c in m ==> m[c] == SelfSource
  {
    map c | c in hand :: SelfSource
  }

  /** The table before the deal: the human first, then the AI players in the order they were drawn. */
  function Seated(humanName: string, aiNames: seq<string>): (ps: seq<Player>)
    requires |aiNames| == PlayerCount - 1
    ensures |ps| == PlayerCount
    ensures forall k :: 0 <= k < |ps| ==>
      ps[k].name == ([humanName] + aiNames)[k] && ps[k].isAi == (k != 0) &&
      ps[k].hand == [] && ps[k].memory == map[] && ps[k].loc == StartRoom && !ps[k].eliminated
  {
    [Player(humanName, false, [], StartRoom, false, map[])] +
    seq(PlayerCount - 1, k requires 0 <= k < PlayerCount - 1 => Player(aiNames[k], true, [], StartRoom, false, map[]))
  }

  /**
   * The table part-way through the deal: the players before seat `k` have
   * been served `rounds + 1` rounds, the others `rounds`.
   */
  function PartlyDealt(seated: seq<Player>, deck: seq<string>, rounds: nat, k: nat): (ps: seq<Player>)
    ensures |ps| == |seated|
    ensures forall j :: 0 <= j < |ps| ==>
      ps[j] == seated[j].(hand := ps[j].hand, memory := ps[j].memory) &&
      |ps[j].hand| == DealtCount(|deck|, j, if j < k then rounds + 1 else rounds) &&
      ps[j].memory == SelfMemory(ps[j].hand)
  {
    seq(|seated|, j requires 0 <= j < |seated| =>
      var h := DealtHand(deck, j, if j < k then rounds + 1 else rounds);
      seated[j].(hand := h, memory := SelfMemory(h)))
  }

  /**
   * The table after the whole deal of `HandLimit` rounds from the shuffled
   * deck: the human sits first and the AIs follow, everybody in the Lounge,
   * not eliminated, holding the dealt hand with all of it noted as their own.
   */
  function DealtPlayers(humanName: string, aiNames: seq<string>, deck: seq<string>): (ps: seq<Player>)
    requires |aiNames| == PlayerCount - 1
    ensures |ps| == PlayerCount
    ensures forall k :: 0 <= k < PlayerCount ==>
      ps[k].name == ([humanName] + aiNames)[k] && ps[k].isAi == (k != 0) &&
      ps[k].hand == DealtHand(deck, k, HandLimit) && ps[k].memory == SelfMemory(ps[k].hand) &&
      ps[k].loc == StartRoom && !ps[k].eliminated
  {
    PartlyDealt(Seated(humanName, aiNames), deck, HandLimit, 0)
  }

  /** Before the first card is popped the partly dealt table is the seated one. */
  lemma NothingDealtYet(humanName: string, aiNames: seq<string>, deck: seq<string>)
    requires |aiNames| == PlayerCount - 1
    ensures PartlyDealt(Seated(humanName, aiNames), deck, 0, 0) == Seated(humanName, aiNames)
  {
    var seated := Seated(humanName, aiNames);
    forall j | 0 <= j < |seated| ensures PartlyDealt(seated, deck, 0, 0)[j] == seated[j] {
      assert DealtHand(deck, j, 0) == [];
      assert SelfMemory([]) == map[];
    }
  }

  /** A notebook that records one more card of the player's own hand. */
  lemma SelfMemoryAppend(hand: seq<string>, c: string)
    ensures SelfMemory(hand + [c]) == SelfMemory(hand)[c := SelfSource]
  {
  }

  /**
   * Serving seat `k` in round `rounds`: if the deck still holds a card, its
   * top card goes into that player's hand and notebook; nothing else changes.
   */
  lemma DealStep(seated: seq<Player>, deck: seq<string>, rounds: nat, k: nat)
    requires k < |seated| == PlayerCount
    ensures var ps := PartlyDealt(seated, deck, rounds, k);
      var t := PlayerCount * rounds + k;
      PartlyDealt(seated, deck, rounds, k + 1) ==
        if t < |deck| then
          var c := deck[|deck| - 1 - t];
          ps[k := ps[k].(hand := ps[k].hand + [c], memory := ps[k].memory[c := SelfSource])]
        else ps
  {
    DealtHandStep(deck, k, rounds);
    var t := PlayerCount * rounds + k;
    if t < |deck| {
      SelfMemoryAppend(DealtHand(deck, k, rounds), deck[|deck| - 1 - t]);
    }
  }

  /** After the last seat of a round the next round begins. */
  lemma RoundDone(seated: seq<Player>, deck: seq<string>, rounds: nat)
    requires |seated| == PlayerCount
    ensures PartlyDealt(seated, deck, rounds, PlayerCount) == PartlyDealt(seated, deck, rounds + 1, 0)
  {
  }

  // ---------------------------------------------------------------------------
  // The table invariant

  /**
   * How player `i` learnt card `c`: from their own hand, or from another
   * player, recorded by name, who holds it.
   */
  ghost predicate Learnt(ps: seq<Player>, i: nat, c: string)
    requires i < |ps| && c in ps[i].memory
  {
    (ps[i].memory[c] == SelfSource && c in ps[i].hand) ||
    exists j :: 0 <= j < |ps| && j != i && ps[j].name == ps[i].memory[c] && c in ps[j].hand
  }

  predicate NamesDistinct(ps: seq<Player>) {
    forall i, j :: 0 <= i < j < |ps| ==> ps[i].name != ps[j].name
  }

  predicate HandsSmall(ps: seq<Player>) {
    forall i :: 0 <= i < |ps| ==> |ps[i].hand| <= HandLimit && Distinct(ps[i].hand)
  }

  /** Every card of `hand` is a game card outside the envelope. */
  predicate OutsideEnvelope(t: Solution, hand: seq<string>) {
    forall c :: c in hand ==> IsCard(c) && !InSolution(t, c)
  }

  /** No hand holds a card of the envelope. */
  predicate HandsAvoid(t: Solution, ps: seq<Player>) {
    forall i :: 0 <= i < |ps| ==> OutsideEnvelope(t, ps[i].hand)
  }

  /** No card is in two hands. */
  predicate HandsDisjoint(ps: seq<Player>) {
    forall i, j, c :: 0 <= i < |ps| && 0 <= j < |ps| && i != j && c in ps[i].hand ==> c !in ps[j].hand
  }

  /** Each player's own cards are in their notebook as `SelfSource`. */
  predicate OwnCardsNoted(ps: seq<Player>) {
    forall i, c :: 0 <= i < |ps| && c in ps[i].hand ==> c in ps[i].memory && ps[i].memory[c] == SelfSource
  }

  /** Every notebook entry is true. */
  ghost predicate NotebooksTrue(ps: seq<Player>) {
    forall i, c :: 0 <= i < |ps| && c in ps[i].memory ==> Learnt(ps, i, c)
  }

  /**
   * The table once the cards are dealt for solution `t`: four players with
   * distinct names; no hand holds an envelope card or more than four cards;
   * no card is in two hands; each player's own cards are in their notebook as
   * `SelfSource`, and every notebook entry is true.
   */
  ghost predicate HandsDealt(t: Solution, ps: seq<Player>) {
    |ps| == PlayerCount && NamesDistinct(ps) && HandsSmall(ps) && HandsAvoid(t, ps) &&
    HandsDisjoint(ps) && OwnCardsNoted(ps) && NotebooksTrue(ps)
  }

  /** What a notebook records is never one of the envelope's cards. */
  lemma NotebookAvoidsSolution(t: Solution, ps: seq<Player>)
    requires HandsDealt(t, ps)
    ensures forall i, c :: 0 <= i < |ps| && c in ps[i].memory ==> IsCard(c) && !InSolution(t, c)
  {
    forall i, c | 0 <= i < |ps| && c in ps[i].memory ensures IsCard(c) && !InSolution(t, c) {
      assert Learnt(ps, i, c);
    }
  }

  /** The invariant reads only names, hands and notebooks: moving or eliminating players keeps it. */
  lemma HandsDealtIgnoresPlaces(t: Solution, ps: seq<Player>, qs: seq<Player>)
    requires HandsDealt(t, ps) && |ps| == |qs|
    requires forall i :: 0 <= i < |ps| ==>
      qs[i].name == ps[i].name && qs[i].hand == ps[i].hand && qs[i].memory == ps[i].memory
    ensures HandsDealt(t, qs)
  {
    assert forall i, j :: 0 <= i < j < |qs| ==> qs[i].name != qs[j].name by {
      forall i, j | 0 <= i < j < |qs| ensures qs[i].name != qs[j].name {
        assert ps[i].name != ps[j].name;
      }
    }
    assert HandsDisjoint(qs) by {
      forall i, j, c | 0 <= i < |qs| && 0 <= j < |qs| && i != j && c in qs[i].hand ensures c !in qs[j].hand {
        assert c in ps[i].hand;
      }
    }
    assert HandsSmall(qs) by {
      forall i | 0 <= i < |qs| ensures |qs[i].hand| <= HandLimit && Distinct(qs[i].hand) {
        assert qs[i].hand == ps[i].hand;
      }
    }
    assert HandsAvoid(t, qs) by {
      forall i | 0 <= i < |qs| ensures OutsideEnvelope(t, qs[i].hand) {
        assert qs[i].hand == ps[i].hand;
      }
    }
    assert OwnCardsNoted(qs) by {
      forall i, c | 0 <= i < |qs| && c in qs[i].hand ensures c in qs[i].memory && qs[i].memory[c] == SelfSource {
        assert c in ps[i].hand;
      }
    }
    forall i, c | 0 <= i < |qs| && c in qs[i].memory ensures Learnt(qs, i, c) {
      assert Learnt(ps, i, c);
      if !(ps[i].memory[c] == SelfSource && c in ps[i].hand) {
        var j :| 0 <= j < |ps| && j != i && ps[j].name == ps[i].memory[c] && c in ps[j].hand;
        assert qs[j].name == qs[i].memory[c] && c in qs[j].hand;
      }
    }
  }

  /**
   * The suggester `si` noting that player `j` showed card `c`, which `j`
   * holds, keeps every notebook true.
   */
  lemma NotingKeepsHandsDealt(t: Solution, ps: seq<Player>, si: nat, j: nat, c: string)
    requires HandsDealt(t, ps) && si < |ps| && j < |ps| && si != j && c in ps[j].hand
    ensures HandsDealt(t, ps[si := ps[si].(memory := ps[si].memory[c := ps[j].name])])
  {
    var qs := ps[si := ps[si].(memory := ps[si].memory[c := ps[j].name])];
    forall i, c' | 0 <= i < |qs| && c' in qs[i].memory ensures Learnt(qs, i, c') {
      if i == si && c' == c {
        assert qs[j].name == qs[i].memory[c] && c in qs[j].hand;
      } else {
        assert Learnt(ps, i, c');
        if !(ps[i].memory[c'] == SelfSource && c' in ps[i].hand) {
          var j' :| 0 <= j' < |ps| && j' != i && ps[j'].name == ps[i].memory[c'] && c' in ps[j'].hand;
          assert qs[j'].name == qs[i].memory[c'] && c' in qs[j'].hand;
        }
      }
    }
  }

  /** A table of fresh notebooks, distinct names and disjoint hands free of envelope cards satisfies the invariant. */
  lemma FreshTableDealt(t: Solution, ps: seq<Player>)
    requires |ps| == PlayerCount
    requires forall i, j :: 0 <= i < j < |ps| ==> ps[i].name != ps[j].name
    requires forall i :: 0 <= i < |ps| ==> |ps[i].hand| <= HandLimit && Distinct(ps[i].hand)
    requires HandsAvoid(t, ps)
    requires forall i, j, c :: 0 <= i < |ps| && 0 <= j < |ps| && i != j && c in ps[i].hand ==> c !in ps[j].hand
    requires forall i :: 0 <= i < |ps| ==> ps[i].memory == SelfMemory(ps[i].hand)
    ensures HandsDealt(t, ps)
  {
    assert OwnCardsNoted(ps);
    forall i, c | 0 <= i < |ps| && c in ps[i].memory ensures Learnt(ps, i, c) {
    }
  }

  /** A shuffle of the deck holds 18 distinct cards, exactly those outside the envelope. */
  lemma ShuffledDeck(t: Solution, deck: seq<string>)
    requires ValidSolution(t) && multiset(deck) == multiset(Deck(t))
    ensures |deck| == 18 && Distinct(deck) && OutsideEnvelope(t, deck)
    ensures forall c :: IsCard(c) && !InSolution(t, c) ==> c in deck
  {
    DeckContents(t);
    PermutationDistinct(Deck(t), deck);
    forall c | c in deck ensures IsCard(c) && !InSolution(t, c) {
      assert c in multiset(deck);
    }
    forall c | IsCard(c) && !InSolution(t, c) ensures c in deck {
      assert c in multiset(Deck(t));
    }
  }

  /**
   * The deal from a shuffle of the deck seats four players in the Lounge with
   * four cards each and sets up the table invariant; the cards above the two
   * at the bottom of the deck are all dealt.
   */
  lemma DealtPlayersSound(t: Solution, humanName: string, aiNames: seq<string>, deck: seq<string>)
    requires ValidSolution(t) && multiset(deck) == multiset(Deck(t))
    requires |aiNames| == PlayerCount - 1 && Distinct([humanName] + aiNames)
    ensures var ps := DealtPlayers(humanName, aiNames, deck);
      HandsDealt(t, ps) &&
      (forall k :: 0 <= k < PlayerCount ==>
        |ps[k].hand| == HandLimit && ps[k].loc == StartRoom && !ps[k].eliminated) &&
      (forall m :: 2 <= m < |deck| ==> exists k :: 0 <= k < PlayerCount && deck[m] in ps[k].hand)
  {
    var ps := DealtPlayers(humanName, aiNames, deck);
    ShuffledDeck(t, deck);
    DealSizes(deck);
    DealDisjoint(deck);
    DealCovers(deck);
    assert NamesDistinct(ps);
    forall k | 0 <= k < PlayerCount ensures OutsideEnvelope(t, ps[k].hand) {
      forall c | c in ps[k].hand ensures IsCard(c) && !InSolution(t, c) {
        assert c in deck[2..];
        assert c in deck;
      }
    }
    FreshTableDealt(t, ps);
    forall m | 2 <= m < |deck| ensures exists k :: 0 <= k < PlayerCount && deck[m] in ps[k].hand {
      var k := (|deck| - 1 - m) % PlayerCount;
      assert deck[m] in ps[k].hand;
    }
  }
}
