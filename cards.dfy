/**
 * The cards: the hidden solution, the deck built from every card except the
 * solution's three, and the round-robin deal that pops cards off the end of
 * the shuffled deck.
 */
module Cards {
  import opened Board

  /** The envelope: one suspect, one weapon and one room. */
  datatype Solution = Solution(suspect: string, weapon: string, room: string)

  /** Cards dealt per player: the deal runs for `range(4)` rounds. */
  const HandLimit := 4

  /** The game always seats the human and three AI players. */
  const PlayerCount := 4

  predicate IsCard(c: string) {
    c in Suspects || c in Weapons || c in Rooms
  }

  predicate ValidSolution(t: Solution) {
    t.suspect in Suspects && t.weapon in Weapons && t.room in Rooms
  }

  predicate InSolution(t: Solution, c: string) {
    c == t.suspect || c == t.weapon || c == t.room
  }

  /** `[c for c in s if c != x]` */
  function Without(s: seq<string>, x: string): (r: seq<string>)
    ensures forall c :: c in r <==> c in s && c != x
    ensures x !in s ==> r == s
    ensures Distinct(s) ==> Distinct(r)
    ensures Distinct(s) && x in s ==> |r| == |s| - 1
  {
    if s == [] then []
    else
      assert Distinct(s) ==> Distinct(s[1..]) && s[0] !in s[1..];
      assert s == [s[0]] + s[1..];
      if s[0] == x then Without(s[1..], x)
      else [s[0]] + Without(s[1..], x)
  }

  /** The deck before shuffling: all suspects, weapons and rooms but the solution's. */
  function Deck(t: Solution): seq<string> {
    Without(Suspects, t.suspect) + Without(Weapons, t.weapon) + Without(Rooms, t.room)
  }

  lemma CategoriesDisjoint()
    ensures forall c :: c in Suspects ==> c !in Weapons && c !in Rooms
    ensures forall c :: c in Weapons ==> c !in Rooms
  {
  }

  lemma DistinctConcat(a: seq<string>, b: seq<string>)
    requires Distinct(a) && Distinct(b) && forall c :: c in a ==> c !in b
    ensures Distinct(a + b)
  {
    forall i, j | 0 <= i < j < |a + b| ensures (a + b)[i] != (a + b)[j] {
      if j < |a| {
      } else if i >= |a| {
        assert (a + b)[i] == b[i - |a|] && (a + b)[j] == b[j - |a|];
      } else {
        assert (a + b)[i] in a && (a + b)[j] == b[j - |a|];
      }
    }
  }

  /** The deck holds 18 distinct cards: exactly the cards outside the solution. */
  lemma DeckContents(t: Solution)
    requires ValidSolution(t)
    ensures |Deck(t)| == 18 && Distinct(Deck(t))
    ensures forall c :: c in Deck(t) <==> IsCard(c) && !InSolution(t, c)
  {
    BoardWellFormed();
    CategoriesDisjoint();
    var s, w, r := Without(Suspects, t.suspect), Without(Weapons, t.weapon), Without(Rooms, t.room);
    DistinctConcat(s, w);
    DistinctConcat(s + w, r);
  }

  // ---------------------------------------------------------------------------
  // Dealing

  /** How many of the first `rounds` rounds still find a card for player `k`. */
  function DealtCount(deckSize: nat, k: nat, rounds: nat): (n: nat)
    ensures n <= rounds
    ensures forall r :: 0 <= r < rounds ==> (r < n <==> PlayerCount * r + k < deckSize)
  {
    if deckSize <= k then 0
    else
      var last := (deckSize - 1 - k) / PlayerCount;
      if rounds <= last + 1 then rounds else last + 1
  }

  /**
   * The cards player `k` holds after the first `rounds` rounds: in round `r`
   * the deal makes its `PlayerCount * r + k`-th pop, which takes the card that
   * many places from the end of the deck, if the deck is not yet empty.
   */
  function DealtHand(deck: seq<string>, k: nat, rounds: nat): (hand: seq<string>)
    ensures |hand| == DealtCount(|deck|, k, rounds)
  {
    var n := DealtCount(|deck|, k, rounds);
    seq(n, r requires 0 <= r < n => deck[|deck| - 1 - (PlayerCount * r + k)])
  }

  /** One more round appends the next popped card, if any is left. */
  lemma DealtHandStep(deck: seq<string>, k: nat, rounds: nat)
    ensures DealtHand(deck, k, rounds + 1) ==
      DealtHand(deck, k, rounds) +
      (if PlayerCount * rounds + k < |deck| then [deck[|deck| - 1 - (PlayerCount * rounds + k)]] else [])
  {
  }

  /** With the 18-card deck, each of the four players gets exactly four distinct cards. */
  lemma DealSizes(deck: seq<string>)
    requires |deck| == 18 && Distinct(deck)
    ensures forall k :: 0 <= k < PlayerCount ==>
      |DealtHand(deck, k, HandLimit)| == HandLimit && Distinct(DealtHand(deck, k, HandLimit))
  {
    forall k | 0 <= k < PlayerCount
      ensures |DealtHand(deck, k, HandLimit)| == HandLimit && Distinct(DealtHand(deck, k, HandLimit))
    {
    }
  }

  /** No card is dealt to two players. */
  lemma DealDisjoint(deck: seq<string>)
    requires |deck| == 18 && Distinct(deck)
    ensures forall j, k, c ::
      0 <= j < PlayerCount && 0 <= k < PlayerCount && j != k && c in DealtHand(deck, j, HandLimit) ==>
        c !in DealtHand(deck, k, HandLimit)
  {
    forall j, k, c | 0 <= j < PlayerCount && 0 <= k < PlayerCount && j != k && c in DealtHand(deck, j, HandLimit)
      ensures c !in DealtHand(deck, k, HandLimit)
    {
      var hand := DealtHand(deck, k, HandLimit);
      forall r2 | 0 <= r2 < |hand| ensures hand[r2] != c {
        var r1 :| 0 <= r1 < HandLimit && DealtHand(deck, j, HandLimit)[r1] == c;
        assert PlayerCount * r1 + j != PlayerCount * r2 + k;
      }
    }
  }

  /**
   * The dealt cards are exactly the deck without its two bottom cards: the
   * card `m` places from the bottom goes to player `(17 - m) % 4`.
   */
  lemma DealCovers(deck: seq<string>)
    requires |deck| == 18
    ensures forall k, c :: 0 <= k < PlayerCount && c in DealtHand(deck, k, HandLimit) ==> c in deck[2..]
    ensures forall m :: 2 <= m < |deck| ==> deck[m] in DealtHand(deck, (|deck| - 1 - m) % PlayerCount, HandLimit)
  {
    forall k, c | 0 <= k < PlayerCount && c in DealtHand(deck, k, HandLimit) ensures c in deck[2..] {
      var r :| 0 <= r < HandLimit && DealtHand(deck, k, HandLimit)[r] == c;
      assert deck[2..][|deck| - 3 - (PlayerCount * r + k)] == c;
    }
    forall m | 2 <= m < |deck|
      ensures deck[m] in DealtHand(deck, (|deck| - 1 - m) % PlayerCount, HandLimit)
    {
      var t := |deck| - 1 - m;
      var k, r := t % PlayerCount, t / PlayerCount;
      assert t == PlayerCount * r + k && r < HandLimit;
      assert DealtHand(deck, k, HandLimit)[r] == deck[m];
    }
  }

  /** A card occurs at most once in a sequence without repeats. */
  lemma {:induction false} DistinctCountsOnce(a: seq<string>, x: string)
    requires Distinct(a)
    ensures multiset(a)[x] <= 1
  {
    if a != [] {
      assert a == [a[0]] + a[1..];
      assert Distinct(a[1..]);
      DistinctCountsOnce(a[1..], x);
      if a[0] == x {
        assert x !in a[1..];
      }
    }
  }

  /** A permutation of a sequence without repeats has none either. */
  lemma PermutationDistinct(a: seq<string>, b: seq<string>)
    requires multiset(a) == multiset(b) && Distinct(a)
    ensures Distinct(b) && |b| == |a|
  {
    assert |multiset(a)| == |a| && |multiset(b)| == |b|;
    forall i, j | 0 <= i < j < |b| ensures b[i] != b[j] {
      if b[i] == b[j] {
        assert b == b[..j] + b[j..];
        assert b[i] in b[..j] && b[j] in b[j..];
        assert multiset(b)[b[i]] == multiset(b[..j])[b[i]] + multiset(b[j..])[b[i]];
        DistinctCountsOnce(a, b[i]);
        assert false;
      }
    }
  }
}
