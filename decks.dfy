/** The 52-card deck of utils.py: create_deck builds every suit and rank pair
    in a fixed order and shuffles the list. */
module Decks {
  import opened Cards

  /** The card at position i of the unshuffled deck: suits in the order
      H, D, S, C, and within a suit the ranks 2..10, J, Q, K, A. */
  function CardAt(i: nat): Card
    requires i < 52
  {
    Card(Suits[i / 13], Ranks[i % 13])
  }

  /** The deck in the order create_deck's nested loops build it. */
  function FullDeck(): (deck: seq<Card>)
    ensures |deck| == 52
  {
    seq(52, i requires 0 <= i < 52 => CardAt(i))
  }

  /** The nested loops of create_deck: for each suit, for each rank, append
      the card of that suit and rank (the token suit + rank). */
  method OrderedDeck() returns (cards: seq<Card>)
    ensures cards == FullDeck()
  {
    cards := [];
    for s := 0 to |Suits|
      invariant cards == FullDeck()[..13 * s]
    {
      for r := 0 to |Ranks|
        invariant cards == FullDeck()[..13 * s + r]
      {
        var card := Card(Suits[s], Ranks[r]);
        FullDeckAt(s, r);
        cards := cards + [card];
      }
    }
  }

  /** Position 13 * s + r of the ordered deck holds suit s and rank r. */
  lemma FullDeckAt(s: nat, r: nat)
    requires s < 4 && r < 13
    ensures FullDeck()[..13 * s + r + 1] == FullDeck()[..13 * s + r] + [Card(Suits[s], Ranks[r])]
  {
    assert (13 * s + r) / 13 == s && (13 * s + r) % 13 == r;
  }

  /** random.shuffle: the Fisher-Yates shuffle, walking i down from the last
      index and swapping position i with a position j in 0..i.  The random
      choice of j is left open, so the method holds for every choice. */
  method Shuffle<T>(items: seq<T>) returns (shuffled: seq<T>)
    ensures multiset(shuffled) == multiset(items)
  {
    shuffled := items;
    var i := |shuffled|;
    while i > 1
      invariant 0 <= i <= |shuffled|
      invariant multiset(shuffled) == multiset(items)
    {
      i := i - 1;
      var j :| 0 <= j <= i;
      SwapKeepsMultiset(shuffled, i, j);
      shuffled := shuffled[i := shuffled[j]][j := shuffled[i]];
    }
  }

  /** Swapping two positions permutes a sequence. */
  lemma SwapKeepsMultiset<T>(s: seq<T>, i: nat, j: nat)
    requires i < |s| && j < |s|
    ensures multiset(s[i := s[j]][j := s[i]]) == multiset(s)
  {
    var t := s[i := s[j]];
    assert multiset(t) == multiset(s) - multiset{s[i]} + multiset{s[j]};
    assert multiset(t[j := s[i]]) == multiset(t) - multiset{t[j]} + multiset{s[i]};
  }

  /** create_deck: the ordered deck, shuffled. */
  method CreateDeck() returns (deck: seq<Card>)
    ensures multiset(deck) == multiset(FullDeck())
    ensures |deck| == 52
    ensures forall card: Card :: multiset(deck)[card] == 1
  {
    var ordered := OrderedDeck();
    deck := Shuffle(ordered);
    assert |multiset(deck)| == |multiset(ordered)|;
    FullDeckOnceEach();
  }

  /** No two positions of the ordered deck hold the same card. */
  lemma FullDeckDistinct()
    ensures forall i, j | 0 <= i < j < 52 :: FullDeck()[i] != FullDeck()[j]
  {
    forall i, j | 0 <= i < j < 52
      ensures FullDeck()[i] != FullDeck()[j]
    {
      if i / 13 == j / 13 {
        assert i % 13 != j % 13;
      }
    }
  }

  /** The 52 tokens create_deck builds are pairwise different. */
  lemma FullDeckTokensDistinct()
    ensures forall i, j | 0 <= i < j < 52 :: Token(FullDeck()[i]) != Token(FullDeck()[j])
  {
    FullDeckDistinct();
    forall i, j | 0 <= i < j < 52
      ensures Token(FullDeck()[i]) != Token(FullDeck()[j])
    {
      if Token(FullDeck()[i]) == Token(FullDeck()[j]) {
        TokenInjective(FullDeck()[i], FullDeck()[j]);
      }
    }
  }

  /** Every card is in the ordered deck. */
  lemma FullDeckComplete(card: Card)
    ensures card in FullDeck()
  {
    var s, r := SuitIndex(card.suit), RankIndex(card.rank);
    var i := 13 * s + r;
    assert i / 13 == s && i % 13 == r;
    assert FullDeck()[i] == card;
  }

  /** The position of a suit in Suits. */
  function SuitIndex(suit: Suit): (s: nat)
    ensures s < 4 && Suits[s] == suit
  {
    match suit
    case Heart => 0
    case Diamond => 1
    case Spade => 2
    case Club => 3
  }

  /** The position of a rank in Ranks. */
  function RankIndex(rank: Rank): (r: nat)
    ensures r < 13 && Ranks[r] == rank
  {
    match rank
    case Two => 0
    case Three => 1
    case Four => 2
    case Five => 3
    case Six => 4
    case Seven => 5
    case Eight => 6
    case Nine => 7
    case Ten => 8
    case Jack => 9
    case Queen => 10
    case King => 11
    case Ace => 12
  }

  /** A sequence without repeats holds each of its elements once. */
  lemma {:induction false} DistinctOnce<T>(s: seq<T>)
    requires forall i, j | 0 <= i < j < |s| :: s[i] != s[j]
    ensures forall x | x in s :: multiset(s)[x] == 1
  {
    if s != [] {
      var init := s[..|s| - 1];
      DistinctOnce(init);
      assert s == init + [s[|s| - 1]];
      forall x | x in s
        ensures multiset(s)[x] == 1
      {
        if x == s[|s| - 1] {
          assert x !in init;
        } else {
          assert x in init;
        }
      }
    }
  }

  /** The ordered deck holds every card exactly once. */
  lemma FullDeckOnceEach()
    ensures forall card: Card :: multiset(FullDeck())[card] == 1
  {
    FullDeckDistinct();
    DistinctOnce(FullDeck());
    forall card: Card
      ensures multiset(FullDeck())[card] == 1
    {
      FullDeckComplete(card);
    }
  }

  /** The order in which successive pops take the cards of a list: the list
      reversed. */
  function Reversed<T>(s: seq<T>): (r: seq<T>)
    ensures |r| == |s|
    ensures forall i | 0 <= i < |s| :: r[i] == s[|s| - 1 - i]
  {
    if s == [] then [] else Reversed(s[1..]) + [s[0]]
  }

  /** Reversing a sequence with one more element at the end puts that
      element first. */
  lemma ReversedSnoc<T>(s: seq<T>, x: T)
    ensures Reversed(s + [x]) == [x] + Reversed(s)
  {
    var r, t := Reversed(s + [x]), [x] + Reversed(s);
    assert |r| == |t|;
    forall i | 0 <= i < |r|
      ensures r[i] == t[i]
    {
      if i > 0 {
        assert r[i] == s[|s| - i];
      }
    }
  }
}
