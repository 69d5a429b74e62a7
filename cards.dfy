/** Cards and the hand valuator: get_card_val and calc_val in utils.py
    (repeated word for word as getCardVal and calcVal in blackjack.py).
    A card is a suit and a rank; the source carries it as its token, the
    suit letter followed by the rank text ("H10", "SA"), and Token gives that
    string. */
module Cards {
  import opened Wrappers

  datatype Suit = Heart | Diamond | Spade | Club

  datatype Rank = Two | Three | Four | Five | Six | Seven | Eight | Nine | Ten | Jack | Queen | King | Ace

  datatype Card = Card(suit: Suit, rank: Rank)

  /** The suits in the order the deck is built. */
  const Suits: seq<Suit> := [Heart, Diamond, Spade, Club]

  /** The ranks in the order the deck is built. */
  const Ranks: seq<Rank> := [Two, Three, Four, Five, Six, Seven, Eight, Nine, Ten, Jack, Queen, King, Ace]

  /** The letter of a suit in a token. */
  function SuitLetter(suit: Suit): char
  {
    match suit
    case Heart => 'H'
    case Diamond => 'D'
    case Spade => 'S'
    case Club => 'C'
  }

  /** The text of a rank in a token. */
  function RankText(rank: Rank): (text: string)
    ensures 1 <= |text| <= 2
    ensures '.' !in text
    ensures text[0] == 'A' <==> rank == Ace
    ensures |text| == 2 <==> rank == Ten
  {
    match rank
    case Two => "2"
    case Three => "3"
    case Four => "4"
    case Five => "5"
    case Six => "6"
    case Seven => "7"
    case Eight => "8"
    case Nine => "9"
    case Ten => "10"
    case Jack => "J"
    case Queen => "Q"
    case King => "K"
    case Ace => "A"
  }

  /** The token of a card: its suit letter followed by its rank text.  No
      token holds '.', the separator of history entries, and the character
      after the suit is 'A' exactly for an ace. */
  function Token(card: Card): (token: string)
    ensures 2 <= |token| <= 3
    ensures token[0] == SuitLetter(card.suit) && token[1..] == RankText(card.rank)
    ensures '.' !in token
    ensures token[1] == 'A' <==> card.rank == Ace
  {
    [SuitLetter(card.suit)] + RankText(card.rank)
  }

  /** The tokens of a list of cards, in order. */
  function Tokens(cards: seq<Card>): (tokens: seq<string>)
    ensures |tokens| == |cards|
  {
    seq(|cards|, i requires 0 <= i < |cards| => Token(cards[i]))
  }

  /** Reading a rank back from its text. */
  function RankNamed(text: string): Option<Rank>
  {
    if text == "2" then Some(Two) else if text == "3" then Some(Three)
    else if text == "4" then Some(Four) else if text == "5" then Some(Five)
    else if text == "6" then Some(Six) else if text == "7" then Some(Seven)
    else if text == "8" then Some(Eight) else if text == "9" then Some(Nine)
    else if text == "10" then Some(Ten) else if text == "J" then Some(Jack)
    else if text == "Q" then Some(Queen) else if text == "K" then Some(King)
    else if text == "A" then Some(Ace) else None
  }

  /** Every rank text reads back as its rank. */
  lemma RankNamedText(rank: Rank)
    ensures RankNamed(RankText(rank)) == Some(rank)
  {
  }

  /** Different cards have different tokens. */
  lemma TokenInjective(a: Card, b: Card)
    requires Token(a) == Token(b)
    ensures a == b
  {
    assert SuitLetter(a.suit) == Token(a)[0] == Token(b)[0] == SuitLetter(b.suit);
    RankNamedText(a.rank);
    RankNamedText(b.rank);
  }

  /** The number a string of decimal digits denotes, as int() reads it. */
  function DecimalValue(digits: string): nat
    requires forall i | 0 <= i < |digits| :: '0' <= digits[i] <= '9'
  {
    if digits == [] then 0
    else 10 * DecimalValue(digits[..|digits| - 1]) + (digits[|digits| - 1] as int - '0' as int)
  }

  /** The value of a rank: an ace 11 when bigA is set and 1 otherwise, J, Q
      and K 10, and a numeral its number. */
  function RankValue(rank: Rank, bigA: bool): (v: nat)
    ensures 1 <= v <= 11
    ensures rank == Ace ==> v == if bigA then 11 else 1
    ensures rank != Ace ==> 2 <= v <= 10
  {
    match rank
    case Two => 2
    case Three => 3
    case Four => 4
    case Five => 5
    case Six => 6
    case Seven => 7
    case Eight => 8
    case Nine => 9
    case Ten | Jack | Queen | King => 10
    case Ace => if bigA then 11 else 1
  }

  /** The rank part get_card_val reads from a token: characters 1-2 of a
      three-character token, character 1 otherwise. */
  function RankPart(token: string): string
    requires |token| >= 2
  {
    if |token| == 3 then token[1..3] else token[1..2]
  }

  /** On a card's token, the rank part is the rank text. */
  lemma RankPartOfToken(card: Card)
    ensures RankPart(Token(card)) == RankText(card.rank)
  {
    var token := Token(card);
    if |token| == 3 {
      assert token[1..3] == token[1..];
    } else {
      assert token[1..2] == token[1..];
    }
  }

  /** A numeral rank text is a string of digits worth the rank's value. */
  lemma NumeralText(rank: Rank)
    requires rank !in {Jack, Queen, King, Ace}
    ensures forall i | 0 <= i < |RankText(rank)| :: '0' <= RankText(rank)[i] <= '9'
    ensures DecimalValue(RankText(rank)) == RankValue(rank, false)
  {
    var text := RankText(rank);
    if rank == Ten {
      assert text[..1] == "1" && "1"[..0] == "";
    } else {
      assert text[..0] == "";
    }
  }

  /** get_card_val on the token of a card: read the rank part; "A" is worth
      11 when bigA is set and 1 otherwise, "J", "Q" and "K" 10, and anything
      else the number int() reads from it.  (The source tests `rank in 'A'`
      and `rank in 'JQK'`, substring tests that, on rank texts, hold exactly
      for "A" and for "J", "Q", "K".)  The result is the rank's value. */
  function GetCardVal(card: Card, bigA: bool): (v: nat)
    ensures v == RankValue(card.rank, bigA)
  {
    var rank := RankPart(Token(card));
    RankPartOfToken(card);
    if rank == "A" then (if bigA then 11 else 1)
    else if rank in ["J", "Q", "K"] then 10
    else NumeralText(card.rank); DecimalValue(rank)
  }

  /** The test calc_val uses to set an ace aside. */
  predicate IsAce(card: Card)
  {
    card.rank == Ace
  }

  /* ---------------------------------------------------------------------
     calc_val.  The source first sums every card that is not an ace, setting
     the aces aside in hand order, and then adds the aces one by one: 11 while
     the running total is at most 10, 1 otherwise.  NonAceSum and AceCount
     state the first pass, AddAces the second; HandValue composes them.
     --------------------------------------------------------------------- */

  /** The sum of the non-ace cards of a hand. */
  function NonAceSum(cards: seq<Card>): nat
  {
    if cards == [] then 0
    else (if IsAce(cards[0]) then 0 else RankValue(cards[0].rank, false)) + NonAceSum(cards[1..])
  }

  /** The number of aces in a hand. */
  function AceCount(cards: seq<Card>): nat
  {
    if cards == [] then 0
    else (if IsAce(cards[0]) then 1 else 0) + AceCount(cards[1..])
  }

  /** Adds `count` aces to a running total, each one as 11 while the total is
      at most 10 and as 1 afterwards. */
  function AddAces(total: int, count: nat): int
    decreases count
  {
    if count == 0 then total
    else AddAces(total + (if total <= 10 then 11 else 1), count - 1)
  }

  /** calc_val as a function of the hand: the non-aces summed, then the
      aces added greedily.  Every card adds between 1 and 11. */
  function HandValue(cards: seq<Card>): (v: int)
    ensures |cards| <= v <= 11 * |cards|
  {
    NonAceSumBounds(cards);
    AddAcesClosedForm(NonAceSum(cards), AceCount(cards));
    AddAces(NonAceSum(cards), AceCount(cards))
  }

  /** calc_val as the source runs it: a first loop sums the non-aces and sets
      the aces aside, then the aces are added in hand order. */
  method CalcVal(cards: seq<Card>) returns (value: int)
    ensures value == HandValue(cards)
  {
    value := 0;
    var aces: seq<Card> := [];
    for i := 0 to |cards|
      invariant value == NonAceSum(cards[..i])
      invariant |aces| == AceCount(cards[..i])
      invariant forall k | 0 <= k < |aces| :: IsAce(aces[k])
    {
      var card := cards[i];
      TalliesStep(cards, i);
      if Token(card)[1] == 'A' {
        aces := aces + [card];
      } else {
        value := value + GetCardVal(card, false);
      }
    }
    assert cards[..|cards|] == cards;
    value := AddAcesInOrder(value, aces);
  }

  /** The second loop of calc_val: each ace is valued by get_card_val with
      bigA set exactly when the running total is at most 10. */
  method AddAcesInOrder(total: int, aces: seq<Card>) returns (value: int)
    requires forall k | 0 <= k < |aces| :: IsAce(aces[k])
    ensures value == AddAces(total, |aces|)
  {
    value := total;
    for j := 0 to |aces|
      invariant AddAces(value, |aces| - j) == AddAces(total, |aces|)
    {
      if value <= 10 {
        value := value + GetCardVal(aces[j], true);
      } else {
        value := value + GetCardVal(aces[j], false);
      }
    }
  }

  /** One step of the first loop of calc_val. */
  lemma TalliesStep(cards: seq<Card>, i: nat)
    requires i < |cards|
    ensures NonAceSum(cards[..i + 1]) ==
              NonAceSum(cards[..i]) + (if IsAce(cards[i]) then 0 else RankValue(cards[i].rank, false))
    ensures AceCount(cards[..i + 1]) == AceCount(cards[..i]) + (if IsAce(cards[i]) then 1 else 0)
  {
    assert cards[..i + 1] == cards[..i] + [cards[i]];
    TalliesAppend(cards[..i], [cards[i]]);
    SingleCard(cards[i]);
  }

  /** Greedy ace counting in closed form: the first ace counts 11 when the
      total so far is at most 10, every other ace counts 1. */
  lemma {:induction false} AddAcesClosedForm(total: nat, count: nat)
    ensures AddAces(total, count) == total + count + (if count > 0 && total <= 10 then 10 else 0)
    decreases count
  {
    if count > 0 {
      AddAcesClosedForm(total + (if total <= 10 then 11 else 1), count - 1);
    }
  }

  /** The value of a hand is its non-ace sum plus one per ace, plus 10 more
      when there is an ace and the non-aces sum to at most 10.  So at most
      one ace ever counts as 11. */
  lemma HandValueClosedForm(cards: seq<Card>)
    ensures HandValue(cards) ==
              NonAceSum(cards) + AceCount(cards) + (if AceCount(cards) > 0 && NonAceSum(cards) <= 10 then 10 else 0)
  {
    AddAcesClosedForm(NonAceSum(cards), AceCount(cards));
  }

  /** Both tallies of calc_val distribute over concatenation of hands. */
  lemma {:induction false} TalliesAppend(a: seq<Card>, b: seq<Card>)
    ensures NonAceSum(a + b) == NonAceSum(a) + NonAceSum(b)
    ensures AceCount(a + b) == AceCount(a) + AceCount(b)
    decreases |a|
  {
    if a == [] {
      assert a + b == b;
    } else {
      assert (a + b)[0] == a[0] && (a + b)[1..] == a[1..] + b;
      TalliesAppend(a[1..], b);
    }
  }

  /** Every non-ace is worth between 2 and 10. */
  lemma {:induction false} NonAceSumBounds(cards: seq<Card>)
    ensures AceCount(cards) <= |cards|
    ensures 2 * (|cards| - AceCount(cards)) <= NonAceSum(cards) <= 10 * (|cards| - AceCount(cards))
  {
    if cards != [] {
      NonAceSumBounds(cards[1..]);
    }
  }

  /** The empty hand is worth 0 and every card adds between 1 and 11. */
  lemma HandValueBounds(cards: seq<Card>)
    ensures |cards| <= HandValue(cards) <= 11 * |cards|
    ensures cards == [] ==> HandValue(cards) == 0
  {
    HandValueClosedForm(cards);
    NonAceSumBounds(cards);
  }

  /** Removing the same element from two permutations of each other leaves
      two permutations of each other. */
  lemma RemoveMatching<T>(a: seq<T>, b: seq<T>, i: nat)
    requires multiset(a) == multiset(b) && a != [] && i < |b| && b[i] == a[|a| - 1]
    ensures multiset(b[..i] + b[i + 1..]) == multiset(a[..|a| - 1])
  {
    var x, rest := b[i], b[..i] + b[i + 1..];
    assert b == b[..i] + [x] + b[i + 1..];
    assert a == a[..|a| - 1] + [x];
    assert multiset(b) == multiset(rest) + multiset{x};
    assert multiset(a) == multiset(a[..|a| - 1]) + multiset{x};
    assert multiset(rest) == multiset(b) - multiset{x};
  }

  /** Taking card i out of a hand takes its share out of both tallies. */
  lemma TalliesRemove(b: seq<Card>, i: nat)
    requires i < |b|
    ensures NonAceSum(b) == NonAceSum(b[..i] + b[i + 1..]) + NonAceSum([b[i]])
    ensures AceCount(b) == AceCount(b[..i] + b[i + 1..]) + AceCount([b[i]])
  {
    assert b == b[..i] + [b[i]] + b[i + 1..];
    TalliesAppend(b[..i], b[i + 1..]);
    TalliesAppend(b[..i] + [b[i]], b[i + 1..]);
    TalliesAppend(b[..i], [b[i]]);
  }

  /** The tallies, and so the value, do not depend on the order of the hand. */
  lemma {:induction false} TalliesPermutation(a: seq<Card>, b: seq<Card>)
    requires multiset(a) == multiset(b)
    ensures NonAceSum(a) == NonAceSum(b)
    ensures AceCount(a) == AceCount(b)
    decreases |a|
  {
    if a != [] {
      var x := a[|a| - 1];
      var a' := a[..|a| - 1];
      assert a == a' + [x];
      assert x in multiset(b);
      var i :| 0 <= i < |b| && b[i] == x;
      var rest := b[..i] + b[i + 1..];
      RemoveMatching(a, b, i);
      TalliesPermutation(a', rest);
      TalliesRemove(b, i);
      TalliesAppend(a', [x]);
    }
  }

  /** calc_val gives the same value for every ordering of the same cards. */
  lemma HandValuePermutation(a: seq<Card>, b: seq<Card>)
    requires multiset(a) == multiset(b)
    ensures HandValue(a) == HandValue(b)
  {
    TalliesPermutation(a, b);
    HandValueClosedForm(a);
    HandValueClosedForm(b);
  }

  /** A two-card hand is worth at most 21, so a fresh deal never busts; it
      is worth exactly 21 when it is an ace and a card worth 10. */
  lemma TwoCardHand(first: Card, second: Card)
    ensures HandValue([first, second]) <= 21
    ensures HandValue([first, second]) == 21 <==>
              (IsAce(first) && RankValue(second.rank, false) == 10) ||
              (IsAce(second) && RankValue(first.rank, false) == 10)
  {
    var hand := [first, second];
    assert hand == [first] + [second];
    SingleCard(first);
    SingleCard(second);
    TalliesAppend([first], [second]);
    HandValueClosedForm(hand);
  }

  /** The tallies of a one-card hand. */
  lemma SingleCard(card: Card)
    ensures NonAceSum([card]) == if IsAce(card) then 0 else RankValue(card.rank, false)
    ensures AceCount([card]) == if IsAce(card) then 1 else 0
  {
    assert [card][1..] == [];
  }

  /** A hand of one non-ace followed by `count` aces. */
  lemma OneCardThenAces(card: Card, count: nat)
    requires !IsAce(card)
    ensures HandValue([card] + seq(count, _ => Card(Heart, Ace))) ==
              RankValue(card.rank, false) + count + (if count > 0 && RankValue(card.rank, false) <= 10 then 10 else 0)
  {
    var aces := seq(count, _ => Card(Heart, Ace));
    AllAces(count);
    SingleCard(card);
    TalliesAppend([card], aces);
    HandValueClosedForm([card] + aces);
  }

  /** `count` copies of the ace of hearts sum to nothing and are all aces. */
  lemma {:induction false} AllAces(count: nat)
    ensures NonAceSum(seq(count, _ => Card(Heart, Ace))) == 0
    ensures AceCount(seq(count, _ => Card(Heart, Ace))) == count
  {
    if count > 0 {
      var aces := seq(count, _ => Card(Heart, Ace));
      assert aces[1..] == seq(count - 1, _ => Card(Heart, Ace));
      AllAces(count - 1);
    }
  }

  /** Ten and ace then ace: the first ace counts 11, the second 1, so the
      hand scores 22 (real blackjack scoring would give 12). */
  lemma TenAceAce()
    ensures HandValue([Card(Heart, Ten), Card(Heart, Ace), Card(Heart, Ace)]) == 22
  {
    OneCardThenAces(Card(Heart, Ten), 2);
    assert [Card(Heart, Ten)] + seq(2, _ => Card(Heart, Ace)) == [Card(Heart, Ten), Card(Heart, Ace), Card(Heart, Ace)];
  }

  /** Two and one or two aces: 13 and 14, the second ace demoted to 1. */
  lemma TwoAndAces()
    ensures HandValue([Card(Heart, Two), Card(Heart, Ace)]) == 13
    ensures HandValue([Card(Heart, Two), Card(Heart, Ace), Card(Heart, Ace)]) == 14
  {
    OneCardThenAces(Card(Heart, Two), 1);
    assert [Card(Heart, Two)] + seq(1, _ => Card(Heart, Ace)) == [Card(Heart, Two), Card(Heart, Ace)];
    OneCardThenAces(Card(Heart, Two), 2);
    assert [Card(Heart, Two)] + seq(2, _ => Card(Heart, Ace)) == [Card(Heart, Two), Card(Heart, Ace), Card(Heart, Ace)];
  }

  /** Four aces: 11 + 1 + 1 + 1. */
  lemma FourAces()
    ensures HandValue(seq(4, _ => Card(Heart, Ace))) == 14
  {
    AllAces(4);
    HandValueClosedForm(seq(4, _ => Card(Heart, Ace)));
  }
}
