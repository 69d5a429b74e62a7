/** The console revision of the engine in blackjack.py: a Deck that keeps
    the cards it dealt in a discards list, a Player and a Dealer that draw
    from one shared Deck, and the BlackjackGame that owns the three. */
module Console {
  import opened Wrappers
  import opened Cards
  import opened Decks
  import opened Models

  /** The cards of a sequence, in any order, are those of its reverse. */
  lemma {:induction false} ReversedMultiset<T>(s: seq<T>)
    ensures multiset(Reversed(s)) == multiset(s)
  {
    if s != [] {
      ReversedMultiset(s[1..]);
      assert s == [s[0]] + s[1..];
    }
  }

  /** Deck: the 52 cards still to deal and the ones already dealt. */
  class Deck {
    var cards: seq<Card>
    var discards: seq<Card>

    /** A new deck: the 52 cards built suit by suit and shuffled, nothing
        dealt yet. */
    constructor ()
      ensures multiset(cards) == multiset(FullDeck()) && |cards| == 52
      ensures forall card: Card :: multiset(cards)[card] == 1
      ensures discards == []
    {
      var created := CreateDeck();
      cards := created;
      discards := [];
    }

    /** draw: pop num cards off the end, appending each to discards and to
        the result, so the result is the last num cards in pop order. */
    method Draw(num: nat) returns (result: seq<Card>)
      requires num <= |cards|
      modifies this
      ensures cards == old(cards[..|cards| - num])
      ensures result == Reversed(old(cards[|cards| - num..]))
      ensures discards == old(discards) + result
      ensures multiset(cards) + multiset(discards) == old(multiset(cards) + multiset(discards))
    {
      ghost var all := cards;
      result := [];
      for x := 0 to num
        invariant cards == all[..|all| - x]
        invariant result == Reversed(all[|all| - x..])
        invariant discards == old(discards) + result
      {
        var drawn := cards[|cards| - 1];
        assert all[|all| - (x + 1)..] == [drawn] + all[|all| - x..];
        cards := cards[..|cards| - 1];
        discards := discards + [drawn];
        result := result + [drawn];
      }
      ReversedMultiset(all[|all| - num..]);
      assert all == all[..|all| - num] + all[|all| - num..];
    }

    /** reset: append every discard back onto the cards, empty the
        discards and shuffle. */
    method Reset()
      modifies this
      ensures discards == []
      ensures |cards| == old(|cards| + |discards|)
      ensures multiset(cards) == old(multiset(cards) + multiset(discards))
    {
      for i := 0 to |discards|
        invariant discards == old(discards)
        invariant cards == old(cards) + discards[..i]
      {
        cards := cards + [discards[i]];
      }
      assert discards[..|discards|] == discards;
      discards := [];
      cards := Shuffle(cards);
      assert |multiset(cards)| == old(|cards| + |discards|);
    }
  }

  /** Player: a hand drawn from the shared deck and its cached value. */
  class Player {
    const deck: Deck
    var cards: seq<Card>
    var value: int

    constructor (deck: Deck)
      ensures this.deck == deck && cards == [] && value == 0
    {
      this.deck := deck;
      cards := [];
      value := 0;
    }

    /** start: draw two cards into the hand and compute its value. */
    method Start()
      requires |deck.cards| >= 2
      modifies this, deck
      ensures cards == old(cards) + [old(deck.cards[|deck.cards| - 1]), old(deck.cards[|deck.cards| - 2])]
      ensures value == HandValue(cards)
      ensures deck.cards == old(deck.cards[..|deck.cards| - 2])
      ensures deck.discards == old(deck.discards) + cards[old(|cards|)..]
      ensures multiset(deck.cards) + multiset(deck.discards) == old(multiset(deck.cards) + multiset(deck.discards))
    {
      var drawn := deck.Draw(2);
      for i := 0 to |drawn|
        modifies this`cards
        invariant cards == old(cards) + drawn[..i]
      {
        cards := cards + [drawn[i]];
      }
      assert drawn[..|drawn|] == drawn;
      value := CalcVal(cards);
    }

    /** hit: draw one card into the hand, recompute the value and report
        whether it is at most 21. */
    method Hit() returns (ok: bool)
      requires |deck.cards| >= 1
      modifies this, deck
      ensures cards == old(cards) + [old(deck.cards[|deck.cards| - 1])]
      ensures value == HandValue(cards)
      ensures ok <==> value <= 21
      ensures deck.cards == old(deck.cards[..|deck.cards| - 1])
      ensures deck.discards == old(deck.discards) + [cards[|cards| - 1]]
      ensures multiset(deck.cards) + multiset(deck.discards) == old(multiset(deck.cards) + multiset(deck.discards))
    {
      var drawn := deck.Draw(1);
      var card := drawn[0];
      cards := cards + [card];
      value := CalcVal(cards);
      ok := value <= 21;
    }
  }

  /** Dealer: the face-up cards, the face-down card and the value of the
      face-up cards, drawn from the shared deck.  The source writes the
      absent face-down card as the empty string; the model writes None. */
  class Dealer {
    const deck: Deck
    var shownCards: seq<Card>
    var hiddenCard: Option<Card>
    var value: int

    constructor (deck: Deck)
      ensures this.deck == deck && shownCards == [] && hiddenCard.None? && value == 0
    {
      this.deck := deck;
      shownCards := [];
      hiddenCard := None;
      value := 0;
    }

    /** start: draw one card face up, value the face-up cards, then draw
        the face-down card; the value does not count the face-down card. */
    method Start()
      requires |deck.cards| >= 2
      modifies this, deck
      ensures shownCards == old(shownCards) + [old(deck.cards[|deck.cards| - 1])]
      ensures hiddenCard == Some(old(deck.cards[|deck.cards| - 2]))
      ensures value == HandValue(shownCards)
      ensures deck.cards == old(deck.cards[..|deck.cards| - 2])
      ensures deck.discards == old(deck.discards) + [shownCards[|shownCards| - 1], hiddenCard.value]
      ensures multiset(deck.cards) + multiset(deck.discards) == old(multiset(deck.cards) + multiset(deck.discards))
    {
      var drawn := deck.Draw(1);
      for i := 0 to |drawn|
        modifies this`shownCards
        invariant shownCards == old(shownCards) + drawn[..i]
      {
        shownCards := shownCards + [drawn[i]];
      }
      value := CalcVal(shownCards);
      var more := deck.Draw(1);
      for i := 0 to |more|
        modifies this`hiddenCard
        invariant i == 0 ==> hiddenCard == old(hiddenCard)
        invariant i == 1 ==> hiddenCard == Some(more[0])
      {
        hiddenCard := Some(more[i]);
      }
    }

    /** reveal: turn the face-down card up, clear it and revalue the hand.
        Unlike Game.reveal there is no guard: without a face-down card the
        source appends the empty string, whose valuation fails. */
    method Reveal()
      requires hiddenCard.Some?
      modifies this
      ensures shownCards == old(shownCards) + [old(hiddenCard.value)]
      ensures hiddenCard.None?
      ensures value == HandValue(shownCards)
    {
      shownCards := shownCards + [hiddenCard.value];
      hiddenCard := None;
      value := CalcVal(shownCards);
    }

    /** hit: draw one card face up, recompute the value and report whether
        it is at most 21. */
    method Hit() returns (ok: bool)
      requires |deck.cards| >= 1
      modifies this, deck
      ensures shownCards == old(shownCards) + [old(deck.cards[|deck.cards| - 1])]
      ensures hiddenCard == old(hiddenCard)
      ensures value == HandValue(shownCards)
      ensures ok <==> value <= 21
      ensures deck.cards == old(deck.cards[..|deck.cards| - 1])
      ensures deck.discards == old(deck.discards) + [shownCards[|shownCards| - 1]]
      ensures multiset(deck.cards) + multiset(deck.discards) == old(multiset(deck.cards) + multiset(deck.discards))
    {
      var drawn := deck.Draw(1);
      var card := drawn[0];
      shownCards := shownCards + [card];
      value := CalcVal(shownCards);
      ok := value <= 21;
    }
  }

  /** The cards held by the two hands, the face-down card included. */
  function Held(player: seq<Card>, shown: seq<Card>, hidden: Option<Card>): multiset<Card> {
    multiset(player) + multiset(shown) + multiset(HiddenHand(hidden))
  }

  /** Cards dealt to the player are added to the discards and to the
      player's hand alike. */
  lemma DealToPlayer(discards: seq<Card>, player: seq<Card>, shown: seq<Card>, hidden: Option<Card>, more: seq<Card>)
    requires multiset(discards) == Held(player, shown, hidden)
    ensures multiset(discards + more) == Held(player + more, shown, hidden)
  {
  }

  /** A card dealt face up to the dealer is added to the discards and to
      the face-up cards alike. */
  lemma DealToDealer(discards: seq<Card>, player: seq<Card>, shown: seq<Card>, hidden: Option<Card>, card: Card)
    requires multiset(discards) == Held(player, shown, hidden)
    ensures multiset(discards + [card]) == Held(player, shown + [card], hidden)
  {
  }

  /** The dealer's opening: one card face up and one face down, where no
      card was face down before. */
  lemma DealerOpening(discards: seq<Card>, player: seq<Card>, shown: seq<Card>, up: Card, down: Card)
    requires multiset(discards) == Held(player, shown, None)
    ensures multiset(discards + [up, down]) == Held(player, shown + [up], Some(down))
  {
    assert discards + [up, down] == discards + [up] + [down];
  }

  /** Turning the face-down card up keeps the cards the hands hold. */
  lemma RevealKeeps(player: seq<Card>, shown: seq<Card>, card: Card)
    ensures Held(player, shown, Some(card)) == Held(player, shown + [card], None)
  {
  }

  /** BlackjackGame: one deck shared by the player and the dealer. */
  class BlackjackGame {
    const deck: Deck
    const player: Player
    const dealer: Dealer

    /** The deck and the hands hold the 52 cards between them, and what
        the deck has dealt is exactly what the hands hold. */
    ghost predicate Dealt()
      reads this, deck, player, dealer
    {
      && player.deck == deck && dealer.deck == deck
      && multiset(deck.cards) + multiset(deck.discards) == multiset(FullDeck())
      && multiset(deck.discards) == Held(player.cards, dealer.shownCards, dealer.hiddenCard)
    }

    constructor ()
      ensures Dealt()
      ensures |deck.cards| == 52 && player.cards == [] && dealer.shownCards == [] && dealer.hiddenCard.None?
      ensures fresh(deck) && fresh(player) && fresh(dealer)
    {
      var shared := new Deck();
      deck := shared;
      player := new Player(shared);
      dealer := new Dealer(shared);
    }

    /** start: the player draws two cards, then the dealer one face up and
        one face down, all four from the end of the one deck. */
    method Start()
      requires Dealt() && |deck.cards| >= 4
      modifies deck, player, dealer
      ensures old(dealer.hiddenCard).None? ==> Dealt()
      ensures var n := old(|deck.cards|);
        && deck.cards == old(deck.cards[..n - 4])
        && player.cards == old(player.cards) + old([deck.cards[n - 1], deck.cards[n - 2]])
        && dealer.shownCards == old(dealer.shownCards) + old([deck.cards[n - 3]])
        && dealer.hiddenCard == old(Some(deck.cards[n - 4]))
      ensures player.value == HandValue(player.cards) && dealer.value == HandValue(dealer.shownCards)
    {
      ghost var discards0, player0, shown0 := deck.discards, player.cards, dealer.shownCards;
      player.Start();
      DealToPlayer(discards0, player0, shown0, dealer.hiddenCard, player.cards[|player0|..]);
      assert player.cards == player0 + player.cards[|player0|..];
      ghost var discards1 := deck.discards;
      dealer.Start();
      if old(dealer.hiddenCard).None? {
        DealerOpening(discards1, player.cards, shown0, dealer.shownCards[|dealer.shownCards| - 1], dealer.hiddenCard.value);
      }
    }

    /** reveal: the dealer turns the face-down card up. */
    method Reveal()
      requires Dealt() && dealer.hiddenCard.Some?
      modifies dealer
      ensures Dealt()
      ensures dealer.shownCards == old(dealer.shownCards) + [old(dealer.hiddenCard.value)]
      ensures dealer.hiddenCard.None? && dealer.value == HandValue(dealer.shownCards)
    {
      RevealKeeps(player.cards, dealer.shownCards, dealer.hiddenCard.value);
      dealer.Reveal();
    }

    /** hit: "D" hits the dealer, "P" the player, each drawing the last card
        of the one deck; any other target is reported and answers nothing. */
    method Hit(target: string) returns (ok: Option<bool>)
      requires Dealt()
      requires target == "D" || target == "P" ==> |deck.cards| >= 1
      modifies deck, player, dealer
      ensures Dealt()
      ensures target == "D" ==>
        && dealer.shownCards == old(dealer.shownCards) + [old(deck.cards[|deck.cards| - 1])]
        && dealer.hiddenCard == old(dealer.hiddenCard)
        && ok == Some(dealer.value <= 21) && dealer.value == HandValue(dealer.shownCards)
        && unchanged(player)
      ensures target == "P" ==>
        && player.cards == old(player.cards) + [old(deck.cards[|deck.cards| - 1])]
        && ok == Some(player.value <= 21) && player.value == HandValue(player.cards)
        && unchanged(dealer)
      ensures target == "D" || target == "P" ==> deck.cards == old(deck.cards[..|deck.cards| - 1])
      ensures target != "D" && target != "P" ==> ok.None? && unchanged(deck, player, dealer)
    {
      if target == "D" {
        var b := HitDealer();
        ok := Some(b);
      } else if target == "P" {
        var b := HitPlayer();
        ok := Some(b);
      } else {
        ok := None;
      }
    }

    /** hit('D'): the dealer draws the last card of the deck face up. */
    method HitDealer() returns (ok: bool)
      requires Dealt() && |deck.cards| >= 1
      modifies deck, dealer
      ensures Dealt()
      ensures dealer.shownCards == old(dealer.shownCards) + [old(deck.cards[|deck.cards| - 1])]
      ensures dealer.hiddenCard == old(dealer.hiddenCard)
      ensures ok == (dealer.value <= 21) && dealer.value == HandValue(dealer.shownCards)
      ensures deck.cards == old(deck.cards[..|deck.cards| - 1])
    {
      DealToDealer(deck.discards, player.cards, dealer.shownCards, dealer.hiddenCard, deck.cards[|deck.cards| - 1]);
      ok := dealer.Hit();
    }

    /** hit('P'): the player draws the last card of the deck. */
    method HitPlayer() returns (ok: bool)
      requires Dealt() && |deck.cards| >= 1
      modifies deck, player
      ensures Dealt()
      ensures player.cards == old(player.cards) + [old(deck.cards[|deck.cards| - 1])]
      ensures ok == (player.value <= 21) && player.value == HandValue(player.cards)
      ensures deck.cards == old(deck.cards[..|deck.cards| - 1])
    {
      DealToPlayer(deck.discards, player.cards, dealer.shownCards, dealer.hiddenCard, [deck.cards[|deck.cards| - 1]]);
      ok := player.Hit();
    }
  }
}
