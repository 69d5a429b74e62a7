/** The datastore entities of models.py: the user record, the score ledger
    and the Game entity whose methods run a round of blackjack.  Persistence
    (put, get, queries) has no effect in the model; each entity is an object
    whose fields the methods update in place. */
module Models {
  import opened Wrappers
  import opened Cards
  import opened Decks
  import opened History

  /** The day a game ended on; end_game takes it from the clock, the model
      takes it as a parameter. */
  datatype Date = Date(year: int, month: int, day: int)

  /** A Score entity: the user whose game it was, the day it ended and the
      outcome flags end_game was called with. */
  datatype Score = Score(user: string, date: Date, won: bool, tied: bool)

  /** The points end_game awards: 1 for a tie, otherwise 2 for a win,
      otherwise nothing. */
  function Points(won: bool, tied: bool): (points: nat)
    ensures points <= 2
    ensures points == 1 <==> tied
    ensures points == 2 <==> won && !tied
    ensures points == 0 <==> !won && !tied
  {
    if tied then 1 else if won then 2 else 0
  }

  /** A User entity with its two counters. */
  class User {
    const name: string
    var points: nat
    var totalGames: nat

    /** Each game is worth at most 2 points. */
    ghost predicate Valid()
      reads this
    {
      points <= 2 * totalGames
    }

    constructor (name: string)
      ensures this.name == name && points == 0 && totalGames == 0
      ensures Valid()
    {
      this.name := name;
      points := 0;
      totalGames := 0;
    }
  }

  /** The Score entities in the datastore, in the order they were written. */
  class ScoreBoard {
    var scores: seq<Score>

    constructor ()
      ensures scores == []
    {
      scores := [];
    }
  }

  /** The history entry a reveal writes: none when there is no hidden card. */
  function RevealEntry(hidden: Option<Card>): (entries: seq<string>)
    ensures |entries| <= 1
    ensures entries == [] <==> hidden.None?
  {
    if hidden.None? then [] else [Encode(Event(Kind.Reveal, [Token(hidden.value)]))]
  }

  /** The D_HIT entries for the cards the dealer drew, in drawing order. */
  function DrawEntries(drawn: seq<Card>): (entries: seq<string>)
  {
    seq(|drawn|, i requires 0 <= i < |drawn| => Encode(Event(DHit, [Token(drawn[i])])))
  }

  /** The REVEAL entry can be read back. */
  lemma RevealEntryReadable(hidden: Option<Card>)
    ensures Readable(RevealEntry(hidden))
  {
    if hidden.Some? {
      ParseEncode(Event(Kind.Reveal, [Token(hidden.value)]));
    }
  }

  /** Every D_HIT entry of the dealer's draws can be read back. */
  lemma DrawEntriesReadable(drawn: seq<Card>)
    ensures Readable(DrawEntries(drawn))
  {
    forall i | 0 <= i < |drawn|
      ensures ParseEvent(DrawEntries(drawn)[i]).Success?
    {
      ParseEncode(Event(DHit, [Token(drawn[i])]));
    }
  }

  /** An entry without cards, of a kind that carries none, can be read back. */
  lemma BareEntryReadable(kind: Kind)
    requires Arity(kind) == 0
    ensures Readable([Encode(Event(kind, []))])
  {
    ParseEncode(Event(kind, []));
  }

  /** An entry with one card, of a kind that carries one, can be read back. */
  lemma CardEntryReadable(kind: Kind, card: Card)
    requires Arity(kind) == 1
    ensures Readable([Encode(Event(kind, [Token(card)]))])
  {
    ParseEncode(Event(kind, [Token(card)]));
  }

  /** The entries stand writes (STAND, the reveal, the dealer's draws and
      a terminal entry), and the GAME_OVER end_game adds after them, keep a
      history readable: each is an entry of a kind that carries no card, or
      one card of a kind that carries one. */
  lemma StandEntriesReadable(history: seq<string>, stand: Kind, hidden: Option<Card>, drawn: seq<Card>,
                             outcome: Kind, over: Kind, written: seq<string>)
    requires Arity(stand) == 0 && Arity(outcome) == 0 && Arity(over) == 0
    requires written == history + [Encode(Event(stand, []))] + RevealEntry(hidden) + DrawEntries(drawn)
                        + [Encode(Event(outcome, []))] + [Encode(Event(over, []))]
    requires Readable(history)
    ensures Readable(written)
  {
    BareEntryReadable(stand);
    BareEntryReadable(outcome);
    BareEntryReadable(over);
    RevealEntryReadable(hidden);
    DrawEntriesReadable(drawn);
    ReadablePieces(history, [Encode(Event(stand, []))], RevealEntry(hidden), DrawEntries(drawn),
                   [Encode(Event(outcome, []))], [Encode(Event(over, []))]);
  }

  /** One more card drawn adds its D_HIT entry at the end. */
  lemma DrawEntriesAppend(drawn: seq<Card>, more: seq<Card>)
    ensures DrawEntries(drawn + more) == DrawEntries(drawn) + DrawEntries(more)
  {
    var all := drawn + more;
    forall i | |drawn| <= i < |all|
      ensures DrawEntries(all)[i] == DrawEntries(more)[i - |drawn|]
    {
      assert all[i] == more[i - |drawn|];
    }
  }

  /** The terminal event of each stand code. */
  function Outcome(code: int): (kind: Kind)
    requires 0 <= code <= 4
    ensures kind in {DWin, DBlkJk, Tie, DBust, PWin}
  {
    if code == 0 then DWin
    else if code == 1 then DBlkJk
    else if code == 2 then Tie
    else if code == 3 then DBust
    else PWin
  }

  /** Where the dealer's turn of stand leaves the game: the deck, the
      dealer's hand and the stand code. */
  datatype Play = Play(deck: seq<Card>, dealer: seq<Card>, code: int)

  /** The `while dealerTurn` loop of stand on values.  While the dealer's
      hand is worth less than both 17 and the player's value, the dealer
      pops the last card of the deck; the turn ends with code 0 when the
      dealer is above the player, 2 on equal values, 4 when the dealer holds
      17 or more and is still below, and 3 as soon as a draw takes it over
      21.  Every card is worth at least 1, so a hand below 17 has fewer than
      17 cards and the requirement leaves a card to pop. */
  function DealerPlay(deck: seq<Card>, dealer: seq<Card>, playerVal: int): (p: Play)
    requires |deck| + |dealer| >= 17
    ensures p.code in {0, 2, 3, 4}
    ensures |p.deck| <= |deck|
    decreases |deck|
  {
    var value := HandValue(dealer);
    if value > playerVal then Play(deck, dealer, 0)
    else if value == playerVal then Play(deck, dealer, 2)
    else if value >= 17 then Play(deck, dealer, 4)
    else
      HandValueBounds(dealer);
      var card := deck[|deck| - 1];
      if HandValue(dealer + [card]) > 21 then Play(deck[..|deck| - 1], dealer + [card], 3)
      else DealerPlay(deck[..|deck| - 1], dealer + [card], playerVal)
  }

  /** stand on values, once the hidden card is face up: a revealed hand
      worth 21 ends with code 1 and no draw, anything else goes on to the
      dealer's turn. */
  function SettlePlay(deck: seq<Card>, revealed: seq<Card>, playerVal: int): (p: Play)
    requires |deck| + |revealed| >= 17
    ensures 0 <= p.code <= 4
    ensures p.code == 1 <==> HandValue(revealed) == 21
    ensures |p.deck| <= |deck| && p.deck == deck[..|p.deck|]
    ensures |revealed| <= |p.dealer| && p.dealer[..|revealed|] == revealed
  {
    if HandValue(revealed) == 21 then Play(deck, revealed, 1)
    else
      DealerPlayPops(deck, revealed, playerVal);
      DealerPlayDrawsBelow(deck, revealed, playerVal);
      DealerPlay(deck, revealed, playerVal)
  }

  /** stand on values: reveal the hidden card and settle. */
  function StandPlay(deck: seq<Card>, dealer: seq<Card>, hidden: seq<Card>, playerVal: int): (p: Play)
    requires |deck| + |dealer| + |hidden| >= 17
    ensures 0 <= p.code <= 4
    ensures p.code == 1 <==> HandValue(dealer + hidden) == 21
    ensures |p.deck| <= |deck| && p.deck == deck[..|p.deck|]
    ensures |dealer + hidden| <= |p.dealer| && p.dealer[..|dealer + hidden|] == dealer + hidden
  {
    SettlePlay(deck, dealer + hidden, playerVal)
  }

  /** What each code of the dealer's turn says about the final values. */
  lemma {:induction false} DealerPlayOutcome(deck: seq<Card>, dealer: seq<Card>, playerVal: int)
    requires |deck| + |dealer| >= 17
    ensures var p := DealerPlay(deck, dealer, playerVal);
      && (p.code == 0 ==> HandValue(p.dealer) > playerVal)
      && (p.code == 2 ==> HandValue(p.dealer) == playerVal)
      && (p.code == 3 ==> HandValue(p.dealer) > 21)
      && (p.code == 4 ==> 17 <= HandValue(p.dealer) < playerVal)
    decreases |deck|
  {
    var value := HandValue(dealer);
    if value < 17 && value < playerVal {
      HandValueBounds(dealer);
      var card := deck[|deck| - 1];
      if HandValue(dealer + [card]) <= 21 {
        DealerPlayOutcome(deck[..|deck| - 1], dealer + [card], playerVal);
      }
    }
  }

  /** The dealer keeps its hand and adds to it; every card it draws is drawn
      while the hand is worth less than both 17 and the player's value. */
  lemma {:induction false} DealerPlayDrawsBelow(deck: seq<Card>, dealer: seq<Card>, playerVal: int)
    requires |deck| + |dealer| >= 17
    ensures var p := DealerPlay(deck, dealer, playerVal);
      && |dealer| <= |p.dealer| && p.dealer[..|dealer|] == dealer
      && forall k | |dealer| <= k < |p.dealer| ::
           HandValue(p.dealer[..k]) < 17 && HandValue(p.dealer[..k]) < playerVal
    decreases |deck|
  {
    var value := HandValue(dealer);
    if value < 17 && value < playerVal {
      HandValueBounds(dealer);
      var card := deck[|deck| - 1];
      var grown := dealer + [card];
      assert grown[..|dealer|] == dealer;
      if HandValue(grown) <= 21 {
        DealerPlayDrawsBelow(deck[..|deck| - 1], grown, playerVal);
        var p := DealerPlay(deck, dealer, playerVal);
        assert p.dealer[..|dealer|] == p.dealer[..|grown|][..|dealer|];
      }
    }
  }

  /** The dealer draws from the end of the deck: what is left is a prefix of
      the deck, and the cards drawn are the rest of it in pop order. */
  lemma {:induction false} DealerPlayPops(deck: seq<Card>, dealer: seq<Card>, playerVal: int)
    requires |deck| + |dealer| >= 17
    ensures var p := DealerPlay(deck, dealer, playerVal);
      && p.deck == deck[..|p.deck|]
      && p.dealer == dealer + Reversed(deck[|p.deck|..])
    decreases |deck|
  {
    var value := HandValue(dealer);
    if value < 17 && value < playerVal {
      HandValueBounds(dealer);
      var card, rest := deck[|deck| - 1], deck[..|deck| - 1];
      var p := DealerPlay(deck, dealer, playerVal);
      var j := |p.deck|;
      if HandValue(dealer + [card]) <= 21 {
        DealerPlayPops(rest, dealer + [card], playerVal);
      }
      assert deck[j..] == rest[j..] + [card];
      ReversedSnoc(rest[j..], card);
    } else {
      assert deck[|deck|..] == [];
    }
  }

  /** The dealer's turn only moves cards from the deck to the dealer. */
  lemma {:induction false} DealerPlayConserves(deck: seq<Card>, dealer: seq<Card>, playerVal: int)
    requires |deck| + |dealer| >= 17
    ensures var p := DealerPlay(deck, dealer, playerVal);
      multiset(p.deck) + multiset(p.dealer) == multiset(deck) + multiset(dealer)
    decreases |deck|
  {
    var value := HandValue(dealer);
    if value < 17 && value < playerVal {
      HandValueBounds(dealer);
      var card, rest := deck[|deck| - 1], deck[..|deck| - 1];
      assert deck == rest + [card];
      if HandValue(dealer + [card]) <= 21 {
        DealerPlayConserves(rest, dealer + [card], playerVal);
      }
    }
  }

  /** The codes of stand: 1 exactly when the revealed hand is worth 21 (and
      then nothing is drawn), and otherwise the codes of the dealer's turn. */
  lemma StandOutcome(deck: seq<Card>, dealer: seq<Card>, hidden: seq<Card>, playerVal: int)
    requires |deck| + |dealer| + |hidden| >= 17
    ensures var p := StandPlay(deck, dealer, hidden, playerVal);
      && 0 <= p.code <= 4
      && (p.code == 1 <==> HandValue(dealer + hidden) == 21)
      && (p.code == 1 ==> p.deck == deck && p.dealer == dealer + hidden && HandValue(p.dealer) == 21)
      && (p.code == 0 ==> HandValue(p.dealer) > playerVal)
      && (p.code == 2 ==> HandValue(p.dealer) == playerVal)
      && (p.code == 3 ==> HandValue(p.dealer) > 21)
      && (p.code == 4 ==> 17 <= HandValue(p.dealer) < playerVal)
  {
    DealerPlayOutcome(deck, dealer + hidden, playerVal);
  }

  /** The opening deal of new_game: pop two cards for the player, then
      the dealer's face-up card, then the face-down card, and write each
      popped token into the START entry in that order. */
  method DealOpening(deck: seq<Card>)
    returns (rest: seq<Card>, player: seq<Card>, shown: Card, hidden: Card, startString: string)
    requires |deck| >= 4
    ensures rest == deck[..|deck| - 4]
    ensures player == [deck[|deck| - 1], deck[|deck| - 2]]
    ensures shown == deck[|deck| - 3] && hidden == deck[|deck| - 4]
    ensures deck == rest + [hidden, shown, player[1], player[0]]
    ensures startString == Encode(Event(Start, Tokens(player + [shown] + [hidden])))
  {
    var cards := deck;
    startString := "START";
    player := [];
    EncodeBare(Start);
    for x := 0 to 2
      invariant cards == deck[..|deck| - x] && |player| == x
      invariant forall i | 0 <= i < x :: player[i] == deck[|deck| - 1 - i]
      invariant startString == Encode(Event(Start, Tokens(player)))
    {
      var card := cards[|cards| - 1];
      cards := cards[..|cards| - 1];
      EncodeSnoc(Start, player, card);
      startString := startString + "." + Token(card);
      player := player + [card];
    }
    shown := cards[|cards| - 1];
    cards := cards[..|cards| - 1];
    EncodeSnoc(Start, player, shown);
    startString := startString + "." + Token(shown);
    hidden := cards[|cards| - 1];
    cards := cards[..|cards| - 1];
    EncodeSnoc(Start, player + [shown], hidden);
    startString := startString + "." + Token(hidden);
    rest := cards;
    assert deck == deck[..|deck| - 4] + deck[|deck| - 4..];
  }

  /** The values new_game stores: a fresh shuffled deck less the four
      cards of the opening deal, the two hands, the hidden card, the two
      computed values and the START entry. */
  method NewTable()
    returns (deck: seq<Card>, player: seq<Card>, shown: Card, hidden: Card, playerVal: int, dealerVal: int,
             startString: string)
    ensures |deck| == 48 && |player| == 2
    ensures Pool(deck, player, [shown], Some(hidden)) == multiset(FullDeck())
    ensures playerVal == HandValue(player) && playerVal <= 21
    ensures dealerVal == HandValue([shown])
    ensures startString == Encode(Event(Start, Tokens(player + [shown] + [hidden])))
  {
    var created := CreateDeck();
    deck, player, shown, hidden, startString := DealOpening(created);
    playerVal := CalcVal(player);
    dealerVal := CalcVal([shown]);
    TwoCardHand(player[0], player[1]);
    assert player == [player[0], player[1]];
    OpeningPool(created, deck, player, shown, hidden);
  }

  /** Dealing four cards off the end of a deck loses none of them. */
  lemma OpeningPool(created: seq<Card>, deck: seq<Card>, player: seq<Card>, shown: Card, hidden: Card)
    requires |player| == 2 && created == deck + [hidden, shown, player[1], player[0]]
    ensures Pool(deck, player, [shown], Some(hidden)) == multiset(created)
  {
    assert player == [player[0], player[1]];
  }

  /** Writing one more card into an entry adds a dot and its token. */
  lemma EncodeSnoc(kind: Kind, cards: seq<Card>, card: Card)
    ensures Encode(Event(kind, Tokens(cards + [card]))) == Encode(Event(kind, Tokens(cards))) + "." + Token(card)
  {
    JoinAppend([Name(kind)] + Tokens(cards), Token(card));
    assert [Name(kind)] + Tokens(cards) + [Token(card)] == [Name(kind)] + Tokens(cards + [card]);
  }

  /** The hidden card as a hand of zero or one card. */
  function HiddenHand(hidden: Option<Card>): (hand: seq<Card>)
    ensures |hand| <= 1
    ensures hand == [] <==> hidden.None?
  {
    if hidden.None? then [] else [hidden.value]
  }

  /** Every card of a game: the deck, both hands and the hidden card. */
  function Pool(deck: seq<Card>, player: seq<Card>, dealer: seq<Card>, hidden: Option<Card>): multiset<Card>
  {
    multiset(deck) + multiset(player) + multiset(dealer) + multiset(HiddenHand(hidden))
  }

  /** An open game is one where the player has not busted and the dealer
      still shows one card and hides another. */
  predicate Open(gameOver: bool, playerVal: int, dealer: seq<Card>, hidden: Option<Card>)
  {
    !gameOver ==> playerVal <= 21 && |dealer| == 1 && hidden.Some?
  }

  /** A Game entity: the deck, the two hands, the dealer's hidden card, the
      cached hand values, the game-over flag, the event history and the
      user who plays. */
  class Game {
    const user: User
    var deck: seq<Card>
    var playerCards: seq<Card>
    var dealerCards: seq<Card>
    /** The face-down card; the source clears it to the empty string once it
        is revealed, which the model writes None. */
    var dealerHidden: Option<Card>
    var playerVal: int
    var dealerVal: int
    var gameOver: bool
    var history: seq<string>

    /** new_game: shuffle a fresh deck and pop four cards, two to the
        player, one face up and one face down to the dealer, recording them
        in pop order in the START entry. */
    constructor NewGame(user: User)
      ensures this.user == user && !gameOver
      ensures |deck| == 48 && |playerCards| == 2 && |dealerCards| == 1 && dealerHidden.Some?
      ensures playerVal == HandValue(playerCards) && dealerVal == HandValue(dealerCards)
      ensures Pool(deck, playerCards, dealerCards, dealerHidden) == multiset(FullDeck())
      ensures Open(gameOver, playerVal, dealerCards, dealerHidden)
      ensures history == [Encode(Event(Start, Tokens(playerCards + dealerCards + HiddenHand(dealerHidden))))]
      ensures Readable(history)
    {
      var cards, player, shown, hidden, pv, dv, startString := NewTable();
      ParseEncode(Event(Start, Tokens(player + [shown] + [hidden])));
      this.user := user;
      deck := cards;
      playerCards := player;
      dealerCards := [shown];
      dealerHidden := Some(hidden);
      playerVal := pv;
      dealerVal := dv;
      gameOver := false;
      history := [startString];
    }

    /** hit: pop the last card of the deck.  For "P" or "D" it joins that
        hand, the hand's value is recomputed and a P_HIT or D_HIT entry is
        written, and the result says whether the new value is at most 21;
        for any other target the card is thrown away and the result is
        false. */
    method Hit(target: string) returns (ok: bool)
      requires playerVal == HandValue(playerCards) && dealerVal == HandValue(dealerCards)
      requires |deck| > 0
      modifies this`deck, this`playerCards, this`dealerCards, this`playerVal, this`dealerVal, this`history
      ensures playerVal == HandValue(playerCards) && dealerVal == HandValue(dealerCards)
      ensures deck == old(deck[..|deck| - 1])
      ensures target == "P" ==>
        && playerCards == old(playerCards + [deck[|deck| - 1]])
        && dealerCards == old(dealerCards)
        && history == old(history) + [Encode(Event(PHit, [Token(old(deck[|deck| - 1]))]))]
        && (ok <==> playerVal <= 21)
      ensures target == "D" ==>
        && dealerCards == old(dealerCards + [deck[|deck| - 1]])
        && playerCards == old(playerCards)
        && history == old(history) + [Encode(Event(DHit, [Token(old(deck[|deck| - 1]))]))]
        && (ok <==> dealerVal <= 21)
      ensures target != "P" && target != "D" ==>
        && !ok
        && playerCards == old(playerCards) && dealerCards == old(dealerCards)
        && history == old(history)
      ensures target == "P" || target == "D" ==> Pool(deck, playerCards, dealerCards, dealerHidden) == old(Pool(deck, playerCards, dealerCards, dealerHidden))
    {
      if target == "D" {
        ok := HitDealer();
      } else if target == "P" {
        ok := HitPlayer();
      } else {
        deck := deck[..|deck| - 1];
        ok := false;
      }
    }

    /** hit('P'): the popped card joins the player's hand. */
    method HitPlayer() returns (ok: bool)
      requires |deck| > 0
      modifies this`deck, this`playerCards, this`playerVal, this`history
      ensures playerVal == HandValue(playerCards)
      ensures deck == old(deck[..|deck| - 1])
      ensures playerCards == old(playerCards + [deck[|deck| - 1]])
      ensures history == old(history) + [Encode(Event(PHit, [Token(old(deck[|deck| - 1]))]))]
      ensures ok <==> playerVal <= 21
      ensures Pool(deck, playerCards, dealerCards, dealerHidden) == old(Pool(deck, playerCards, dealerCards, dealerHidden))
    {
      var card := DealToPlayer();
      var eventString := "." + Token(card);
      playerVal := CalcVal(playerCards);
      EncodeOne(PHit, Token(card));
      history := history + ["P_HIT" + eventString];
      ok := playerVal <= 21;
    }

    /** hit('D'): the popped card joins the dealer's hand. */
    method HitDealer() returns (ok: bool)
      requires |deck| > 0
      modifies this`deck, this`dealerCards, this`dealerVal, this`history
      ensures dealerVal == HandValue(dealerCards)
      ensures deck == old(deck[..|deck| - 1])
      ensures dealerCards == old(dealerCards + [deck[|deck| - 1]])
      ensures history == old(history) + [Encode(Event(DHit, [Token(old(deck[|deck| - 1]))]))]
      ensures ok <==> dealerVal <= 21
      ensures Pool(deck, playerCards, dealerCards, dealerHidden) == old(Pool(deck, playerCards, dealerCards, dealerHidden))
    {
      var card := DealToDealer();
      var eventString := "." + Token(card);
      dealerVal := CalcVal(dealerCards);
      EncodeOne(DHit, Token(card));
      history := history + ["D_HIT" + eventString];
      ok := dealerVal <= 21;
    }

    /** The pop of hit followed by the append to the player's hand. */
    method DealToPlayer() returns (card: Card)
      requires |deck| > 0
      modifies this`deck, this`playerCards
      ensures card == old(deck[|deck| - 1]) && deck == old(deck[..|deck| - 1])
      ensures playerCards == old(playerCards) + [card]
      ensures Pool(deck, playerCards, dealerCards, dealerHidden) == old(Pool(deck, playerCards, dealerCards, dealerHidden))
    {
      card := deck[|deck| - 1];
      assert deck == deck[..|deck| - 1] + [card];
      deck := deck[..|deck| - 1];
      playerCards := playerCards + [card];
    }

    /** The pop of hit followed by the append to the dealer's hand. */
    method DealToDealer() returns (card: Card)
      requires |deck| > 0
      modifies this`deck, this`dealerCards
      ensures card == old(deck[|deck| - 1]) && deck == old(deck[..|deck| - 1])
      ensures dealerCards == old(dealerCards) + [card]
      ensures Pool(deck, playerCards, dealerCards, dealerHidden) == old(Pool(deck, playerCards, dealerCards, dealerHidden))
    {
      card := deck[|deck| - 1];
      assert deck == deck[..|deck| - 1] + [card];
      deck := deck[..|deck| - 1];
      dealerCards := dealerCards + [card];
    }

    /** reveal: if the dealer still hides a card, turn it face up, recompute
        the dealer's value and write a REVEAL entry; otherwise do nothing. */
    method Reveal()
      requires dealerVal == HandValue(dealerCards)
      modifies this`dealerCards, this`dealerHidden, this`dealerVal, this`history
      ensures dealerVal == HandValue(dealerCards)
      ensures dealerHidden.None?
      ensures old(dealerHidden).None? ==> dealerVal == old(dealerVal)
      ensures dealerCards == old(dealerCards + HiddenHand(dealerHidden))
      ensures history == old(history) + RevealEntry(old(dealerHidden))
      ensures Pool(deck, playerCards, dealerCards, dealerHidden) == old(Pool(deck, playerCards, dealerCards, dealerHidden))
    {
      if dealerHidden.Some? {
        var card := dealerHidden.value;
        dealerCards := dealerCards + [card];
        var revealString := "REVEAL." + Token(card);
        assert "REVEAL." == Name(Kind.Reveal) + ".";
        dealerHidden := None;
        dealerVal := CalcVal(dealerCards);
        EncodeOne(Kind.Reveal, Token(card));
        history := history + [revealString];
      }
    }

    /** stand: write STAND, reveal the hidden card, and settle the dealer's
        turn.  The code, the dealer's final hand and the deck are those
        StandPlay gives for the cards before the call; the history gains
        STAND, the REVEAL entry, a D_HIT entry per card drawn and the entry
        of the outcome. */
    method Stand() returns (result: int)
      requires dealerVal == HandValue(dealerCards)
      requires |deck| + |dealerCards| + |HiddenHand(dealerHidden)| >= 17
      modifies this`deck, this`dealerCards, this`dealerHidden, this`dealerVal, this`history
      ensures dealerVal == HandValue(dealerCards)
      ensures dealerHidden.None?
      ensures Play(deck, dealerCards, result) == StandPlay(old(deck), old(dealerCards), old(HiddenHand(dealerHidden)), playerVal)
      ensures 0 <= result <= 4
      ensures old(|dealerCards| + |HiddenHand(dealerHidden)|) <= |dealerCards|
      ensures history == old(history) + [Encode(Event(Kind.Stand, []))] + RevealEntry(old(dealerHidden))
        + DrawEntries(dealerCards[old(|dealerCards| + |HiddenHand(dealerHidden)|)..]) + [Encode(Event(Outcome(result), []))]
      ensures Pool(deck, playerCards, dealerCards, dealerHidden) == old(Pool(deck, playerCards, dealerCards, dealerHidden))
    {
      EncodeBare(Kind.Stand);
      history := history + ["STAND"];
      Reveal();
      ghost var shown := |dealerCards|;
      ghost var before := history;
      assert shown == old(|dealerCards| + |HiddenHand(dealerHidden)|);
      assert before == old(history) + [Encode(Event(Kind.Stand, []))] + RevealEntry(old(dealerHidden));
      result := Settle();
    }

    /** The rest of stand once the hidden card is face up: a dealer holding
        21 wins by blackjack at once, otherwise the dealer's turn runs. */
    method Settle() returns (result: int)
      requires dealerVal == HandValue(dealerCards)
      requires |deck| + |dealerCards| >= 17
      modifies this`deck, this`dealerCards, this`dealerVal, this`history
      ensures dealerVal == HandValue(dealerCards)
      ensures Play(deck, dealerCards, result) == SettlePlay(old(deck), old(dealerCards), playerVal)
      ensures 0 <= result <= 4
      ensures old(|dealerCards|) <= |dealerCards| && dealerCards[..old(|dealerCards|)] == old(dealerCards)
      ensures history == old(history) + DrawEntries(dealerCards[old(|dealerCards|)..])
        + [Encode(Event(Outcome(result), []))]
      ensures Pool(deck, playerCards, dealerCards, dealerHidden) == old(Pool(deck, playerCards, dealerCards, dealerHidden))
    {
      if dealerVal == 21 {
        result := DealerBlackjack();
      } else {
        result := DealerTurn();
      }
    }

    /** The dealer's revealed hand is worth 21: code 1 and a D_BLK_JK entry,
        with no card drawn. */
    method DealerBlackjack() returns (result: int)
      requires dealerVal == 21
      modifies this`history
      ensures result == 1
      ensures history == old(history) + DrawEntries(dealerCards[|dealerCards|..])
        + [Encode(Event(Outcome(result), []))]
    {
      result := 1;
      assert dealerCards[|dealerCards|..] == [];
      Conclude(DBlkJk);
    }

    /** The `while dealerTurn` loop of stand, entered once the hidden card is
        face up and the dealer does not hold 21: the code, the dealer's final
        hand and the deck are those DealerPlay gives, and the history gains a
        D_HIT entry per card drawn and the entry of the outcome.  The source
        appends the outcome's entry in the branch that ends the loop; here it
        is appended just after the loop, with nothing in between. */
    method DealerTurn() returns (result: int)
      requires dealerVal == HandValue(dealerCards)
      requires |deck| + |dealerCards| >= 17
      modifies this`deck, this`dealerCards, this`dealerVal, this`history
      ensures dealerVal == HandValue(dealerCards)
      ensures Play(deck, dealerCards, result) == DealerPlay(old(deck), old(dealerCards), playerVal)
      ensures result in {0, 2, 3, 4}
      ensures old(|dealerCards|) <= |dealerCards| && dealerCards[..old(|dealerCards|)] == old(dealerCards)
      ensures history == old(history) + DrawEntries(dealerCards[old(|dealerCards|)..])
        + [Encode(Event(Outcome(result), []))]
      ensures Pool(deck, playerCards, dealerCards, dealerHidden) == old(Pool(deck, playerCards, dealerCards, dealerHidden))
    {
      var dealerTurn := true;
      result := 2;
      ghost var dealer0, history0, cards0 := dealerCards, history, Pool(deck, playerCards, dealerCards, dealerHidden);
      ghost var goal := DealerPlay(deck, dealerCards, playerVal);
      ghost var total := |deck| + |dealerCards|;
      while dealerTurn
        invariant dealerVal == HandValue(dealerCards)
        invariant |deck| + |dealerCards| == total
        invariant |dealer0| <= |dealerCards| && dealerCards[..|dealer0|] == dealer0
        invariant dealerTurn ==> DealerPlay(deck, dealerCards, playerVal) == goal
        invariant !dealerTurn ==> Play(deck, dealerCards, result) == goal
        invariant history == history0 + DrawEntries(dealerCards[|dealer0|..])
        invariant Pool(deck, playerCards, dealerCards, dealerHidden) == cards0
        decreases |deck| + (if dealerTurn then 1 else 0)
      {
        dealerTurn, result := DealerStep(dealer0, history0, goal);
      }
      DealerPlayOutcome(old(deck), dealer0, playerVal);
      Conclude(Outcome(result));
    }

    /** One pass of the `while dealerTurn` loop: compare the dealer's value
        with the player's, and either settle the code or hit the dealer.
        The pass keeps what the loop keeps: the dealer's turn as DealerPlay
        describes it, the hand as the first hand plus the cards drawn, and
        one D_HIT entry per card drawn. */
    method DealerStep(ghost dealer0: seq<Card>, ghost history0: seq<string>, ghost goal: Play)
      returns (dealerTurn: bool, result: int)
      requires dealerVal == HandValue(dealerCards)
      requires |deck| + |dealerCards| >= 17
      requires |dealer0| <= |dealerCards| && dealerCards[..|dealer0|] == dealer0
      requires DealerPlay(deck, dealerCards, playerVal) == goal
      requires history == history0 + DrawEntries(dealerCards[|dealer0|..])
      modifies this`deck, this`dealerCards, this`dealerVal, this`history
      ensures dealerVal == HandValue(dealerCards)
      ensures |deck| + |dealerCards| == old(|deck| + |dealerCards|)
      ensures |dealer0| <= |dealerCards| && dealerCards[..|dealer0|] == dealer0
      ensures dealerTurn ==> |deck| < old(|deck|) && DealerPlay(deck, dealerCards, playerVal) == goal
      ensures !dealerTurn ==> Play(deck, dealerCards, result) == goal
      ensures history == history0 + DrawEntries(dealerCards[|dealer0|..])
      ensures Pool(deck, playerCards, dealerCards, dealerHidden) == old(Pool(deck, playerCards, dealerCards, dealerHidden))
    {
      var playerCurrVal := playerVal;
      var dealerCurrVal := dealerVal;
      dealerTurn := false;
      if dealerCurrVal > playerCurrVal {
        result := 0;
      } else if dealerCurrVal == playerCurrVal {
        result := 2;
      } else if dealerCurrVal >= 17 {
        result := 4;
      } else {
        dealerTurn, result := DealerDraw(dealer0, history0, goal);
      }
    }

    /** The last branch of the pass: the dealer is below 17 and below the
        player, so the dealer hits; a bust ends the turn with code 3. */
    method DealerDraw(ghost dealer0: seq<Card>, ghost history0: seq<string>, ghost goal: Play)
      returns (dealerTurn: bool, result: int)
      requires dealerVal == HandValue(dealerCards)
      requires |deck| + |dealerCards| >= 17
      requires dealerVal < 17 && dealerVal < playerVal
      requires |dealer0| <= |dealerCards| && dealerCards[..|dealer0|] == dealer0
      requires DealerPlay(deck, dealerCards, playerVal) == goal
      requires history == history0 + DrawEntries(dealerCards[|dealer0|..])
      modifies this`deck, this`dealerCards, this`dealerVal, this`history
      ensures dealerVal == HandValue(dealerCards)
      ensures |deck| + |dealerCards| == old(|deck| + |dealerCards|)
      ensures |dealer0| <= |dealerCards| && dealerCards[..|dealer0|] == dealer0
      ensures |deck| < old(|deck|)
      ensures dealerTurn ==> DealerPlay(deck, dealerCards, playerVal) == goal
      ensures !dealerTurn ==> Play(deck, dealerCards, result) == goal
      ensures history == history0 + DrawEntries(dealerCards[|dealer0|..])
      ensures Pool(deck, playerCards, dealerCards, dealerHidden) == old(Pool(deck, playerCards, dealerCards, dealerHidden))
    {
      DealerPlayDraw(deck, dealerCards, playerVal);
      RecordDraw(dealer0, dealerCards, history0, history, deck[|deck| - 1]);
      var ok := HitDealer();
      dealerTurn, result := ok, 2;
      if !ok {
        result := 3;
      }
    }

    /** Write the terminal entry of the dealer's turn. */
    method Conclude(kind: Kind)
      modifies this`history
      ensures history == old(history) + [Encode(Event(kind, []))]
    {
      EncodeBare(kind);
      history := history + [Name(kind)];
    }

    /** end_game: write GAME_OVER, close the game, credit the user with the
        points of the outcome and one more game, and record one score. */
    method EndGame(won: bool, tied: bool, today: Date, board: ScoreBoard)
      modifies this, user, board
      ensures gameOver
      ensures history == old(history) + [Encode(Event(GameOver, []))]
      ensures user.points == old(user.points) + Points(won, tied)
      ensures user.totalGames == old(user.totalGames) + 1
      ensures board.scores == old(board.scores) + [Score(user.name, today, won, tied)]
      ensures unchanged(this`deck, this`playerCards, this`dealerCards, this`dealerHidden, this`playerVal, this`dealerVal)
      ensures old(user.Valid()) ==> user.Valid()
    {
      EncodeBare(GameOver);
      history := history + ["GAME_OVER"];
      gameOver := true;
      user.points := user.points + Points(won, tied);
      user.totalGames := user.totalGames + 1;
      board.scores := board.scores + [Score(user.name, today, won, tied)];
    }

    /** append_history: add an entry to the history. */
    method AppendHistory(event: string)
      modifies this`history
      ensures history == old(history) + [event]
      ensures Readable(history) <==> old(Readable(history)) && ParseEvent(event).Success?
    {
      ReadableSnoc(history, event);
      history := history + [event];
    }

    /** get_history: split every entry on '.', in order, and read the event
        kind and the cards it carries; the first entry that cannot be read
        raises. */
    method GetHistory() returns (r: Result<seq<Event>, HistoryError>)
      ensures r == ParseHistory(history)
      ensures Readable(history) ==> r.Success? && |r.value| == |history|
    {
      var events: seq<Event> := [];
      for i := 0 to |history|
        invariant ParseHistory(history[..i]) == Success(events)
      {
        assert history[..i + 1][..i] == history[..i];
        var parsed := ParseEvent(history[i]);
        if parsed.Failure? {
          FailureSticks(history, i + 1);
          return Failure(parsed.error);
        }
        events := events + [parsed.value];
      }
      assert history[..|history|] == history;
      return Success(events);
    }
  }

  /** One draw of the dealer's turn: below 17 and below the player, the
      dealer takes the last card of the deck, and the turn either ends in a
      bust or goes on from the new hand. */
  lemma DealerPlayDraw(deck: seq<Card>, dealer: seq<Card>, playerVal: int)
    requires |deck| + |dealer| >= 17
    requires HandValue(dealer) < 17 && HandValue(dealer) < playerVal
    ensures |deck| > 0
    ensures var card, rest := deck[|deck| - 1], deck[..|deck| - 1];
      && (HandValue(dealer + [card]) > 21 ==>
            DealerPlay(deck, dealer, playerVal) == Play(rest, dealer + [card], 3))
      && (HandValue(dealer + [card]) <= 21 ==>
            |rest| + |dealer + [card]| >= 17 &&
            DealerPlay(deck, dealer, playerVal) == DealerPlay(rest, dealer + [card], playerVal))
  {
    HandValueBounds(dealer);
  }

  /** A card drawn after the first hand extends the hand and adds its D_HIT
      entry to the history. */
  lemma RecordDraw(dealer0: seq<Card>, dealer: seq<Card>, history0: seq<string>, history: seq<string>, card: Card)
    requires |dealer0| <= |dealer| && dealer[..|dealer0|] == dealer0
    requires history == history0 + DrawEntries(dealer[|dealer0|..])
    ensures |dealer0| <= |dealer + [card]| && (dealer + [card])[..|dealer0|] == dealer0
    ensures history + [Encode(Event(DHit, [Token(card)]))] == history0 + DrawEntries((dealer + [card])[|dealer0|..])
  {
    assert (dealer + [card])[|dealer0|..] == dealer[|dealer0|..] + [card];
    DrawEntriesAppend(dealer[|dealer0|..], [card]);
    assert DrawEntries([card]) == [Encode(Event(DHit, [Token(card)]))];
  }
}
