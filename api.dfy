/** make_move of api.py: the decision logic that turns the player's verb
    into calls of reveal, hit, stand and end_game on a loaded game. */
module Api {
  import opened Wrappers
  import opened Cards
  import opened Decks
  import opened History
  import opened Models

  /** The flags make_move passes to end_game. */
  datatype Flags = Flags(won: bool, tied: bool)

  /** The message of the GameForm make_move returns. */
  datatype Reply =
    | AlreadyOver
    | Tied
    | BlackjackWin
    | YourHand(cards: seq<Card>)
    | Busted(value: int)
    | DealerHigher
    | DealerBlackjack
    | DealerBusted
    | PlayerHigher
    | AskVerb

  /** The text of each reply. */
  function Message(reply: Reply): string {
    match reply
    case AlreadyOver => "Game already over!"
    case Tied => "You tied with the Dealer!"
    case BlackjackWin => "You win with a blackjack!"
    case YourHand(cards) => "Your hand is" + Spaced(Tokens(cards))
    case Busted(value) => "You busted with a value of " + IntText(value)
    case DealerHigher => "The dealer has a higher value than you! You lose!"
    case DealerBlackjack => "The dealer got a blackjack! You lose!"
    case DealerBusted => "The Dealer busted! You win!"
    case PlayerHigher => "You have a higher value than the dealer! You win!"
    case AskVerb => "Please enter either HIT or STAND."
  }

  /** Each token preceded by a space. */
  function Spaced(tokens: seq<string>): string {
    if tokens == [] then "" else Spaced(tokens[..|tokens| - 1]) + " " + tokens[|tokens| - 1]
  }

  /** str of an int: an optional minus sign and the decimal digits. */
  function IntText(value: int): string {
    if value < 0 then "-" + Digits(-value) else Digits(value)
  }

  function Digits(n: nat): string
    decreases n
  {
    if n < 10 then [Digit(n)] else Digits(n / 10) + [Digit(n % 10)]
  }

  function Digit(d: nat): char
    requires d < 10
  {
    "0123456789"[d]
  }

  /** str.lower on the characters a verb is spelled with: A to Z become a
      to z, everything else is kept. */
  function LowerChar(c: char): char {
    if 'A' <= c <= 'Z' then (c as int + 32) as char else c
  }

  function Lower(s: string): (r: string)
    ensures |r| == |s|
    ensures forall i | 0 <= i < |s| :: r[i] == LowerChar(s[i])
  {
    seq(|s|, i requires 0 <= i < |s| => LowerChar(s[i]))
  }

  /** A verb means hit exactly when it is h, i, t in any mix of cases. */
  lemma HitSpellings(move: string)
    ensures Lower(move) == "hit" <==>
      |move| == 3 && move[0] in "hH" && move[1] in "iI" && move[2] in "tT"
  {
    if Lower(move) == "hit" {
      assert LowerChar(move[0]) == 'h' && LowerChar(move[1]) == 'i' && LowerChar(move[2]) == 't';
    }
    if |move| == 3 && move[0] in "hH" && move[1] in "iI" && move[2] in "tT" {
      assert Lower(move) == [Lower(move)[0], Lower(move)[1], Lower(move)[2]];
    }
  }

  /** A verb means stand exactly when it is s, t, a, n, d in any mix of cases. */
  lemma StandSpellings(move: string)
    ensures Lower(move) == "stand" <==>
      |move| == 5 && move[0] in "sS" && move[1] in "tT" && move[2] in "aA" && move[3] in "nN" && move[4] in "dD"
  {
    if Lower(move) == "stand" {
      assert LowerChar(move[0]) == 's' && LowerChar(move[1]) == 't' && LowerChar(move[2]) == 'a';
      assert LowerChar(move[3]) == 'n' && LowerChar(move[4]) == 'd';
    }
    if |move| == 5 && move[0] in "sS" && move[1] in "tT" && move[2] in "aA" && move[3] in "nN" && move[4] in "dD" {
      assert Lower(move) == [Lower(move)[0], Lower(move)[1], Lower(move)[2], Lower(move)[3], Lower(move)[4]];
    }
  }

  /** The end_game flags of each stand code: 0 and 1 lose, 2 ties, 3 and 4
      win. */
  function CodeFlags(code: int): (f: Flags)
    requires 0 <= code <= 4
    ensures f.won <==> code >= 2
    ensures f.tied <==> code == 2
  {
    if code <= 1 then Flags(false, false)
    else if code == 2 then Flags(true, true)
    else Flags(true, false)
  }

  /** The message of each stand code.  It says what the end_game flags of
      the same code say: a tie exactly when they are tied, a win exactly
      when they are won and not tied, a loss exactly when they are lost. */
  function CodeReply(code: int): (r: Reply)
    requires 0 <= code <= 4
    ensures r == Tied <==> CodeFlags(code).tied
    ensures r in {DealerBusted, PlayerHigher} <==> CodeFlags(code).won && !CodeFlags(code).tied
    ensures r in {DealerHigher, DealerBlackjack} <==> !CodeFlags(code).won
  {
    if code == 0 then DealerHigher
    else if code == 1 then DealerBlackjack
    else if code == 2 then Tied
    else if code == 3 then DealerBusted
    else PlayerHigher
  }

  /** The fields of a loaded game that make_move reads and writes. */
  datatype Table = Table(deck: seq<Card>, player: seq<Card>, dealer: seq<Card>, hidden: Option<Card>,
                         playerVal: int, gameOver: bool, history: seq<string>)

  /** The table of a game object. */
  function Snapshot(game: Game): Table
    reads game
  {
    Table(game.deck, game.playerCards, game.dealerCards, game.dealerHidden,
          game.playerVal, game.gameOver, game.history)
  }

  /** What make_move decides: the end_game flags if it ends the game, its
      reply, and the table it leaves. */
  datatype Decision = Decision(flags: Option<Flags>, reply: Reply, after: Table)

  /** A natural: 21 with the two opening cards. */
  predicate Natural(t: Table) {
    t.playerVal == 21 && |t.player| == 2
  }

  /** The entry end_game writes. */
  function GameOverEntry(): string {
    Encode(Event(GameOver, []))
  }

  /** The natural path on values: the hidden card is revealed and the game
      ends won, tied when the revealed dealer hand is 21 in two cards. */
  function NaturalMove(t: Table): Decision {
    var revealed := t.dealer + HiddenHand(t.hidden);
    var tied := HandValue(revealed) == 21 && |revealed| == 2;
    var after := t.(dealer := revealed, hidden := None, gameOver := true,
                    history := t.history + RevealEntry(t.hidden) + [GameOverEntry()]);
    Decision(Some(Flags(true, tied)), if tied then Tied else BlackjackWin, after)
  }

  /** The hit path on values: the player takes the last card of the deck;
      a bust ends the game as a loss. */
  function HitMove(t: Table): Decision
    requires |t.deck| >= 1
  {
    var card := t.deck[|t.deck| - 1];
    var hand := t.player + [card];
    var hit := Encode(Event(PHit, [Token(card)]));
    var drawn := t.(deck := t.deck[..|t.deck| - 1], player := hand, playerVal := HandValue(hand));
    if HandValue(hand) <= 21 then Decision(None, YourHand(hand), drawn.(history := t.history + [hit]))
    else
      Decision(Some(Flags(false, false)), Busted(HandValue(hand)),
               drawn.(gameOver := true, history := t.history + [hit] + [GameOverEntry()]))
  }

  /** The stand path on values: the dealer plays as stand does and the game
      ends by the code. */
  function StandMove(t: Table): Decision
    requires |t.deck| + |t.dealer| + |HiddenHand(t.hidden)| >= 17
  {
    var p := StandPlay(t.deck, t.dealer, HiddenHand(t.hidden), t.playerVal);
    var drawn := p.dealer[|t.dealer| + |HiddenHand(t.hidden)|..];
    var played := t.history + [Encode(Event(Kind.Stand, []))] + RevealEntry(t.hidden) + DrawEntries(drawn)
                  + [Encode(Event(Outcome(p.code), []))];
    var after := t.(deck := p.deck, dealer := p.dealer, hidden := None, gameOver := true,
                    history := played + [GameOverEntry()]);
    Decision(Some(CodeFlags(p.code)), CodeReply(p.code), after)
  }

  /** make_move on values.  An ended game is left alone; a natural ends
      the game whatever the verb; hit deals the player a card; stand plays
      the dealer's turn; any other verb changes nothing.  The game is over
      afterwards exactly when it was or end_game is called, end_game is
      never told a tie that is not a win, and the history only grows. */
  function Decide(t: Table, move: string): (d: Decision)
    requires !t.gameOver ==> |t.deck| >= 17
    ensures d.after.gameOver <==> t.gameOver || d.flags.Some?
    ensures d.flags.Some? && d.flags.value.tied ==> d.flags.value.won
    ensures d.reply == AlreadyOver <==> t.gameOver
    ensures |d.after.deck| <= |t.deck| && d.after.deck == t.deck[..|d.after.deck|]
    ensures |t.history| <= |d.after.history| && d.after.history[..|t.history|] == t.history
  {
    if t.gameOver then Decision(None, AlreadyOver, t)
    else if Natural(t) then NaturalMove(t)
    else if Lower(move) == "hit" then HitMove(t)
    else if Lower(move) == "stand" then StandMove(t)
    else Decision(None, AskVerb, t)
  }

  /** A natural is settled before the verb is looked at: every verb gives
      the same decision, and it is a win, tied exactly when the dealer's
      revealed two cards make 21. */
  lemma NaturalIgnoresVerb(t: Table, move: string, other: string)
    requires !t.gameOver && |t.deck| >= 17 && Natural(t)
    ensures Decide(t, move) == Decide(t, other)
    ensures var d := Decide(t, move);
      && d.flags.Some? && d.flags.value.won
      && (d.flags.value.tied <==> HandValue(t.dealer + HiddenHand(t.hidden)) == 21 && |t.dealer + HiddenHand(t.hidden)| == 2)
  {
  }

  /** A hit that does not bust leaves the game open, even when it brings
      the player to 21 with three or more cards; one that busts ends it as
      a loss. */
  lemma HitOutcome(t: Table, move: string)
    requires !t.gameOver && |t.deck| >= 17 && !Natural(t) && Lower(move) == "hit"
    ensures var hand := t.player + [t.deck[|t.deck| - 1]];
      && (Decide(t, move).flags.None? <==> HandValue(hand) <= 21)
      && (Decide(t, move).flags.Some? ==> Decide(t, move).flags.value == Flags(false, false))
  {
  }

  /** How stand ends the game, on the final values: the player loses when
      the dealer ends above the player's value or the revealed hand is 21,
      ties on equal values, and wins when the dealer busts or stops at 17 or
      more below the player. */
  lemma StandFlags(t: Table, move: string)
    requires !t.gameOver && |t.deck| >= 17 && !Natural(t) && Lower(move) == "stand"
    ensures var p := StandPlay(t.deck, t.dealer, HiddenHand(t.hidden), t.playerVal);
      var f := Decide(t, move).flags;
      && f.Some?
      && (!f.value.won ==> HandValue(p.dealer) > t.playerVal || HandValue(p.dealer) == 21)
      && (f.value.tied ==> f.value.won && HandValue(p.dealer) == t.playerVal)
      && (f.value.won && !f.value.tied ==> HandValue(p.dealer) > 21 || 17 <= HandValue(p.dealer) < t.playerVal)
  {
    StandOutcome(t.deck, t.dealer, HiddenHand(t.hidden), t.playerVal);
  }

  /** Every entry make_move writes can be read back, so get_history reads
      the history a move leaves exactly when it read the one before. */
  lemma DecideReadable(t: Table, move: string)
    requires !t.gameOver ==> |t.deck| >= 17
    ensures Readable(Decide(t, move).after.history) <==> Readable(t.history)
  {
    var after := Decide(t, move).after.history;
    if Readable(after) {
      ReadablePrefix(after, |t.history|);
    }
    if Readable(t.history) {
      if t.gameOver {
      } else if Natural(t) {
        NaturalReadable(t);
      } else if Lower(move) == "hit" {
        HitReadable(t);
      } else if Lower(move) == "stand" {
        StandReadable(t);
      }
    }
  }

  /** The REVEAL and GAME_OVER entries of a natural keep a history readable. */
  lemma NaturalReadable(t: Table)
    requires Readable(t.history)
    ensures Readable(NaturalMove(t).after.history)
  {
    BareEntryReadable(GameOver);
    RevealEntryReadable(t.hidden);
    ReadableConcat(t.history, RevealEntry(t.hidden));
    ReadableConcat(t.history + RevealEntry(t.hidden), [GameOverEntry()]);
  }

  /** The P_HIT entry, and the GAME_OVER of a bust, keep a history readable. */
  lemma HitReadable(t: Table)
    requires |t.deck| >= 1 && Readable(t.history)
    ensures Readable(HitMove(t).after.history)
  {
    var card := t.deck[|t.deck| - 1];
    var hit := [Encode(Event(PHit, [Token(card)]))];
    CardEntryReadable(PHit, card);
    ReadableConcat(t.history, hit);
    if HandValue(t.player + [card]) > 21 {
      BareEntryReadable(GameOver);
      ReadableConcat(t.history + hit, [GameOverEntry()]);
    }
  }

  /** The entries of a stand and the GAME_OVER after it keep a history
      readable. */
  lemma StandReadable(t: Table)
    requires |t.deck| + |t.dealer| + |HiddenHand(t.hidden)| >= 17 && Readable(t.history)
    ensures Readable(StandMove(t).after.history)
  {
    var p := StandPlay(t.deck, t.dealer, HiddenHand(t.hidden), t.playerVal);
    assert Arity(Outcome(p.code)) == 0;
    StandEntriesReadable(t.history, Kind.Stand, t.hidden, p.dealer[|t.dealer| + |HiddenHand(t.hidden)|..],
                         Outcome(p.code), GameOver, StandMove(t).after.history);
  }

  /** An open game whose cards are the 52 of the deck still has at least
      29 cards to deal: the player's hand is worth at most 21 and every card
      is worth at least 1, and the dealer holds two. */
  lemma EnoughCards(deck: seq<Card>, player: seq<Card>, dealer: seq<Card>, hidden: Option<Card>, playerVal: int)
    requires Pool(deck, player, dealer, hidden) == multiset(FullDeck())
    requires playerVal == HandValue(player) && Open(false, playerVal, dealer, hidden)
    ensures |deck| >= 29
  {
    HandValueBounds(player);
    assert |Pool(deck, player, dealer, hidden)| == |deck| + |player| + |dealer| + |HiddenHand(hidden)|;
  }

  /** The record end_game leaves when flags are given, and no record
      otherwise: one more Score, the points of the outcome and one more game. */
  predicate Recorded(flags: Option<Flags>, name: string, today: Date,
                     scores0: seq<Score>, scores: seq<Score>, points0: nat, points: nat, games0: nat, games: nat)
  {
    if flags.Some? then
      && scores == scores0 + [Score(name, today, flags.value.won, flags.value.tied)]
      && points == points0 + Points(flags.value.won, flags.value.tied)
      && games == games0 + 1
    else
      scores == scores0 && points == points0 && games == games0
  }

  /** make_move on a loaded game.  The reply, the end_game call and the
      fields the game is left with are those Decide gives for the fields
      before the call: the game ends, with exactly one Score and one counter
      update, exactly when Decide gives flags, and a verb other than hit or
      stand leaves an open game without a natural as it was.  The cached
      values, the 52 cards and the open-game condition hold again
      afterwards. */
  method MakeMove(game: Game, move: string, today: Date, board: ScoreBoard) returns (reply: Reply)
    requires game.playerVal == HandValue(game.playerCards) && game.dealerVal == HandValue(game.dealerCards)
    requires Pool(game.deck, game.playerCards, game.dealerCards, game.dealerHidden) == multiset(FullDeck())
    requires Open(game.gameOver, game.playerVal, game.dealerCards, game.dealerHidden)
    requires !game.gameOver ==> |game.deck| >= 17
    modifies game, game.user, board
    ensures var d := Decide(old(Snapshot(game)), move);
      && reply == d.reply
      && Snapshot(game) == d.after
      && Recorded(d.flags, game.user.name, today, old(board.scores), board.scores,
                  old(game.user.points), game.user.points, old(game.user.totalGames), game.user.totalGames)
    ensures old(game.gameOver) ==> unchanged(game)
    ensures game.playerVal == HandValue(game.playerCards) && game.dealerVal == HandValue(game.dealerCards)
    ensures Pool(game.deck, game.playerCards, game.dealerCards, game.dealerHidden) == multiset(FullDeck())
    ensures Open(game.gameOver, game.playerVal, game.dealerCards, game.dealerHidden)
    ensures Readable(game.history) <==> old(Readable(game.history))
    ensures old(game.user.Valid()) ==> game.user.Valid()
  {
    if game.gameOver {
      return AlreadyOver;
    }
    DecideReadable(Snapshot(game), move);
    if game.playerVal == 21 && |game.playerCards| == 2 {
      reply := NaturalBlackjack(game, today, board);
    } else if Lower(move) == "hit" {
      reply := PlayerHit(game, today, board);
    } else if Lower(move) == "stand" {
      reply := PlayerStand(game, today, board);
    } else {
      reply := AskVerb;
    }
  }

  /** The natural path of make_move: reveal, then end the game won, and
      tied when the dealer's two cards also make 21. */
  method NaturalBlackjack(game: Game, today: Date, board: ScoreBoard) returns (reply: Reply)
    requires game.playerVal == HandValue(game.playerCards) && game.dealerVal == HandValue(game.dealerCards)
    requires Pool(game.deck, game.playerCards, game.dealerCards, game.dealerHidden) == multiset(FullDeck())
    modifies game, game.user, board
    ensures var d := NaturalMove(old(Snapshot(game)));
      && reply == d.reply
      && Snapshot(game) == d.after
      && Recorded(d.flags, game.user.name, today, old(board.scores), board.scores,
                  old(game.user.points), game.user.points, old(game.user.totalGames), game.user.totalGames)
    ensures game.playerVal == HandValue(game.playerCards) && game.dealerVal == HandValue(game.dealerCards)
    ensures Pool(game.deck, game.playerCards, game.dealerCards, game.dealerHidden) == multiset(FullDeck())
  {
    game.Reveal();
    if game.dealerVal == 21 && |game.dealerCards| == 2 {
      game.EndGame(true, true, today, board);
      reply := Tied;
    } else {
      game.EndGame(true, false, today, board);
      reply := BlackjackWin;
    }
  }

  /** The hit path of make_move: deal the player a card; a bust ends the
      game as a loss, otherwise the game stays open. */
  method PlayerHit(game: Game, today: Date, board: ScoreBoard) returns (reply: Reply)
    requires game.playerVal == HandValue(game.playerCards) && game.dealerVal == HandValue(game.dealerCards)
    requires Pool(game.deck, game.playerCards, game.dealerCards, game.dealerHidden) == multiset(FullDeck())
    requires Open(false, game.playerVal, game.dealerCards, game.dealerHidden) && !game.gameOver
    requires |game.deck| > 0
    modifies game, game.user, board
    ensures var d := HitMove(old(Snapshot(game)));
      && reply == d.reply
      && Snapshot(game) == d.after
      && Recorded(d.flags, game.user.name, today, old(board.scores), board.scores,
                  old(game.user.points), game.user.points, old(game.user.totalGames), game.user.totalGames)
    ensures game.playerVal == HandValue(game.playerCards) && game.dealerVal == HandValue(game.dealerCards)
    ensures Pool(game.deck, game.playerCards, game.dealerCards, game.dealerHidden) == multiset(FullDeck())
    ensures Open(game.gameOver, game.playerVal, game.dealerCards, game.dealerHidden)
  {
    ghost var t := Snapshot(game);
    ghost var d := HitMove(t);
    var ok := game.Hit("P");
    ghost var drawn := t.(deck := game.deck, player := game.playerCards, playerVal := game.playerVal,
                          history := game.history);
    assert Snapshot(game) == drawn;
    if ok {
      reply := YourHand(game.playerCards);
    } else {
      game.EndGame(false, false, today, board);
      reply := Busted(game.playerVal);
    }
  }

  /** The stand path of make_move: play the dealer's turn and end the game
      by its code. */
  method PlayerStand(game: Game, today: Date, board: ScoreBoard) returns (reply: Reply)
    requires game.dealerVal == HandValue(game.dealerCards)
    requires |game.deck| >= 17
    modifies game, game.user, board
    ensures var d := StandMove(old(Snapshot(game)));
      && reply == d.reply
      && Snapshot(game) == d.after
      && Recorded(d.flags, game.user.name, today, old(board.scores), board.scores,
                  old(game.user.points), game.user.points, old(game.user.totalGames), game.user.totalGames)
    ensures game.dealerVal == HandValue(game.dealerCards)
    ensures Pool(game.deck, game.playerCards, game.dealerCards, game.dealerHidden)
      == old(Pool(game.deck, game.playerCards, game.dealerCards, game.dealerHidden))
  {
    ghost var t := Snapshot(game);
    var result := game.Stand();
    StandMoveTable(t, game.deck, game.dealerCards, game.history, result);
    if result == 0 {
      game.EndGame(false, false, today, board);
    } else if result == 1 {
      game.EndGame(false, false, today, board);
    } else if result == 2 {
      game.EndGame(true, true, today, board);
    } else if result == 3 {
      game.EndGame(true, false, today, board);
    } else {
      game.EndGame(true, false, today, board);
    }
    reply := CodeReply(result);
  }

  /** The table stand leaves, once end_game has run, is the one StandMove
      gives. */
  lemma StandMoveTable(t: Table, deck: seq<Card>, dealer: seq<Card>, history: seq<string>, code: int)
    requires |t.deck| + |t.dealer| + |HiddenHand(t.hidden)| >= 17
    requires Play(deck, dealer, code) == StandPlay(t.deck, t.dealer, HiddenHand(t.hidden), t.playerVal)
    requires history == t.history + [Encode(Event(Kind.Stand, []))] + RevealEntry(t.hidden)
      + DrawEntries(dealer[|t.dealer| + |HiddenHand(t.hidden)|..]) + [Encode(Event(Outcome(code), []))]
    ensures StandMove(t).flags == Some(CodeFlags(code)) && StandMove(t).reply == CodeReply(code)
    ensures StandMove(t).after
      == t.(deck := deck, dealer := dealer, hidden := None, gameOver := true, history := history + [GameOverEntry()])
  {
  }
}
