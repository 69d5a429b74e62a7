# Blackjack rules engine in Dafny

This project models the rules engine of a small blackjack game service, in its two revisions:

- **The deployed engine.** This is the `Game` datastore entity of `models.py`, the deck and hand helpers of `utils.py`, and the move dispatcher `make_move` of `api.py`.
  - A game holds a shuffled 52-card deck, the player's hand, the dealer's face-up cards and one face-down card.
  - It also holds the cached values of both hands, a `game_over` flag and an append-only history of entries such as `START.H2.SK.D10.CA`, `P_HIT.H5` and `STAND`.
- **The console engine.** This is `blackjack.py`, where a `Deck` with a discards list is shared by a `Player` and a `Dealer`.

The model is organised as follows.

| file | module | what it holds |
|---|---|---|
| `wrappers.dfy` | `Wrappers` | `Option` and `Result` |
| `cards.dfy` | `Cards` | card tokens, `get_card_val` and `calc_val` (the function `HandValue`, plus the two-loop method `CalcVal` proved equal to it), and the valuation's properties |
| `decks.dfy` | `Decks` | `create_deck` (the ordered 52 cards, a Fisher–Yates shuffle whose random choice is left open) and the 52-distinct-cards proofs |
| `history.dfy` | `History` | event kinds, the `.`-joined entry format, and the splitting and parsing of `get_history`, with round trips |
| `models.dfy` | `Models` | the `Game` class (`new_game`, `hit`, `reveal`, `stand`, `end_game`, `append_history`, `get_history`), the user record and the score ledger |
| `api.dfy` | `Api` | `make_move`, proved against a decision function `Decide` |
| `console.dfy` | `Console` | the `blackjack.py` classes `Deck`, `Player`, `Dealer` and `BlackjackGame` |

The dealer's turn in `stand` is given by three value-level functions:

- `DealerPlay`: a pure function of the deck, the dealer's hand and the player's value. It returns the deck left, the final dealer hand and the result code.
- `SettlePlay` and `StandPlay`: they add the dealer-blackjack check and the reveal.

The loop method `Game.DealerTurn` is proved to end exactly where `DealerPlay` says. The lemmas about `DealerPlay` give the meaning of each code, the draw-only-below-17 rule, pop order and card conservation.

### Invariants

Two game invariants appear in the contracts:

- each cached value equals `HandValue` of its hand;
- `Pool(deck, player, dealer, hidden)` is always the multiset of the 52 cards.

`new_game`, `hit('P')`, `hit('D')`, `reveal` and `stand` preserve them. A third property, `Readable(history)` (every entry can be read by `get_history` without raising), holds after `new_game` and is kept by `make_move` (`Api.DecideReadable`). `make_move` preserves them together with `Open`, the open-game condition: the player is at or below 21, and the dealer shows one card and hides one. Together they leave at least 29 cards in the deck of an open game (`Api.EnoughCards`).

### Valuation

The valuation is reproduced exactly, including its greedy ace rule:

- all non-aces are summed first;
- each ace then counts 11 while the running total is at most 10, and 1 otherwise.

So ten, ace, ace scores 22 (`Cards.TenAceAce`).

`getCardVal` and `calcVal` of `blackjack.py` (blackjack.py:229-261) are the same code as `get_card_val` and `calc_val` of `utils.py`. Both are modelled by the members of `Cards`, and the console classes use them.

## Model

| member | source | states |
|---|---|---|
| `Cards.Token` | utils.py:46-48 | a card's token is its suit letter followed by its rank text; it has 2 or 3 characters and no `.`, and its second character is `A` exactly for aces |
| `Cards.TokenInjective` | utils.py:43-48 | two cards with the same token are the same card |
| `Cards.RankValue` | utils.py:60-68 | every rank is worth 1 to 11; an ace is worth 11 with `bigA` and 1 without; J, Q, K and the numerals are worth 2 to 10 |
| `Cards.RankPartOfToken` | utils.py:56-59 | the rank read from a token (characters 1–2 of a 3-character token, character 1 otherwise) is the card's rank text |
| `Cards.NumeralText` | utils.py:67-68 | `int(rank)` of a numeral rank is that rank's value, so `H10` gives 10 |
| `Cards.GetCardVal` | utils.py:54-68 | `get_card_val` equals the rank's value under the `bigA` flag |
| `Cards.HandValue` | utils.py:71-86 | `calc_val` as a function of the hand: non-aces summed first, then the aces greedily; every card adds between 1 and 11, so the value lies between `\|cards\|` and `11·\|cards\|` |
| `Cards.CalcVal` | utils.py:71-86 | the two-loop `calc_val` (non-aces first with the aces set aside, then the aces in order) computes `HandValue` |
| `Cards.AddAcesInOrder` | blackjack.py:256-261 | the ace loop, adding 11 while the total is at most 10 and 1 after, equals the greedy `AddAces` |
| `Cards.AddAcesClosedForm` | utils.py:81-85 | adding aces greedily gives the total plus one per ace, plus 10 when there is an ace and the total was at most 10 |
| `Cards.HandValueClosedForm` | utils.py:74-85 | value = non-ace sum + ace count + (10 if there is an ace and the non-ace sum is at most 10), so at most one ace counts 11 |
| `Cards.TalliesAppend` | utils.py:76-80 | both tallies of the first loop distribute over concatenated hands |
| `Cards.HandValueBounds` | utils.py:74-86 | `\|cards\| <= value <= 11·\|cards\|`, and the empty hand is worth 0 |
| `Cards.HandValuePermutation` | utils.py:75-80 | two hands with the same cards in any order have the same value |
| `Cards.TwoCardHand` | utils.py:71-86 | a two-card hand is worth at most 21, and exactly 21 when it is an ace and a ten-valued card |
| `Cards.OneCardThenAces` | utils.py:81-85 | a non-ace followed by n aces is worth its value + n, plus 10 when n > 0 and its value is at most 10 |
| `Cards.TenAceAce` | utils.py:81-85 | ten, ace, ace is worth 22 |
| `Cards.TwoAndAces` | utils.py:81-85 | two and ace is worth 13; two, ace, ace is worth 14 |
| `Cards.FourAces` | utils.py:81-85 | four aces are worth 14 |
| `Decks.FullDeck` | utils.py:43-48 | the ordered deck has 52 cards, suits H, D, S, C and in each the ranks 2..10, J, Q, K, A |
| `Decks.OrderedDeck` | utils.py:42-48 | the nested suit and rank loops build exactly the ordered deck |
| `Decks.Shuffle` | utils.py:50 | the Fisher–Yates shuffle returns a permutation of its input, whatever the random choices |
| `Decks.CreateDeck` | utils.py:40-51 | `create_deck` returns 52 cards, a permutation of the ordered deck holding every card exactly once |
| `Decks.FullDeckDistinct` | utils.py:43-48 | no two positions of the ordered deck hold the same card |
| `Decks.FullDeckTokensDistinct` | utils.py:40-51 | the 52 tokens are pairwise different |
| `Decks.FullDeckComplete` | utils.py:43-48 | every suit × rank card is in the ordered deck |
| `Decks.FullDeckOnceEach` | utils.py:40-51 | the ordered deck holds every card exactly once |
| `Decks.Reversed` | blackjack.py:127-131 | successive pops take a list's cards last first: position i of the result is position n-1-i of the list |
| `History.KindNamed` | models.py:30-45 | looking a name up in `EVENTS` finds the kind stored under it, and finds nothing exactly when no kind has that name |
| `History.NameKnown` | models.py:30-45 | every event kind's name is found again by the lookup |
| `History.Split` | models.py:96 | `split('.')` gives at least one piece and no piece contains `.` |
| `History.SplitJoin` | models.py:96 | splitting dot-free pieces joined with `.` gives the pieces back |
| `History.JoinSplit` | models.py:96 | joining the pieces of a split with `.` gives the string back |
| `History.ParseEvent` | models.py:96-111 | reading an entry fails with KeyError (`UnknownEvent` of the first field) exactly when the first field of the `.`-split is no event name, and with IndexError (`MissingCards`) exactly when it is a name but the split has no more fields than the kind's cards (4 for START, 1 for REVEAL and the HIT kinds, 0 otherwise); otherwise the event's kind is the one named by the first field and its cards are the next fields, one per card, with any further fields ignored (`P_HIT.H5.X` reads as `P_HIT` with `H5`); re-encoding a read entry without extra fields gives the entry back |
| `History.EncodeFields` | models.py:54-66 | an entry written as the game writes it (name, then `.` and a card per card, at models.py:58, 62, 65, 144, 206 and 215) splits on `.` back into exactly its name and its cards |
| `History.ParseEncode` | models.py:96-111 | every well-formed event, once encoded as the game writes it, reads back as itself |
| `History.ParseHistory` | models.py:89-113 | `get_history` succeeds exactly when every entry reads, and then yields one event per entry, in order |
| `History.ParseHistoryFirstFailure` | models.py:92-112 | a failing `get_history` fails with the error of its first unreadable entry |
| `History.ParseEncodeAll` | models.py:89-113 | a history of encoded well-formed events reads back as those events |
| `History.ReadableSnoc` | models.py:115-118 | after an append the history reads exactly when it read before and the new entry reads |
| `History.ReadableConcat` | models.py:89-113 | a history made of two stretches reads exactly when each stretch reads |
| `History.ReadablePrefix` | models.py:89-113 | the entries before any point of a history that reads also read |
| `History.ReadablePieces` | models.py:89-113 | a history made of six stretches that each read also reads |
| `Models.Points` | models.py:130-133 | `end_game` awards 1 for a tie, otherwise 2 for a win, otherwise 0 |
| `Models.User.constructor` | models.py:11-16 | a new user has 0 points and 0 games |
| `Models.ScoreBoard.constructor` | models.py:227-232 | the score ledger starts empty |
| `Models.RevealEntry` | models.py:142-147 | reveal writes one `REVEAL.c` entry when a card is hidden, and none otherwise |
| `Models.RevealEntryReadable` | models.py:141-147 | get_history reads the entry reveal writes |
| `Models.DrawEntriesReadable` | models.py:197-206 | get_history reads every D_HIT entry of the dealer's draws |
| `Models.BareEntryReadable` | models.py:159-193 | get_history reads an entry without cards whose kind carries none, as stand's terminal entries, STAND and GAME_OVER are |
| `Models.CardEntryReadable` | models.py:207-215 | get_history reads a one-card entry of a kind that carries one card, as P_HIT is |
| `Models.StandEntriesReadable` | models.py:150-195 | STAND, the reveal, the D_HIT entries, a terminal entry and GAME_OVER written after a history that reads leave one that reads |
| `Models.Outcome` | models.py:163-193 | the terminal entry of every stand code 0–4 is one of D_WIN, D_BLK_JK, TIE, D_BUST, P_WIN |
| `Models.DealerPlay` | models.py:169-193 | the dealer's turn ends with code 0, 2, 3 or 4, and leaves no more cards in the deck than it found |
| `Models.DealerPlayOutcome` | models.py:173-193 | code 0 means dealer > player, 2 means equal, 3 means dealer > 21, 4 means 17 <= dealer < player |
| `Models.DealerPlayDrawsBelow` | models.py:183-189 | the dealer only adds to its hand, and every card it draws is drawn while its value is below 17 and below the player's |
| `Models.DealerPlayPops` | models.py:183-204 | the deck left is a prefix of the deck, and the cards drawn are the rest of it in pop order |
| `Models.DealerPlayConserves` | models.py:201-204 | the dealer's turn only moves cards from the deck to the dealer's hand |
| `Models.SettlePlay` | models.py:161-193 | once the hidden card is up, the code is 0–4 and is 1 exactly when the revealed hand is 21; the deck left is a prefix of the deck, and the dealer's final hand extends the revealed one |
| `Models.StandPlay` | models.py:158-193 | stand on values: the same facts for the hand with the hidden card added |
| `Models.StandOutcome` | models.py:150-195 | stand returns 1 exactly when the revealed hand is worth 21, then drawing nothing; otherwise its codes mean what the dealer's turn says |
| `Models.DealOpening` | models.py:53-66 | the opening pops the player's two cards, then the face-up card, then the face-down card, and writes them into START in pop order |
| `Models.NewTable` | models.py:49-71 | a new table has 48 cards in the deck and 2 in the player's hand, the 52 cards between deck and hands, a player value of at most 21, a dealer value of the face-up card only, and the START entry |
| `Models.Game.NewGame` | models.py:48-74 | a new game is open, holds the 52 cards, caches both values, and has history exactly `[START.c1.c2.c3.c4]`, which get_history reads |
| `Models.Game.Hit` | models.py:197-224 | `P` or `D` moves the last deck card into that hand only, recomputes its value, writes `P_HIT.c` or `D_HIT.c`, keeps the 52 cards, and answers whether the value is at most 21; any other target pops and drops the card and answers false |
| `Models.Game.HitPlayer` | models.py:212-219 | `hit('P')` moves the last deck card to the player, caches the new value and writes `P_HIT.c` |
| `Models.Game.HitDealer` | models.py:203-210 | `hit('D')` moves the last deck card to the dealer, caches the new value and writes `D_HIT.c` |
| `Models.Game.Reveal` | models.py:141-148 | a hidden card joins the dealer's cards, the value is recomputed and `REVEAL.c` is written; with no hidden card nothing changes, so a second reveal is a no-op |
| `Models.Game.Stand` | models.py:150-195 | the code, final dealer hand and deck are `StandPlay`'s; the history gains STAND, the REVEAL entry, one D_HIT per card drawn and one terminal entry; the 52 cards are kept |
| `Models.Game.Settle` | models.py:161-170 | a revealed 21 ends at once with code 1; otherwise the dealer's turn runs, as `SettlePlay` says |
| `Models.Game.DealToPlayer` | models.py:201-213 | the last deck card is popped and appended to the player's hand; the 52 cards are kept |
| `Models.Game.DealToDealer` | models.py:201-204 | the last deck card is popped and appended to the dealer's hand; the 52 cards are kept |
| `Models.Game.Conclude` | models.py:167-193 | a terminal entry of stand is appended to the history |
| `Models.Game.DealerBlackjack` | models.py:163-167 | a dealer at 21 ends with code 1 and a D_BLK_JK entry, drawing nothing |
| `Models.Game.DealerTurn` | models.py:169-194 | the `while dealerTurn` loop ends where `DealerPlay` says, writing a D_HIT entry per card drawn and then the terminal entry |
| `Models.Game.DealerStep` | models.py:171-193 | one pass compares the values and either settles a code or hits the dealer, keeping the loop's invariants |
| `Models.Game.DealerDraw` | models.py:188-193 | below 17 and below the player, the dealer hits; a bust ends the turn with code 3 |
| `Models.Game.EndGame` | models.py:120-139 | writes GAME_OVER, sets `game_over`, adds the points of the outcome and one game to the user, and appends exactly one Score |
| `Models.Game.AppendHistory` | models.py:115-118 | the entry is appended at the end of the history |
| `Models.Game.GetHistory` | models.py:89-113 | the loop over the entries returns `ParseHistory` of the history, one event per entry when every entry reads |
| `Api.Lower` | api.py:105 | `lower()` keeps the length and lowers A–Z character by character |
| `Api.HitSpellings` | api.py:105 | a verb means hit exactly when it is h, i, t in any mix of cases |
| `Api.StandSpellings` | api.py:115 | a verb means stand exactly when it is s, t, a, n, d in any mix of cases |
| `Api.CodeFlags` | api.py:123-137 | the end_game flags of a stand code: won exactly for codes 2, 3 and 4, tied exactly for code 2 |
| `Api.CodeReply` | api.py:123-139 | the message of a stand code agrees with its flags: the tie message exactly when tied, a win message exactly when won and not tied, a loss message exactly when lost |
| `Api.DecideReadable` | api.py:90-143 | every entry make_move writes (through reveal, hit, stand and end_game) can be read, so get_history reads the history a move leaves exactly when it read the one before |
| `Api.NaturalReadable` | api.py:96-104 | the REVEAL and GAME_OVER entries of the natural path keep a history readable |
| `Api.HitReadable` | api.py:105-114 | the P_HIT entry, and GAME_OVER on a bust, keep a history readable |
| `Api.StandReadable` | api.py:115-141 | the entries of a stand and the GAME_OVER after it keep a history readable |
| `Api.Decide` | api.py:90-143 | make_move on values: the game is over afterwards exactly when it was or end_game is called; end_game is never told a tie that is not a win; only cards at the deck's end are dealt; the history only grows |
| `Api.NaturalIgnoresVerb` | api.py:96-104 | with 21 in two cards the verb is ignored; the game is won, and tied exactly when the revealed dealer hand is 21 in two cards |
| `Api.HitOutcome` | api.py:105-114 | a hit ends the game exactly when it busts, and then as a loss; at 21 with three or more cards the game stays open |
| `Api.StandFlags` | api.py:115-139 | stand loses when the dealer ends above the player or holds 21, ties on equal values, and wins when the dealer busts or stops at 17 or more below the player |
| `Api.EnoughCards` | api.py:96-116 | an open game holding the 52 cards has at least 29 cards left to deal, so hit and stand never pop an empty deck |
| `Api.MakeMove` | api.py:90-143 | the reply, the end_game call and every field the game is left with (deck, hands, hidden card, values, flag, history) are `Decide`'s; so a finished game, and an open one without a natural given another verb, are unchanged; the game ends, with exactly one Score and one counter update, exactly when `Decide` gives flags; the cached values, the 52 cards and the open-game condition hold afterwards; get_history reads the history afterwards exactly when it read it before; a user with at most 2 points per game still has at most 2 points per game |
| `Api.NaturalBlackjack` | api.py:96-104 | the hidden card joins the dealer's hand and the history gains its REVEAL entry and GAME_OVER; then `end_game(True, True)` when the dealer has 21 in two cards and `end_game(True)` otherwise; deck and player's hand are untouched |
| `Api.PlayerHit` | api.py:105-114 | the last deck card joins the player's hand, the value is recomputed and `P_HIT.c` is written; a bust then writes GAME_OVER and ends the game as a loss, anything else leaves it open; the dealer's side is untouched |
| `Api.PlayerStand` | api.py:115-139 | the deck and dealer's hand end as `StandPlay` says, the hidden card is cleared, the history gains STAND, REVEAL, a D_HIT per card drawn, the terminal entry and GAME_OVER, and the game ends by the code: 0 and 1 lose, 2 ties, 3 and 4 win |
| `Console.Deck.constructor` | blackjack.py:110-121 | a new deck holds the 52 cards, each once, and no discards |
| `Console.Deck.Draw` | blackjack.py:123-131 | draw removes the last num cards, returns them in pop order and appends them to the discards; cards and discards together are unchanged |
| `Console.Deck.Reset` | blackjack.py:133-138 | reset empties the discards into the cards, which become a permutation of the old cards plus discards |
| `Console.Player.constructor` | blackjack.py:77-81 | a new player has no cards and value 0 |
| `Console.Player.Start` | blackjack.py:83-86 | the player draws the last two cards of the shared deck and caches the hand's value |
| `Console.Player.Hit` | blackjack.py:88-99 | the player draws one card, caches the value and answers whether it is at most 21 |
| `Console.Dealer.constructor` | blackjack.py:36-41 | a new dealer has no cards, no face-down card and value 0 |
| `Console.Dealer.Start` | blackjack.py:43-48 | the dealer draws one card face up, values only it, then draws the face-down card |
| `Console.Dealer.Reveal` | blackjack.py:50-53 | the face-down card joins the face-up cards, is cleared, and the value is recomputed |
| `Console.Dealer.Hit` | blackjack.py:55-66 | the dealer draws one card face up, caches the value and answers whether it is at most 21 |
| `Console.BlackjackGame.constructor` | blackjack.py:5-8 | the player and the dealer share one fresh deck of 52 cards; every card is in the deck or a hand |
| `Console.BlackjackGame.Start` | blackjack.py:10-12 | the player takes the last two cards, then the dealer one face up and one face down, all from the one deck; no card is lost |
| `Console.BlackjackGame.Reveal` | blackjack.py:20-22 | the dealer reveals, and the cards dealt are still exactly those the hands hold |
| `Console.BlackjackGame.Hit` | blackjack.py:24-31 | `D` or `P` draws the last card of the one deck into that hand and answers whether its value is at most 21, leaving the other side as it was; any other target, even on an empty deck, answers nothing and changes nothing |
| `Console.BlackjackGame.HitDealer` | blackjack.py:26-27 | the dealer's hit draws from the shared deck face up, keeps the face-down card, and no card is lost |
| `Console.BlackjackGame.HitPlayer` | blackjack.py:28-29 | the player's hit draws from the shared deck and no card is lost |

## Left out

- **Cards as values.** A card is a suit and a rank (`Cards.Card`), and `Token` gives the string the source stores. Strings that are not one of the 52 tokens never arise, and `get_card_val` on them (which raises or misreads) is not modelled.
- **The absent hidden card.** The source writes it as the empty string; the model writes `None`.
- **Persistence.** `put`, `get`, the `User` and `Score` queries and `get_by_urlsafe` have no effect in the model. The user record is an object, and the Score entities are the sequence `ScoreBoard.scores`.
- **The user's email.** The `email` field is not modelled.
- **The clock.** `date.today()` in `end_game` is the parameter `today`.
- **The random generator.** `random.shuffle` is a Fisher–Yates shuffle whose choice of swap position is left open. Only the permutation is promised.
- **Form messages.** `to_form` and the `*Form` message classes are not modelled. `make_move`'s message is the `Api.Reply` value; `Api.Message` gives its text.
- **Event descriptions.** `get_history` formats English descriptions from the `EVENTS` templates; those are not modelled. A parsed event is its kind and its cards.
  - Both reading errors of `get_history` (an unknown name, too few fields) are results, not exceptions.
- **Unicode lowering.** `str.lower` is modelled for ASCII letters only. Letters outside A–Z whose lowercase is an ASCII letter, such as U+0130 (lowered to `i` by Python 2's `unicode.lower`), are not modelled, so `Api.Decide` answers `AskVerb` to a verb such as `hİt` that make_move treats as hit.
- **The other endpoints and the console driver.** These are `create_user`, the `new_game` endpoint, `get_game`, `get_scores`, `get_user_scores`, `get_average_winrate` and `_cache_average_winrate` (memcache, task queue, float division). The console driver `BlackjackHandler` does `raw_input`/`print` I/O.
  - The `print` in `BlackjackGame.hit` for an unknown target is not modelled.
- **The terminal entry of the dealer's turn.** The source appends it inside the branch that ends the loop. `Models.Game.DealerTurn` appends it right after the loop, with nothing in between.
- **Pieces of `stand`.** `Settle`, `DealerBlackjack`, `DealerStep` and `DealerDraw` are the pieces of `stand`. `HitPlayer` and `HitDealer` are the two branches of `hit`. `NewTable` and `DealOpening` are the computation of `new_game` before its fields are stored. `make_move` is split the same way into `NaturalBlackjack`, `PlayerHit` and `PlayerStand`. On values, `Api.Decide` is split into `NaturalMove`, `HitMove` and `StandMove`, and `Api.Snapshot` reads a game's fields into a `Table`.
- **Natural-blackjack history.** On this path `make_move` writes no `P_BLK_JK` or `TIE` entry, only the REVEAL and GAME_OVER entries. The code is followed here. `P_BUST` and `P_BLK_JK` are never written by any path.
- **Unreachable branch.** The `Unknown error` branch of `make_move` cannot be reached, since `stand` always returns a code from 0 to 4. The model has no such branch.
- Models.Game.Stand: requires at least 17 cards among the deck, the dealer's cards and the hidden card. The source needs only the cards the dealer actually draws, and 17 among hand and deck is enough for any turn, since every card is worth at least 1; `Api.EnoughCards` shows every open game has them.
- Api.MakeMove: requires that an open game has at least 17 cards in its deck. This follows from its other requires (`Api.EnoughCards`).
- Console.Dealer.Reveal: requires a face-down card. Without one the source appends the empty string, and valuing it raises.
- Console.BlackjackGame.Start: promises that no card is lost only when the dealer held no face-down card before. A second `start` would overwrite it.
- **Integers.** They are unbounded, as in Python. No value comes near any bound.
