/** The game history of models.py: an append-only list of strings, each an
    event name followed by the cards the event carries, separated by '.'
    ("START.H2.SK.D10.CA", "P_HIT.H5", "STAND"), and the parsing done by
    Game.get_history, which splits each entry on '.'.  The English
    descriptions that get_history substitutes the cards into are not
    modelled; an event is its kind and its cards. */
module History {
  import opened Wrappers

  /** The keys of Game.EVENTS. */
  datatype Kind =
    | Start | GameOver | Reveal | Stand | PHit | DHit
    | PBust | DBust | PBlkJk | DBlkJk | PWin | DWin | Tie

  /** The name an event kind is stored under. */
  function Name(kind: Kind): string
  {
    match kind
    case Start => "START"
    case GameOver => "GAME_OVER"
    case Reveal => "REVEAL"
    case Stand => "STAND"
    case PHit => "P_HIT"
    case DHit => "D_HIT"
    case PBust => "P_BUST"
    case DBust => "D_BUST"
    case PBlkJk => "P_BLK_JK"
    case DBlkJk => "D_BLK_JK"
    case PWin => "P_WIN"
    case DWin => "D_WIN"
    case Tie => "TIE"
  }

  /** The lookup Game.EVENTS[name]: the kind stored under a name, if any. */
  function KindNamed(name: string): (r: Option<Kind>)
    ensures r.Some? ==> Name(r.value) == name
    ensures r.None? ==> forall kind: Kind :: Name(kind) != name
  {
    if name == "START" then Some(Start)
    else if name == "GAME_OVER" then Some(GameOver)
    else if name == "REVEAL" then Some(Reveal)
    else if name == "STAND" then Some(Stand)
    else if name == "P_HIT" then Some(PHit)
    else if name == "D_HIT" then Some(DHit)
    else if name == "P_BUST" then Some(PBust)
    else if name == "D_BUST" then Some(DBust)
    else if name == "P_BLK_JK" then Some(PBlkJk)
    else if name == "D_BLK_JK" then Some(DBlkJk)
    else if name == "P_WIN" then Some(PWin)
    else if name == "D_WIN" then Some(DWin)
    else if name == "TIE" then Some(Tie)
    else None
  }

  /** How many cards get_history reads after the name: four for START, one
      for REVEAL and for the two kinds whose names contain HIT, none for the
      rest. */
  function Arity(kind: Kind): nat
  {
    if kind == Start then 4
    else if kind == Reveal || kind == PHit || kind == DHit then 1
    else 0
  }

  /** An event: its kind and the card tokens attached to it. */
  datatype Event = Event(kind: Kind, cards: seq<string>)

  predicate DotFree(s: string) {
    '.' !in s
  }

  /** An event as the game records it: as many cards as its kind carries,
      none containing the separator. */
  predicate WellFormed(event: Event) {
    && |event.cards| == Arity(event.kind)
    && forall card | card in event.cards :: DotFree(card)
  }

  /** The fields of an entry glued with '.', as the game builds entries by
      concatenating '.' + card. */
  function Join(parts: seq<string>): string
    requires |parts| >= 1
  {
    if |parts| == 1 then parts[0] else parts[0] + "." + Join(parts[1..])
  }

  /** str.split('.'): the maximal dot-free pieces, an empty piece wherever
      two separators meet or the string starts or ends with one. */
  function Split(s: string): (parts: seq<string>)
    ensures |parts| >= 1
    ensures forall part | part in parts :: DotFree(part)
  {
    if s == [] then [""]
    else
      var rest := Split(s[1..]);
      if s[0] == '.' then [""] + rest
      else
        assert rest[0] in rest;
        assert forall part | part in rest[1..] :: part in rest;
        [[s[0]] + rest[0]] + rest[1..]
  }

  /** A dot-free string followed by a separator splits off as one piece. */
  lemma {:induction false} SplitAfterPiece(piece: string, tail: string)
    requires DotFree(piece)
    ensures Split(piece + "." + tail) == [piece] + Split(tail)
  {
    var s := piece + "." + tail;
    if piece == [] {
      assert s[1..] == tail;
    } else {
      assert s[1..] == piece[1..] + "." + tail;
      SplitAfterPiece(piece[1..], tail);
      assert [s[0]] + piece[1..] == piece;
    }
  }

  /** A dot-free string is a single piece. */
  lemma {:induction false} SplitPiece(piece: string)
    requires DotFree(piece)
    ensures Split(piece) == [piece]
  {
    if piece != [] {
      SplitPiece(piece[1..]);
      assert [piece[0]] + piece[1..] == piece;
    }
  }

  /** Splitting undoes joining dot-free fields. */
  lemma {:induction false} SplitJoin(parts: seq<string>)
    requires |parts| >= 1
    requires forall part | part in parts :: DotFree(part)
    ensures Split(Join(parts)) == parts
  {
    if |parts| == 1 {
      SplitPiece(parts[0]);
    } else {
      assert parts[0] in parts;
      assert forall part | part in parts[1..] :: part in parts;
      SplitJoin(parts[1..]);
      SplitAfterPiece(parts[0], Join(parts[1..]));
    }
  }

  /** Joining undoes splitting: no character of an entry is lost. */
  lemma {:induction false} JoinSplit(s: string)
    ensures Join(Split(s)) == s
  {
    if s != [] {
      var rest := Split(s[1..]);
      JoinSplit(s[1..]);
      if s[0] == '.' {
        assert Join([""] + rest) == "" + "." + Join(rest);
      } else {
        var parts := [[s[0]] + rest[0]] + rest[1..];
        if |rest| == 1 {
          assert Join(parts) == [s[0]] + rest[0];
        } else {
          assert parts[1..] == rest[1..];
          assert Join(rest) == rest[0] + "." + Join(rest[1..]);
        }
      }
    }
  }

  /** The history entry of an event: its name and its cards glued with '.'. */
  function Encode(event: Event): string
  {
    Join([Name(event.kind)] + event.cards)
  }

  /** Splitting the entry of a well-formed event on '.' gives back its name
      and its cards, one field each. */
  lemma EncodeFields(event: Event)
    requires WellFormed(event)
    ensures Split(Encode(event)) == [Name(event.kind)] + event.cards
  {
    var parts := [Name(event.kind)] + event.cards;
    assert forall part | part in parts :: part == Name(event.kind) || part in event.cards;
    SplitJoin(parts);
  }

  /** The exceptions get_history raises: KeyError for a name that is not an
      event kind, IndexError for an entry with too few cards. */
  datatype HistoryError = UnknownEvent(name: string) | MissingCards(entry: string)

  /** One iteration of get_history: split the entry on '.', look the first
      piece up among the event kinds and take the cards that kind carries. */
  function ParseEvent(entry: string): (r: Result<Event, HistoryError>)
    ensures r.Success? ==> WellFormed(r.value)
    ensures r.Success? && |Split(entry)| == 1 + Arity(r.value.kind) ==> Encode(r.value) == entry
    ensures r == Failure(UnknownEvent(Split(entry)[0])) <==> KindNamed(Split(entry)[0]).None?
    ensures r == Failure(MissingCards(entry)) <==>
      KindNamed(Split(entry)[0]).Some? && |Split(entry)| <= Arity(KindNamed(Split(entry)[0]).value)
    ensures r.Success? ==>
      && Name(r.value.kind) == Split(entry)[0]
      && |Split(entry)| > Arity(r.value.kind)
      && r.value.cards == Split(entry)[1..1 + Arity(r.value.kind)]
  {
    var parts := Split(entry);
    match KindNamed(parts[0])
    case None => Failure(UnknownEvent(parts[0]))
    case Some(kind) =>
      if |parts| <= Arity(kind) then Failure(MissingCards(entry))
      else
        var event := Event(kind, parts[1..1 + Arity(kind)]);
        assert forall card | card in event.cards :: card in parts;
        ExactFields(entry, event);
        Success(event)
  }

  /** An entry holding exactly its name and its cards is the encoding of the
      event read from it. */
  lemma ExactFields(entry: string, event: Event)
    requires |Split(entry)| >= 1 + |event.cards|
    requires Split(entry)[0] == Name(event.kind)
    requires event.cards == Split(entry)[1..1 + |event.cards|]
    ensures |Split(entry)| == 1 + |event.cards| ==> Encode(event) == entry
  {
    var parts := Split(entry);
    if |parts| == 1 + |event.cards| {
      assert [Name(event.kind)] + event.cards == parts;
      JoinSplit(entry);
    }
  }

  /** Reading back the entry of a well-formed event gives that event. */
  lemma ParseEncode(event: Event)
    requires WellFormed(event)
    ensures ParseEvent(Encode(event)) == Success(event)
  {
    var parts := [Name(event.kind)] + event.cards;
    EncodeFields(event);
    NameKnown(event.kind);
    assert parts[1..1 + Arity(event.kind)] == event.cards;
  }

  /** Every kind is found again under its own name. */
  lemma NameKnown(kind: Kind)
    ensures KindNamed(Name(kind)) == Some(kind)
  {
    match kind
    case Start =>
    case GameOver =>
    case Reveal =>
    case Stand =>
    case PHit =>
    case DHit =>
    case PBust =>
    case DBust =>
    case PBlkJk =>
    case DBlkJk =>
    case PWin =>
    case DWin =>
    case Tie =>
  }

  /** get_history over a whole list of entries: every entry read in order;
      the first entry that cannot be read raises its error. */
  function ParseHistory(history: seq<string>): (r: Result<seq<Event>, HistoryError>)
    ensures r.Success? <==> forall i | 0 <= i < |history| :: ParseEvent(history[i]).Success?
    ensures r.Success? ==>
      && |r.value| == |history|
      && forall i | 0 <= i < |history| :: ParseEvent(history[i]) == Success(r.value[i])
  {
    if history == [] then Success([])
    else
      var init := history[..|history| - 1];
      assert forall i | 0 <= i < |init| :: init[i] == history[i];
      match ParseHistory(init)
      case Failure(error) => Failure(error)
      case Success(events) =>
        match ParseEvent(history[|history| - 1])
        case Failure(error) => Failure(error)
        case Success(event) => Success(events + [event])
  }

  /** A failed read reports the error of the first entry that cannot be read. */
  lemma {:induction false} ParseHistoryFirstFailure(history: seq<string>)
    requires ParseHistory(history).Failure?
    ensures exists i | 0 <= i < |history| ::
      && ParseEvent(history[i]) == Failure(ParseHistory(history).error)
      && forall k | 0 <= k < i :: ParseEvent(history[k]).Success?
  {
    var init := history[..|history| - 1];
    assert forall i | 0 <= i < |init| :: init[i] == history[i];
    if ParseHistory(init).Failure? {
      ParseHistoryFirstFailure(init);
      var i :| 0 <= i < |init|
        && ParseEvent(init[i]) == Failure(ParseHistory(init).error)
        && forall k | 0 <= k < i :: ParseEvent(init[k]).Success?;
      assert ParseEvent(history[i]) == Failure(ParseHistory(history).error);
    } else {
      var i := |history| - 1;
      assert ParseEvent(history[i]) == Failure(ParseHistory(history).error);
    }
  }

  /** The entries of a list of events. */
  function EncodeAll(events: seq<Event>): (history: seq<string>)
    ensures |history| == |events|
  {
    seq(|events|, i requires 0 <= i < |events| => Encode(events[i]))
  }

  /** Reading back a history written from well-formed events gives those
      events, in order. */
  lemma ParseEncodeAll(events: seq<Event>)
    requires forall i | 0 <= i < |events| :: WellFormed(events[i])
    ensures ParseHistory(EncodeAll(events)) == Success(events)
  {
    var history := EncodeAll(events);
    forall i | 0 <= i < |events|
      ensures ParseEvent(history[i]) == Success(events[i])
    {
      ParseEncode(events[i]);
    }
    assert ParseHistory(history).value == events;
  }

  /** Every entry of a history can be read back: get_history does not raise. */
  predicate Readable(history: seq<string>) {
    forall i | 0 <= i < |history| :: ParseEvent(history[i]).Success?
  }

  /** A history with one more entry is readable exactly when the old one
      was and the new entry is. */
  lemma ReadableSnoc(history: seq<string>, entry: string)
    ensures Readable(history + [entry]) <==> Readable(history) && ParseEvent(entry).Success?
  {
    var longer := history + [entry];
    assert forall i | 0 <= i < |history| :: longer[i] == history[i];
    assert longer[|history|] == entry;
  }

  /** Two histories written one after the other are readable exactly when
      each of them is. */
  lemma ReadableConcat(first: seq<string>, second: seq<string>)
    ensures Readable(first + second) <==> Readable(first) && Readable(second)
  {
    var both := first + second;
    assert forall i | 0 <= i < |first| :: both[i] == first[i];
    assert forall i | 0 <= i < |second| :: both[|first| + i] == second[i];
    if Readable(first) && Readable(second) {
      forall i | 0 <= i < |both|
        ensures ParseEvent(both[i]).Success?
      {
        if i >= |first| {
          assert both[i] == second[i - |first|];
        }
      }
    }
  }

  /** The entries before any point of a readable history are readable. */
  lemma ReadablePrefix(history: seq<string>, n: nat)
    requires n <= |history| && Readable(history)
    ensures Readable(history[..n])
  {
    assert forall i | 0 <= i < n :: history[..n][i] == history[i];
  }

  /** A history written in six readable stretches is readable. */
  lemma ReadablePieces(a: seq<string>, b: seq<string>, c: seq<string>,
                       d: seq<string>, e: seq<string>, f: seq<string>)
    requires Readable(a) && Readable(b) && Readable(c) && Readable(d) && Readable(e) && Readable(f)
    ensures Readable(a + b + c + d + e + f)
  {
    ReadableConcat(a, b);
    ReadableConcat(a + b, c);
    ReadableConcat(a + b + c, d);
    ReadableConcat(a + b + c + d, e);
    ReadableConcat(a + b + c + d + e, f);
  }

  /** Adding one more field to an entry, as `entry += '.' + card` does. */
  lemma {:induction false} JoinAppend(parts: seq<string>, last: string)
    requires |parts| >= 1
    ensures Join(parts + [last]) == Join(parts) + "." + last
  {
    if |parts| > 1 {
      assert (parts + [last])[1..] == parts[1..] + [last];
      JoinAppend(parts[1..], last);
    }
  }

  /** The entry of an event without cards is its name alone. */
  lemma EncodeBare(kind: Kind)
    ensures Encode(Event(kind, [])) == Name(kind)
  {
  }

  /** The entry of an event with one card is its name, '.', and the card. */
  lemma EncodeOne(kind: Kind, card: string)
    ensures Encode(Event(kind, [card])) == Name(kind) + "." + card
    ensures Encode(Event(kind, [card])) == Name(kind) + ("." + card)
  {
    assert Name(kind) + "." + card == Name(kind) + ("." + card);
    var parts := [Name(kind)] + [card];
    assert parts[1..] == [card];
    assert Join(parts[1..]) == card;
  }

  /** Once a prefix of the history cannot be read, neither can the whole,
      and it fails with the same error. */
  lemma {:induction false} FailureSticks(history: seq<string>, n: nat)
    requires n <= |history|
    requires ParseHistory(history[..n]).Failure?
    ensures ParseHistory(history) == ParseHistory(history[..n])
    decreases |history| - n
  {
    if n < |history| {
      assert history[..n + 1][..n] == history[..n];
      FailureSticks(history, n + 1);
    } else {
      assert history[..n] == history;
    }
  }
}
