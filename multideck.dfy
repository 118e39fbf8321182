/** The container of playing_cards/deck.py, the module the package exports:
    a `Deck` that holds `num_decks` 52-card decks together. Unlike the
    withdrawal of models.py, its withdrawal by identifier gives back
    nothing at all (Python's None) when no card matches. */
module MultiDeck {
  import opened Errors
  import opened Cards
  import opened Piles

  /** deck.Deck */
  class Deck {
    const numDecks: int
    var cards: seq<Card>

    /** Between resets, the deck holds at most `num_decks` copies of each
        card. */
    ghost predicate Valid()
      reads this
    {
      forall c :: multiset(cards)[c] <= Copies(numDecks)
    }

    /** Deck(num_decks=1): records the count, then resets. */
    constructor (numDecks: int := 1)
      ensures this.numDecks == numDecks
      ensures Valid()
      ensures |cards| == 52 * Copies(numDecks)
      ensures forall c :: multiset(cards)[c] == Copies(numDecks)
    {
      this.numDecks := numDecks;
      cards := [];
      new;
      Reset();
    }

    /** len(deck): between resets, never more than `num_decks` decks'
        worth. */
    method Len() returns (n: nat)
      ensures n == |cards|
      ensures Valid() ==> n <= 52 * Copies(numDecks)
    {
      n := |cards|;
      if Valid() {
        CapacityBound(cards, Copies(numDecks));
      }
    }

    /** deck[position]: reads without removing; Python indexing. */
    method GetItem(position: int) returns (r: Result<Card>)
      ensures r == ItemAt(cards, position)
    {
      r := ItemAt(cards, position);
    }

    /** The product of range(num_decks), the ranks and the suits, then
        shuffled: every card exactly `num_decks` times. */
    method Reset()
      modifies this
      ensures Valid()
      ensures |cards| == 52 * Copies(numDecks)
      ensures multiset(cards) == multiset(Repeated(numDecks))
      ensures forall c :: multiset(cards)[c] == Copies(numDecks)
    {
      cards := ProductOfCopies(numDecks);
      ProductOfCopiesIsRepeated(numDecks);
      Shuffle();
      forall c ensures multiset(cards)[c] == Copies(numDecks) {
        RepeatedCount(numDecks, c);
      }
    }

    /** Some permutation of the current cards. */
    method Shuffle()
      modifies this
      ensures |cards| == old(|cards|)
      ensures multiset(cards) == old(multiset(cards))
    {
      cards := Piles.Shuffle(cards);
    }

    /** take_card(_key): by identifier when `key` is a non-empty string
        (whose outcome may be None), otherwise the top (last) card. */
    method TakeCard(key: Option<string> := None) returns (r: Result<Option<Card>>)
      modifies this
      ensures key.Some? && key.value != "" ==>
                r.Ok? && Yields(TakeByKey(old(cards), key.value), r.value, old(cards), cards)
      ensures !(key.Some? && key.value != "") ==>
                match TakeTop(old(cards))
                case Ok(w) => r == Ok(Some(w.card)) && cards == w.rest
                case Err(e) => r == Err(e) && cards == old(cards)
      ensures old(Valid()) ==> Valid()
    {
      if key.Some? && key.value != "" {
        var taken := TakeCardByKey(key.value);
        r := Ok(taken);
      } else {
        ghost var before := cards;
        if cards == [] {
          r := Err(PopFromEmpty);
        } else {
          r := Ok(Some(cards[|cards| - 1]));
          cards := cards[..|cards| - 1];
        }
        if forall c :: multiset(before)[c] <= Copies(numDecks) {
          WithdrawalKeepsBound(before, None, if r.Ok? then Ok(r.value.value) else Err(r.error),
                               cards, Copies(numDecks));
        }
      }
    }

    /** _take_card_by_key(key): the first card whose identifier is `key` is
        popped and returned; when there is none the loop runs out and the
        result is None, with the deck unchanged. */
    method TakeCardByKey(key: string) returns (r: Option<Card>)
      modifies this
      ensures Yields(TakeByKey(old(cards), key), r, old(cards), cards)
      ensures old(Valid()) ==> Valid()
    {
      ghost var before := cards;
      var found := FindKey(cards, key);
      match found {
        case None =>
          r := None;
        case Some(i) =>
          r := Some(cards[i]);
          cards := RemoveAt(cards, i);
      }
      if forall c :: multiset(before)[c] <= Copies(numDecks) {
        WithdrawalKeepsBound(before, Some(key), if r.Some? then Ok(r.value) else Err(CardNotFound(key)),
                             cards, Copies(numDecks));
      }
    }
  }

  /** How this module's withdrawal by identifier reports a pure withdrawal
      `w` of `before`: the card on success, None (and no change) when the
      key is missing. */
  predicate Yields(w: Result<Withdrawal>, r: Option<Card>, before: seq<Card>, after: seq<Card>) {
    match w
    case Ok(x) => r == Some(x.card) && after == x.rest
    case Err(_) => r == None && after == before
  }

  // ---------------------------------------------------------------------
  // What callers of the class can rely on

  /** Taking "AS" twice from a fresh single deck: the first take returns
      the ace of spades; the second finds nothing and returns None instead
      of raising. */
  method TakeAceOfSpadesTwice() returns (first: Result<Option<Card>>, second: Result<Option<Card>>)
    ensures first == Ok(Some(Card(Ace, Spade)))
    ensures second == Ok(None)
  {
    var deck := new Deck();
    AceOfSpadesOnceFromOneDeck(deck.cards);
    first := deck.TakeCard(Some("AS"));
    second := deck.TakeCard(Some("AS"));
  }

  /** Two decks give up "AS" twice; the third take returns None. */
  method TakeAceOfSpadesFromTwoDecks() returns (first: Result<Option<Card>>, second: Result<Option<Card>>,
                                               third: Result<Option<Card>>)
    ensures first == Ok(Some(Card(Ace, Spade))) && second == Ok(Some(Card(Ace, Spade)))
    ensures third == Ok(None)
  {
    var deck := new Deck(2);
    AceOfSpadesTwiceFromTwoDecks(deck.cards);
    first := deck.TakeCard(Some("AS"));
    second := deck.TakeCard(Some("AS"));
    third := deck.TakeCard(Some("AS"));
  }
}
