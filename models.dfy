/** The containers of playing_cards/models.py: `Deck`, one 52-card deck,
    and its subclass `Decks`, which holds a fixed number of decks together
    and overrides only the reset. The Python subclass inherits the other
    methods; here each class carries its own one-line copies of them, all
    calling the shared definitions of module Piles. */
module Models {
  import opened Errors
  import opened Cards
  import opened Piles

  /** models.Deck */
  class Deck {
    var cards: seq<Card>

    /** Between resets, a deck holds at most one copy of each card. */
    ghost predicate Valid()
      reads this
    {
      forall c :: multiset(cards)[c] <= 1
    }

    /** Deck(): an empty list, then a reset. */
    constructor ()
      ensures Valid()
      ensures |cards| == 52
      ensures multiset(cards) == multiset(Pack())
      ensures forall c :: multiset(cards)[c] == 1
    {
      cards := [];
      new;
      Reset();
    }

    /** len(deck): between resets, never more than one deck's worth. */
    method Len() returns (n: nat)
      ensures n == |cards|
      ensures Valid() ==> n <= 52
    {
      n := |cards|;
      if Valid() {
        CapacityBound(cards, 1);
      }
    }

    /** deck[position]: reads without removing; Python indexing. */
    method GetItem(position: int) returns (r: Result<Card>)
      ensures r == ItemAt(cards, position)
    {
      r := ItemAt(cards, position);
    }

    /** Every card of the pack, exactly once, in some shuffled order. */
    method Reset()
      modifies this
      ensures Valid()
      ensures |cards| == 52
      ensures multiset(cards) == multiset(Pack())
      ensures forall c :: multiset(cards)[c] == 1
    {
      cards := Pack();
      Shuffle();
      PackHasEveryCardOnce();
    }

    /** Some permutation of the current cards. */
    method Shuffle()
      modifies this
      ensures |cards| == old(|cards|)
      ensures multiset(cards) == old(multiset(cards))
    {
      cards := Piles.Shuffle(cards);
    }

    /** take_card(_id): by identifier when `id` is a non-empty string,
        otherwise the top (last) card. */
    method TakeCard(id: Option<string> := None) returns (r: Result<Card>)
      modifies this
      ensures Performs(if id.Some? && id.value != "" then TakeByKey(old(cards), id.value)
                       else TakeTop(old(cards)), r, old(cards), cards)
      ensures old(Valid()) ==> Valid()
    {
      if id.Some? && id.value != "" {
        r := TakeCardById(id.value);
      } else {
        ghost var before := cards;
        if cards == [] {
          r := Err(PopFromEmpty);
        } else {
          r := Ok(cards[|cards| - 1]);
          cards := cards[..|cards| - 1];
        }
        if forall c :: multiset(before)[c] <= 1 {
          WithdrawalKeepsBound(before, None, r, cards, 1);
        }
      }
    }

    /** _take_card_by_id(id_): the first card whose identifier is `id` is
        popped and returned; a KeyError when there is none. */
    method TakeCardById(id: string) returns (r: Result<Card>)
      modifies this
      ensures Performs(TakeByKey(old(cards), id), r, old(cards), cards)
      ensures old(Valid()) ==> Valid()
    {
      ghost var before := cards;
      var found := FindKey(cards, id);
      match found {
        case None =>
          r := Err(CardNotFound(id));
        case Some(i) =>
          r := Ok(cards[i]);
          cards := RemoveAt(cards, i);
      }
      if forall c :: multiset(before)[c] <= 1 {
        WithdrawalKeepsBound(before, Some(id), r, cards, 1);
      }
    }
  }

  /** models.Decks: `n` decks held together. */
  class Decks {
    const numberOfDecks: int
    var cards: seq<Card>

    /** Between resets, the decks hold at most `n` copies of each card. */
    ghost predicate Valid()
      reads this
    {
      forall c :: multiset(cards)[c] <= Copies(numberOfDecks)
    }

    /** Decks(n): records n, then the inherited initialiser resets. */
    constructor (n: int)
      ensures numberOfDecks == n
      ensures Valid()
      ensures |cards| == 52 * Copies(n)
      ensures forall c :: multiset(cards)[c] == Copies(n)
    {
      numberOfDecks := n;
      cards := [];
      new;
      Reset();
    }

    /** The inherited len(deck): between resets, never more than `n`
        decks' worth. */
    method Len() returns (n: nat)
      ensures n == |cards|
      ensures Valid() ==> n <= 52 * Copies(numberOfDecks)
    {
      n := |cards|;
      if Valid() {
        CapacityBound(cards, Copies(numberOfDecks));
      }
    }

    method GetItem(position: int) returns (r: Result<Card>)
      ensures r == ItemAt(cards, position)
    {
      r := ItemAt(cards, position);
    }

    /** Decks.reset: the pack is appended once per deck, then shuffled. */
    method Reset()
      modifies this
      ensures Valid()
      ensures |cards| == 52 * Copies(numberOfDecks)
      ensures multiset(cards) == multiset(Repeated(numberOfDecks))
      ensures forall c :: multiset(cards)[c] == Copies(numberOfDecks)
    {
      cards := [];
      var k := 0;
      while k < numberOfDecks
        invariant 0 <= k <= Copies(numberOfDecks)
        invariant cards == Repeated(k)
      {
        cards := cards + Pack();
        k := k + 1;
      }
      Shuffle();
      forall c ensures multiset(cards)[c] == Copies(numberOfDecks) {
        RepeatedCount(numberOfDecks, c);
      }
    }

    method Shuffle()
      modifies this
      ensures |cards| == old(|cards|)
      ensures multiset(cards) == old(multiset(cards))
    {
      cards := Piles.Shuffle(cards);
    }

    method TakeCard(id: Option<string> := None) returns (r: Result<Card>)
      modifies this
      ensures Performs(if id.Some? && id.value != "" then TakeByKey(old(cards), id.value)
                       else TakeTop(old(cards)), r, old(cards), cards)
      ensures old(Valid()) ==> Valid()
    {
      if id.Some? && id.value != "" {
        r := TakeCardById(id.value);
      } else {
        ghost var before := cards;
        if cards == [] {
          r := Err(PopFromEmpty);
        } else {
          r := Ok(cards[|cards| - 1]);
          cards := cards[..|cards| - 1];
        }
        if forall c :: multiset(before)[c] <= Copies(numberOfDecks) {
          WithdrawalKeepsBound(before, None, r, cards, Copies(numberOfDecks));
        }
      }
    }

    method TakeCardById(id: string) returns (r: Result<Card>)
      modifies this
      ensures Performs(TakeByKey(old(cards), id), r, old(cards), cards)
      ensures old(Valid()) ==> Valid()
    {
      ghost var before := cards;
      var found := FindKey(cards, id);
      match found {
        case None =>
          r := Err(CardNotFound(id));
        case Some(i) =>
          r := Ok(cards[i]);
          cards := RemoveAt(cards, i);
      }
      if forall c :: multiset(before)[c] <= Copies(numberOfDecks) {
        WithdrawalKeepsBound(before, Some(id), r, cards, Copies(numberOfDecks));
      }
    }
  }

  // ---------------------------------------------------------------------
  // What callers of the two classes can rely on

  /** A fresh deck gives up 52 cards from the top, which together are the
      whole pack; the 53rd take is an IndexError. */
  method TakeEveryCard() returns (taken: seq<Card>, last: Result<Card>)
    ensures |taken| == 52
    ensures multiset(taken) == multiset(Pack())
    ensures last == Err(PopFromEmpty)
  {
    var deck := new Deck();
    taken := [];
    var i := 0;
    while i < 52
      invariant 0 <= i <= 52
      invariant |deck.cards| == 52 - i && |taken| == i
      invariant multiset(deck.cards) + multiset(taken) == multiset(Pack())
    {
      ghost var before := deck.cards;
      var r := deck.TakeCard();
      assert before == deck.cards + [r.value];
      taken := taken + [r.value];
      i := i + 1;
    }
    last := deck.TakeCard();
  }

  /** Taking "AS" from a fresh deck returns the ace of spades and leaves it
      out of the deck; taking it again is a KeyError. */
  method TakeAceOfSpadesTwice() returns (first: Result<Card>, second: Result<Card>)
    ensures first == Ok(Card(Ace, Spade))
    ensures second == Err(CardNotFound("AS"))
  {
    var deck := new Deck();
    AceOfSpadesOnceFromOneDeck(deck.cards);
    first := deck.TakeCard(Some("AS"));
    second := deck.TakeCard(Some("AS"));
  }

  /** Two decks together give up "AS" twice, and the third take is a
      KeyError. */
  method TakeAceOfSpadesFromTwoDecks() returns (first: Result<Card>, second: Result<Card>, third: Result<Card>)
    ensures first == Ok(Card(Ace, Spade)) && second == Ok(Card(Ace, Spade))
    ensures third == Err(CardNotFound("AS"))
  {
    var decks := new Decks(2);
    AceOfSpadesTwiceFromTwoDecks(decks.cards);
    first := decks.TakeCard(Some("AS"));
    second := decks.TakeCard(Some("AS"));
    third := decks.TakeCard(Some("AS"));
  }
}
