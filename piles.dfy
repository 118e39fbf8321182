/** What both deck classes of the package do to their list of cards,
    written once on sequence values: the Cartesian product a reset builds,
    its repetition for several decks, Python list indexing, list.pop(),
    withdrawal of the first card with a given identifier, and the shuffle. */
module Piles {
  import opened Errors
  import opened Cards

  // ---------------------------------------------------------------------
  // Generating the cards of a reset

  /** The 52 cards of one deck, rank by rank, each rank in the four suits,
      both in declaration order, as the Cartesian product of a reset
      lists them. */
  function Pack(): (p: seq<Card>)
    ensures |p| == 52
  {
    seq(52, i requires 0 <= i < 52 => Card(Ranks[i / 4], Suits[i % 4]))
  }

  /** range(n) runs zero times when n is zero or negative. */
  function Copies(n: int): nat {
    if n > 0 then n else 0
  }

  /** The pack appended to an empty list once per iteration of
      `for _ in range(n)`. */
  function Repeated(n: int): (p: seq<Card>)
    ensures |p| == 52 * Copies(n)
    decreases n
  {
    if n <= 0 then [] else Repeated(n - 1) + Pack()
  }

  /** The product of `n` copies with the ranks and the suits, copy by
      copy: position i holds copy i / 52 of the card at position i % 52 of
      the pack. */
  function ProductOfCopies(n: int): (p: seq<Card>)
    ensures |p| == 52 * Copies(n)
  {
    seq(52 * Copies(n), i requires 0 <= i < 52 * Copies(n) => Pack()[i % 52])
  }

  /** Where a card stands in the pack. */
  function PackPosition(c: Card): (k: nat)
    ensures k < 52 && Pack()[k] == c
  {
    RankTableFacts();
    assert Ranks[RankValue(c.rank) - 1] == c.rank;
    var k := 4 * (RankValue(c.rank) - 1) + SuitPosition(c.suit);
    assert k / 4 == RankValue(c.rank) - 1 && k % 4 == SuitPosition(c.suit);
    k
  }

  /** Where a suit stands in the declaration-order table. */
  function SuitPosition(s: Suit): (m: nat)
    ensures m < 4 && Suits[m] == s
  {
    match s
    case Club => 0
    case Spade => 1
    case Heart => 2
    case Diamond => 3
  }

  lemma RankTableFacts()
    ensures forall m :: 0 <= m < 13 ==> RankValue(Ranks[m]) == m + 1
    ensures forall r :: 1 <= RankValue(r) <= 13 && Ranks[RankValue(r) - 1] == r
  {
    RankOrderIsStrictTotal();
  }

  /** No two positions of the pack hold the same card. */
  lemma {:induction false} PackPositionUnique(c: Card, j: nat)
    requires j < 52 && Pack()[j] == c
    ensures j == PackPosition(c)
  {
    RankTableFacts();
    var k := PackPosition(c);
    assert Ranks[j / 4] == c.rank == Ranks[k / 4];
    assert RankValue(Ranks[j / 4]) == j / 4 + 1 && RankValue(Ranks[k / 4]) == k / 4 + 1;
    assert Suits[j % 4] == c.suit == Suits[k % 4];
    assert j % 4 == k % 4;
    assert j == 4 * (j / 4) + j % 4 && k == 4 * (k / 4) + k % 4;
  }

  /** A value held at exactly one position of a sequence occurs once in
      its multiset. */
  lemma CountOfUnique<T>(s: seq<T>, k: nat)
    requires k < |s|
    requires forall j :: 0 <= j < |s| && j != k ==> s[j] != s[k]
    ensures multiset(s)[s[k]] == 1
  {
    assert s == s[..k] + [s[k]] + s[k + 1..];
    assert s[k] !in s[..k];
    assert s[k] !in s[k + 1..];
  }

  /** One deck holds every (rank, suit) pair exactly once. */
  lemma PackHasEveryCardOnce()
    ensures forall c :: multiset(Pack())[c] == 1
  {
    forall c ensures multiset(Pack())[c] == 1 {
      var k := PackPosition(c);
      forall j | 0 <= j < 52 && j != k ensures Pack()[j] != c {
        if Pack()[j] == c {
          PackPositionUnique(c, j);
        }
      }
      CountOfUnique(Pack(), k);
    }
  }

  /** `n` decks hold every (rank, suit) pair exactly `n` times (none when
      `n` is not positive). */
  lemma {:induction false} RepeatedCount(n: int, c: Card)
    ensures multiset(Repeated(n))[c] == Copies(n)
    decreases n
  {
    if n > 0 {
      RepeatedCount(n - 1, c);
      PackHasEveryCardOnce();
    }
  }

  /** The product comprehension over range(n) lists the same cards in the
      same order as appending the pack n times. */
  lemma {:induction false} ProductOfCopiesIsRepeated(n: int)
    ensures ProductOfCopies(n) == Repeated(n)
    decreases n
  {
    if n > 0 {
      ProductOfCopiesIsRepeated(n - 1);
      var p, q := ProductOfCopies(n), Repeated(n);
      var m := 52 * (n - 1);
      forall i | 0 <= i < |p| ensures p[i] == q[i] {
        if i < m {
          assert p[i] == ProductOfCopies(n - 1)[i];
        } else {
          assert i % 52 == i - m by {
            assert i == 52 * (n - 1) + (i - m);
          }
        }
      }
    }
  }

  /** A list holding at most `k` copies of each card holds at most `k`
      full decks' worth of cards. */
  lemma CapacityBound(s: seq<Card>, k: nat)
    requires forall c :: multiset(s)[c] <= k
    ensures |s| <= 52 * k
  {
    var full := multiset(Repeated(k));
    forall c ensures multiset(s)[c] <= full[c] {
      RepeatedCount(k, c);
    }
    assert multiset(s) <= full;
    var d := full - multiset(s);
    assert full == multiset(s) + d;
  }

  // ---------------------------------------------------------------------
  // Reading and withdrawing

  /** Python's list indexing `cards[position]`: a negative position counts
      from the end; anything outside -len..len-1 is an IndexError. */
  function ItemAt(cards: seq<Card>, position: int): (r: Result<Card>)
    ensures r.Ok? <==> -|cards| <= position < |cards|
    ensures r.Ok? ==> r.value == cards[position % |cards|]
    ensures r.Err? ==> r.error == IndexOutOfRange(position) && !r.error.IsKeyError()
  {
    if 0 <= position < |cards| then Ok(cards[position])
    else if -|cards| <= position < 0 then Ok(cards[|cards| + position])
    else Err(IndexOutOfRange(position))
  }

  /** A card taken out of a list, and what the list holds afterwards. */
  datatype Withdrawal = Withdrawal(card: Card, rest: seq<Card>)

  /** list.pop(): the last card goes, the cards before it stay as they are. */
  function TakeTop(cards: seq<Card>): (r: Result<Withdrawal>)
    ensures r.Err? <==> cards == []
    ensures r.Err? ==> r.error == PopFromEmpty && !r.error.IsKeyError()
    ensures r.Ok? ==> r.value.rest + [r.value.card] == cards
  {
    if cards == [] then Err(PopFromEmpty)
    else Ok(Withdrawal(cards[|cards| - 1], cards[..|cards| - 1]))
  }

  /** The position of the first card whose identifier is `key`. */
  function FirstMatch(cards: seq<Card>, key: string): (r: Option<nat>)
    ensures r.Some? ==> r.value < |cards| && CardId(cards[r.value]) == key
    ensures r.Some? ==> forall j :: 0 <= j < r.value ==> CardId(cards[j]) != key
    ensures r.None? ==> forall j :: 0 <= j < |cards| ==> CardId(cards[j]) != key
  {
    if cards == [] then None
    else if CardId(cards[0]) == key then Some(0)
    else match FirstMatch(cards[1..], key)
      case None => None
      case Some(i) => Some(i + 1)
  }

  /** The list with the card at position `i` popped out. */
  function RemoveAt(cards: seq<Card>, i: nat): (rest: seq<Card>)
    requires i < |cards|
    ensures |rest| == |cards| - 1
    ensures forall j :: 0 <= j < i ==> rest[j] == cards[j]
    ensures forall j :: i <= j < |rest| ==> rest[j] == cards[j + 1]
  {
    cards[..i] + cards[i + 1..]
  }

  /** Withdrawal by identifier: the first card whose identifier is `key`
      goes and every other card keeps its place in order; when no card
      has that identifier the result is a KeyError naming `key`. */
  function TakeByKey(cards: seq<Card>, key: string): (r: Result<Withdrawal>)
    ensures r.Err? <==> forall j :: 0 <= j < |cards| ==> CardId(cards[j]) != key
    ensures r.Err? ==> r.error == CardNotFound(key) && r.error.IsKeyError()
    ensures r.Ok? ==> exists i :: 0 <= i < |cards| && cards[i] == r.value.card &&
                        CardId(cards[i]) == key &&
                        (forall j :: 0 <= j < i ==> CardId(cards[j]) != key) &&
                        r.value.rest == cards[..i] + cards[i + 1..]
  {
    match FirstMatch(cards, key)
    case None => Err(CardNotFound(key))
    case Some(i) => Ok(Withdrawal(cards[i], RemoveAt(cards, i)))
  }

  /** What a withdrawal method does with a pure withdrawal `w` of
      `before`: on success it returns the card and leaves `after` as the
      rest; on failure it returns the error and leaves the cards as they
      were. */
  predicate Performs(w: Result<Withdrawal>, r: Result<Card>, before: seq<Card>, after: seq<Card>) {
    match w
    case Ok(x) => r == Ok(x.card) && after == x.rest
    case Err(e) => r == Err(e) && after == before
  }

  /** The enumerate loop of the withdrawal by identifier: it stops at the
      first card whose identifier is `key`. */
  method FindKey(cards: seq<Card>, key: string) returns (r: Option<nat>)
    ensures r == FirstMatch(cards, key)
  {
    var i := 0;
    while i < |cards|
      invariant 0 <= i <= |cards|
      invariant forall j :: 0 <= j < i ==> CardId(cards[j]) != key
    {
      if CardId(cards[i]) == key {
        return Some(i);
      }
      i := i + 1;
    }
    return None;
  }

  /** random.shuffle as a Fisher-Yates pass whose random draws are left
      open: every run ends in some permutation of the input. */
  method Shuffle<T>(s: seq<T>) returns (t: seq<T>)
    ensures |t| == |s|
    ensures multiset(t) == multiset(s)
  {
    t := s;
    var i := |t|;
    while i > 1
      invariant 0 <= i <= |t| == |s|
      invariant multiset(t) == multiset(s)
    {
      i := i - 1;
      var j :| 0 <= j <= i;
      t := t[i := t[j]][j := t[i]];
    }
  }

  // ---------------------------------------------------------------------
  // Properties of withdrawal

  lemma RemoveAtMultiset(cards: seq<Card>, i: nat)
    requires i < |cards|
    ensures multiset(RemoveAt(cards, i)) == multiset(cards) - multiset{cards[i]}
  {
    assert cards == cards[..i] + [cards[i]] + cards[i + 1..];
  }

  /** Popping the top card takes exactly that card out of the multiset of
      cards. */
  lemma TakeTopMultiset(cards: seq<Card>)
    requires cards != []
    ensures multiset(TakeTop(cards).value.rest) == multiset(cards) - multiset{TakeTop(cards).value.card}
  {
    var w := TakeTop(cards).value;
    assert cards == w.rest + [w.card];
  }

  /** Withdrawing by a card's identifier succeeds exactly when a copy of
      that card is present; it returns that card and leaves one copy fewer,
      and across repeated withdrawals no other card is touched. */
  lemma TakeByKeyCounts(cards: seq<Card>, c: Card)
    ensures TakeByKey(cards, CardId(c)).Ok? <==> c in cards
    ensures TakeByKey(cards, CardId(c)).Ok? ==>
              TakeByKey(cards, CardId(c)).value.card == c &&
              multiset(TakeByKey(cards, CardId(c)).value.rest) == multiset(cards) - multiset{c}
  {
    var key := CardId(c);
    forall d | d in cards ensures CardId(d) == key <==> d == c {
      CardIdInjective(d, c);
    }
    match FirstMatch(cards, key)
    case None =>
    case Some(i) =>
      CardIdInjective(cards[i], c);
      RemoveAtMultiset(cards, i);
  }

  /** Withdrawal by identifier takes exactly the returned card, whose
      identifier is the key, out of the multiset of cards. */
  lemma TakeByKeyMultiset(cards: seq<Card>, key: string)
    requires TakeByKey(cards, key).Ok?
    ensures CardId(TakeByKey(cards, key).value.card) == key
    ensures multiset(TakeByKey(cards, key).value.rest) == multiset(cards) - multiset{TakeByKey(cards, key).value.card}
  {
    RemoveAtMultiset(cards, FirstMatch(cards, key).value);
  }

  /** A withdrawal never raises the number of copies of any card, so a
      bound on the copies that a deck holds survives every withdrawal. */
  lemma WithdrawalKeepsBound(before: seq<Card>, key: Option<string>, r: Result<Card>, after: seq<Card>, bound: nat)
    requires forall c :: multiset(before)[c] <= bound
    requires Performs(if key.Some? then TakeByKey(before, key.value) else TakeTop(before), r, before, after)
    ensures forall c :: multiset(after)[c] <= bound
  {
    if key.Some? && TakeByKey(before, key.value).Ok? {
      TakeByKeyMultiset(before, key.value);
    } else if key.None? && before != [] {
      TakeTopMultiset(before);
    }
  }

  /** In a list without duplicates, a card withdrawn from the top is no
      longer in the list. */
  lemma TakeTopRemovesLastCopy(cards: seq<Card>)
    requires cards != []
    requires forall c :: multiset(cards)[c] <= 1
    ensures TakeTop(cards).value.card !in TakeTop(cards).value.rest
  {
    TakeTopMultiset(cards);
    assert multiset(cards)[TakeTop(cards).value.card] <= 1;
  }

  /** From a shuffled single deck, the ace of spades can be withdrawn by
      its identifier once, and the second attempt fails. */
  lemma AceOfSpadesOnceFromOneDeck(cards: seq<Card>)
    requires forall c :: multiset(cards)[c] == 1
    ensures CardId(Card(Ace, Spade)) == "AS"
    ensures var first := TakeByKey(cards, "AS");
            first.Ok? && first.value.card == Card(Ace, Spade) &&
            Card(Ace, Spade) !in first.value.rest &&
            TakeByKey(first.value.rest, "AS") == Err(CardNotFound("AS"))
  {
    var c := Card(Ace, Spade);
    TakeByKeyCounts(cards, c);
    var rest := TakeByKey(cards, "AS").value.rest;
    assert multiset(rest)[c] == 0;
    TakeByKeyCounts(rest, c);
  }

  /** From a shuffled set of two decks, the ace of spades can be withdrawn
      by its identifier twice, still being present after the first time and
      gone after the second, and the third attempt fails. */
  lemma AceOfSpadesTwiceFromTwoDecks(cards: seq<Card>)
    requires forall c :: multiset(cards)[c] == 2
    ensures CardId(Card(Ace, Spade)) == "AS"
    ensures var first := TakeByKey(cards, "AS");
            first.Ok? && first.value.card == Card(Ace, Spade) &&
            Card(Ace, Spade) in first.value.rest &&
            var second := TakeByKey(first.value.rest, "AS");
            second.Ok? && second.value.card == Card(Ace, Spade) &&
            Card(Ace, Spade) !in second.value.rest &&
            TakeByKey(second.value.rest, "AS") == Err(CardNotFound("AS"))
  {
    var c := Card(Ace, Spade);
    TakeByKeyCounts(cards, c);
    var rest1 := TakeByKey(cards, "AS").value.rest;
    assert multiset(rest1)[c] == 1;
    TakeByKeyCounts(rest1, c);
    var rest2 := TakeByKey(rest1, "AS").value.rest;
    assert multiset(rest2)[c] == 0;
    TakeByKeyCounts(rest2, c);
  }
}
