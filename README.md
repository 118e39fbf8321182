# Playing cards: a verified Dafny model

This project models the card and deck data model of a small Python package,
`playing_cards`. The package has a standard French-suited 52-card pack with
four parts:

- `Suit` and `Rank`: closed enumerations. Each variant has a one-character
  identifier and a fixed order.
- `Card`: a (rank, suit) value. Its two-character identifier is the rank id
  followed by the suit id, and `Card.from_id` parses it back.
- `Deck` (and, in `models.py`, the subclass `Decks`): a mutable list of cards.
  It can be reset to one or more full packs, shuffled, read by position, and
  drawn from, either from the top or by identifier.

The package has two near-identical copies of this model. Their value layers
are identical, so `cards.dfy` models the value layer once. The containers
differ, so each has its own module.

| file | module | models |
|---|---|---|
| `errors.dfy` | `Errors` | the raised exceptions as values (`Error`), and `Result`/`Option` |
| `cards.dfy` | `Cards` | `Suit`, `Rank` and `Card` of `playing_cards/models.py` (identical in `playing_cards/deck.py`, lines 34-191) |
| `piles.dfy` | `Piles` | the list operations both deck classes use, written once on sequences: pack generation, Python indexing, `list.pop()`, first-match withdrawal, shuffle |
| `models.dfy` | `Models` | `Deck` and `Decks` of `playing_cards/models.py` |
| `multideck.dfy` | `MultiDeck` | the `num_decks` `Deck` of `playing_cards/deck.py`, which the package exports |

The identifier characters come from metadata files that are not part of this
model. They are a constant table here. The suit identifiers `C`, `S`, `H`, `D`
are the suits' initials, as the tests fix them. The rank identifiers are `A`,
`2`..`9`, `T`, `J`, `Q`, `K`. The tests fix `A`, `2`, `6`, `T`, `J`, `Q` and
`K`; the identifiers of 3, 4, 5, 7, 8 and 9 are assumed to be their digits. The
colours are also a constant table: clubs and spades black, hearts and diamonds
red. No test fixes the colours; this is the usual French-suited convention.

Each class keeps its list as a `seq<Card>` field that its methods reassign.
The withdrawal methods' contracts tie the new list and the result to a pure
function of the old list (`TakeTop`, `TakeByKey`). A shuffle leaves the order
open, so the contracts of `Reset` and `Shuffle` fix only the multiset of cards
(that of `Pack` or `Repeated` for a reset) and the length.
The properties are proved as lemmas about those functions. Each class also has
an invariant `Valid()` that every withdrawal preserves: it holds no more than
the number of decks' copies of any card. A few client methods per module play
through the tests' scenarios using only the classes' contracts.

## Model

| member | source | states |
|---|---|---|
| `Cards.SuitId` | playing_cards/models.py:70-75 | `Suit.id`: the constant identifier table that replaces the metadata file's `id` entry; every suit's identifier is one of `C`, `D`, `H`, `S` |
| `Cards.SuitLess` | playing_cards/models.py:41-49 | `Suit.__lt__` compares positions in the fixed order table; that order is exactly the order of the suits' identifier characters, and no suit is below itself |
| `Cards.SuitColour` | playing_cards/models.py:84-89 | `Suit.colour`: the assumed colour table; a suit is red exactly when it is one of the last two declared suits (hearts and diamonds) |
| `Cards.FindSuit` | playing_cards/models.py:64-66 | the lookup loop gives a suit of the table whose id is the key; when it gives none, no suit of the table has that id |
| `Cards.SuitFromId` | playing_cards/models.py:57-68 | succeeds exactly when some suit's id is the key, and then returns a suit with that id; otherwise a KeyError naming the key |
| `Cards.RankValue` | playing_cards/models.py:99-111 | the integer values of the rank enumeration are 1..13, each rank's value being its one-based position in declaration order |
| `Cards.RankLess` | playing_cards/models.py:113-115 | `Rank.__lt__` compares values; no rank is below itself, nothing is below Ace and King is below nothing |
| `Cards.RankId` | playing_cards/models.py:134-139 | `Rank.id`: the constant identifier table that replaces the metadata file's `id` entry; every rank's identifier is a digit 2..9 or one of `A`, `T`, `J`, `Q`, `K` |
| `Cards.FindRank` | playing_cards/deck.py:131-133 | the lookup loop gives a rank of the table whose id is the key; when it gives none, no rank of the table has that id |
| `Cards.RankFromId` | playing_cards/deck.py:126-135 | succeeds exactly when some rank's id is the key, and then returns a rank with that id; otherwise a KeyError naming the key |
| `Cards.CardId` | playing_cards/models.py:155-156 | a card's identifier always has exactly two characters |
| `Cards.CardFromId` | playing_cards/models.py:158-165 | a KeyError for any key whose length is not 2; succeeds exactly when the first character is a rank id and the second a suit id, and then returns the card whose identifier is the key; a bad rank character is reported first, then a bad suit character |
| `Cards.CardValue` | playing_cards/models.py:176-181 | a card's value is in 1..13 and is the one-based position of its rank in declaration order |
| `Cards.CardColour` | playing_cards/models.py:183-188 | a card is red exactly when its suit is hearts or diamonds |
| `Cards.SuitOrderIsStrictTotal` | playing_cards/models.py:41-49 | the suit order is irreflexive, transitive and total on distinct suits, with Club < Diamond < Heart < Spade |
| `Cards.SuitOrderFollowsIds` | playing_cards/models.py:43-49 | one suit is below another exactly when its identifier character is below the other's |
| `Cards.RankOrderIsStrictTotal` | playing_cards/models.py:99-115 | the rank order is a strict total order with Ace least and King greatest, and each rank's value is its position in declaration order |
| `Cards.IdsAreDistinct` | tests/test__suit.py:52-65 | the suit identifiers are pairwise distinct, and so are the rank identifiers |
| `Cards.IdLookupRoundTrip` | playing_cards/deck.py:126-142 | looking up a rank's or a suit's own identifier gives back that rank or suit |
| `Cards.CardRoundTrip` | playing_cards/models.py:155-165 | parsing the identifier of any card gives back that card |
| `Cards.CardIdInjective` | playing_cards/deck.py:158-159 | distinct cards have distinct identifiers |
| `Cards.InvalidIdsAreRejected` | tests/test__rank.py:78-83 | "X" and "1" are not suits, and "X" and "0" are not ranks; each error names the key |
| `Cards.InvalidCardIdsAreRejected` | tests/test__card.py:41-50 | "A" and "X" fail on length; "A0" fails on its suit; "X1" and "X0" fail on their rank |
| `Piles.Pack` | playing_cards/models.py:220-222 | the product of ranks and suits has 52 cards |
| `Piles.PackPosition` | playing_cards/models.py:220-222 | every card stands somewhere among the 52 positions of the product |
| `Piles.PackHasEveryCardOnce` | playing_cards/models.py:220-222 | every (rank, suit) pair occurs exactly once in the product |
| `Piles.Repeated` | playing_cards/models.py:279-283 | appending the pack once per iteration of `range(n)` gives 52 times max(n, 0) cards |
| `Piles.RepeatedCount` | playing_cards/models.py:279-283 | in n appended packs every pair occurs exactly max(n, 0) times |
| `Piles.ProductOfCopies` | playing_cards/deck.py:235-240 | the product of `range(num_decks)`, ranks and suits has 52 times max(num_decks, 0) cards |
| `Piles.ProductOfCopiesIsRepeated` | playing_cards/deck.py:235-240 | that product lists the same cards, in the same order, as appending the pack num_decks times, which is what `Decks.reset` of models.py does |
| `Piles.CapacityBound` | playing_cards/deck.py:231-242 | a list with at most k copies of each card has at most 52 times k cards, so a deck never holds more than its decks' worth |
| `Piles.ItemAt` | playing_cards/deck.py:228-229 | list indexing succeeds exactly for positions in -len..len-1 and then gives the card at the position taken modulo the length (negative positions count from the end); otherwise an IndexError |
| `Piles.TakeTop` | playing_cards/models.py:242 | `pop()` fails exactly on an empty list; otherwise the remaining list followed by the returned card is the old list |
| `Piles.FirstMatch` | playing_cards/models.py:254-255 | the position found holds a card with the key as identifier, and no earlier card has it; when nothing is found, no card has it |
| `Piles.RemoveAt` | playing_cards/models.py:256 | `pop(i)` shortens the list by one; the cards before i stay put and those after i move down by one |
| `Piles.TakeByKey` | playing_cards/models.py:244-258 | fails, with a KeyError naming the key, exactly when no card has the key; otherwise returns the first card with that identifier, and the rest is the list without it |
| `Piles.FindKey` | playing_cards/deck.py:272-274 | the enumerate loop stops at the first card whose identifier matches |
| `Piles.Shuffle` | playing_cards/deck.py:244-248 | the shuffled list has the same length and the same multiset of cards |
| `Piles.RemoveAtMultiset` | playing_cards/models.py:256 | `pop(i)` removes exactly one copy of the popped card from the multiset |
| `Piles.TakeTopMultiset` | playing_cards/models.py:242 | `pop()` removes exactly one copy of the returned card |
| `Piles.TakeByKeyCounts` | playing_cards/models.py:244-258 | withdrawing by a card's identifier succeeds exactly when the card is present; it returns that card and leaves one copy fewer |
| `Piles.TakeByKeyMultiset` | playing_cards/deck.py:260-274 | a successful withdrawal by key returns a card whose identifier is the key, and removes exactly that card |
| `Piles.WithdrawalKeepsBound` | playing_cards/models.py:232-258 | no withdrawal raises the number of copies of any card |
| `Piles.TakeTopRemovesLastCopy` | tests/test__deck.py:83-91 | in a list without duplicates, the card taken from the top is no longer in the list |
| `Piles.AceOfSpadesOnceFromOneDeck` | tests/test__deck.py:125-132 | from one full pack in any order, "AS" can be taken once and is then gone; the second take fails with a KeyError |
| `Piles.AceOfSpadesTwiceFromTwoDecks` | tests/test__decks.py:122-151 | from two full packs in any order, "AS" can be taken twice and is still present after the first take; the third take fails with a KeyError |
| `Models.Deck.constructor` | playing_cards/models.py:198-203 | a new deck holds the cards of the pack, every card exactly once (52 cards) |
| `Models.Deck.Len` | playing_cards/models.py:208-209 | the length is the number of cards in the list, and while the deck's invariant holds it is at most 52 |
| `Models.Deck.GetItem` | playing_cards/models.py:211-212 | reads with Python indexing and changes nothing |
| `Models.Deck.Reset` | playing_cards/models.py:214-224 | afterwards the deck holds every card of the pack exactly once, in some shuffled order |
| `Models.Deck.Shuffle` | playing_cards/models.py:226-230 | the length and the multiset of cards are unchanged |
| `Models.Deck.TakeCard` | playing_cards/models.py:232-242 | a non-empty identifier withdraws by identifier; otherwise the last card is popped, or an IndexError leaves an empty deck unchanged; the deck's invariant is preserved |
| `Models.Deck.TakeCardById` | playing_cards/models.py:244-258 | pops and returns the first matching card, and the other cards keep their order; a KeyError leaves the deck unchanged |
| `Models.Decks.constructor` | playing_cards/models.py:266-271 | records n and holds every card exactly max(n, 0) times |
| `Models.Decks.Len` | playing_cards/models.py:208-209 | inherited `__len__`: the number of cards, and while the invariant holds at most 52 times max(n, 0) |
| `Models.Decks.GetItem` | playing_cards/models.py:211-212 | inherited `__getitem__`: Python indexing, no change |
| `Models.Decks.Reset` | playing_cards/models.py:273-285 | the loop appends the pack n times (52 times max(n, 0) cards, every pair max(n, 0) times); then it shuffles |
| `Models.Decks.Shuffle` | playing_cards/models.py:226-230 | inherited shuffle: a permutation of the cards |
| `Models.Decks.TakeCard` | playing_cards/models.py:232-242 | the inherited dispatch between withdrawal by identifier and `pop()` on the combined pool |
| `Models.Decks.TakeCardById` | playing_cards/models.py:244-258 | the inherited first-match withdrawal on the combined pool |
| `Models.TakeEveryCard` | tests/test__deck.py:94-102 | a fresh deck gives up 52 cards from the top without an error, and together they are exactly the pack; the 53rd take is an IndexError |
| `Models.TakeAceOfSpadesTwice` | tests/test__deck.py:125-132 | from a fresh deck, "AS" returns the ace of spades; taking it again is a KeyError |
| `Models.TakeAceOfSpadesFromTwoDecks` | tests/test__decks.py:141-151 | from a fresh `Decks(2)`, "AS" can be taken twice; the third take is a KeyError |
| `MultiDeck.Deck.constructor` | playing_cards/deck.py:206-214 | records `num_decks` (default 1) and holds every card exactly max(num_decks, 0) times |
| `MultiDeck.Deck.Len` | playing_cards/deck.py:225-226 | the length is the number of cards in the list, and while the invariant holds at most 52 times max(num_decks, 0) |
| `MultiDeck.Deck.GetItem` | playing_cards/deck.py:228-229 | reads with Python indexing and changes nothing |
| `MultiDeck.Deck.Reset` | playing_cards/deck.py:231-242 | num_decks times 52 cards, every pair num_decks times, in some shuffled order |
| `MultiDeck.Deck.Shuffle` | playing_cards/deck.py:244-248 | the length and the multiset of cards are unchanged |
| `MultiDeck.Deck.TakeCard` | playing_cards/deck.py:250-258 | a non-empty key withdraws by key and never fails; otherwise the last card is popped, or an IndexError on an empty deck |
| `MultiDeck.Deck.TakeCardByKey` | playing_cards/deck.py:260-274 | pops and returns the first matching card, and the other cards keep their order; with no match it returns None and the deck is unchanged |
| `MultiDeck.TakeAceOfSpadesTwice` | playing_cards/deck.py:268-274 | from a fresh single deck a second take of "AS" returns None instead of raising |
| `MultiDeck.TakeAceOfSpadesFromTwoDecks` | tests/test__decks.py:122-139 | from a fresh two-deck `Deck`, "AS" can be taken twice; the third take returns None |

## Left out

- Loading the suit and rank metadata from TOML files is file I/O. The model uses a constant table of identifiers and colours instead.
- The order in which the metadata tables are walked is declaration order. The lookups' results do not depend on it, because the identifiers are distinct.
- `random.shuffle` becomes a Fisher-Yates pass whose random draws are left open. Its contract promises only some permutation, not uniformity.
- The `face` and `image` glyphs, `__repr__` and the pluralised `Deck.__str__` of deck.py are display strings. Most of them depend on the unseen metadata.
- The exceptions' message texts are left out. The KeyError values record the key that the message names. `PopFromEmpty` matches the IndexError "pop from empty list". `IndexOutOfRange` records the position, which the IndexError "list index out of range" does not name.
- The Python enumerations' string and integer forms are left out. So is `functools.total_ordering`, which is applied to a method and so adds no comparisons. The orders are modelled as `__lt__` defines them.
- The tests pass a `card_type=` argument, which neither source file accepts. They also import `Decks` from the package: models.py defines it, but the package's `__init__.py` re-exports only the names of deck.py, so that import fails. The model has `Decks` as models.py defines it.
- Python lets callers reassign `deck.cards` directly. The model only changes the list through the classes' methods, so `Valid()` is an invariant of those methods and not of arbitrary client code.
- `__getitem__` with a slice returns a list in Python. `GetItem` takes only integer positions.
- Python lets callers reassign the count of decks (`number_of_decks` in models.py, `_num_decks` in deck.py). The model makes it a `const`, fixed at construction.
- The subclass `Decks` cannot inherit from `Deck`, because the model has no traits. It repeats the inherited one-line methods, and each copy calls the same definitions in `Piles`.

## Findings

| source | as written | input that shows it | evidently intended | confidence | as-written member | corrected member |
|---|---|---|---|---|---|---|
| playing_cards/deck.py:260-274 | the loop of `_take_card_by_key` falls off the end when no card matches, so `take_card(key)` returns None and the deck is unchanged | `Deck().take_card("AS")` twice: the second call returns None | raise a KeyError naming the key, as its docstring (which says IndexError), the models.py copy (models.py:258) and the package's test for a missing card (tests/test__deck.py:125-132) expect | not executed; high | `MultiDeck.Deck.TakeCardByKey` (shown by `MultiDeck.TakeAceOfSpadesTwice`) | `Piles.TakeByKey` (used by `Models.Deck.TakeCardById`, shown by `Models.TakeAceOfSpadesTwice`) |
