/** The value layer of the playing-card package: the Suit and Rank
    enumerations with their constant metadata, and the Card value built from
    one of each. The two Python modules of the package carry identical copies
    of this layer, so it is modelled once here. */
module Cards {
  import opened Errors

  // ---------------------------------------------------------------------
  // Suit

  /** The four suits, in the order the enumeration declares them. */
  datatype Suit = Club | Spade | Heart | Diamond

  datatype Colour = Black | Red

  /** The suits in declaration order: the order in which the Cartesian
      product of a reset and the identifier lookup walk them. */
  const Suits: seq<Suit> := [Club, Spade, Heart, Diamond]

  /** The rank each suit gets in the fixed table of Suit.__lt__. */
  function SuitOrder(s: Suit): nat {
    match s
    case Club => 0
    case Diamond => 1
    case Heart => 2
    case Spade => 3
  }

  /** Suit.__lt__ */
  predicate SuitLess(a: Suit, b: Suit): (lt: bool)
    ensures lt ==> a != b
    ensures lt <==> SuitId(a) < SuitId(b)
  {
    SuitOrder(a) < SuitOrder(b)
  }

  /** The one-character identifier of each suit (the "id" entry of the
      suit metadata table). */
  function SuitId(s: Suit): (id: char)
    ensures id == 'C' || id == 'D' || id == 'H' || id == 'S'
  {
    match s
    case Club => 'C'
    case Spade => 'S'
    case Heart => 'H'
    case Diamond => 'D'
  }

  /** The "colour" entry of the suit metadata table. */
  function SuitColour(s: Suit): (col: Colour)
    ensures col == Red <==> s in Suits[2..]
  {
    match s
    case Club => Black
    case Spade => Black
    case Heart => Red
    case Diamond => Red
  }

  /** The loop of Suit.from_id over the metadata table: the first suit of
      `table` whose identifier equals `key`. */
  function FindSuit(table: seq<Suit>, key: string): (r: Option<Suit>)
    ensures r.Some? ==> r.value in table && [SuitId(r.value)] == key
    ensures r.None? ==> forall s :: s in table ==> [SuitId(s)] != key
  {
    if table == [] then None
    else if [SuitId(table[0])] == key then Some(table[0])
    else FindSuit(table[1..], key)
  }

  /** Suit.from_id: the suit whose identifier is `key`, or a KeyError that
      names `key`. */
  function SuitFromId(key: string): (r: Result<Suit>)
    ensures r.Ok? <==> exists s :: [SuitId(s)] == key
    ensures r.Ok? ==> [SuitId(r.value)] == key
    ensures r.Err? ==> r.error == InvalidSuitId(key)
  {
    match FindSuit(Suits, key)
    case Some(s) => Ok(s)
    case None => Err(InvalidSuitId(key))
  }

  // ---------------------------------------------------------------------
  // Rank

  /** The thirteen ranks, Ace low. */
  datatype Rank =
    | Ace | Two | Three | Four | Five | Six | Seven
    | Eight | Nine | Ten | Jack | Queen | King

  /** The ranks in declaration order, that is, by increasing value. */
  const Ranks: seq<Rank> :=
    [Ace, Two, Three, Four, Five, Six, Seven, Eight, Nine, Ten, Jack, Queen, King]

  /** The integer value of each member of the rank enumeration. */
  function RankValue(r: Rank): (v: int)
    ensures 1 <= v <= 13
    ensures Ranks[v - 1] == r
  {
    match r
    case Ace => 1
    case Two => 2
    case Three => 3
    case Four => 4
    case Five => 5
    case Six => 6
    case Seven => 7
    case Eight => 8
    case Nine => 9
    case Ten => 10
    case Jack => 11
    case Queen => 12
    case King => 13
  }

  /** Rank.__lt__ */
  predicate RankLess(a: Rank, b: Rank): (lt: bool)
    ensures lt ==> a != b && a != King && b != Ace
  {
    RankValue(a) < RankValue(b)
  }

  /** The one-character identifier of each rank (the "id" entry of the
      rank metadata table). */
  function RankId(r: Rank): (id: char)
    ensures '2' <= id <= '9' || id == 'A' || id == 'T' || id == 'J' || id == 'Q' || id == 'K'
  {
    match r
    case Ace => 'A'
    case Two => '2'
    case Three => '3'
    case Four => '4'
    case Five => '5'
    case Six => '6'
    case Seven => '7'
    case Eight => '8'
    case Nine => '9'
    case Ten => 'T'
    case Jack => 'J'
    case Queen => 'Q'
    case King => 'K'
  }

  /** The loop of Rank.from_id over the metadata table: the first rank of
      `table` whose identifier equals `key`. */
  function FindRank(table: seq<Rank>, key: string): (r: Option<Rank>)
    ensures r.Some? ==> r.value in table && [RankId(r.value)] == key
    ensures r.None? ==> forall k :: k in table ==> [RankId(k)] != key
  {
    if table == [] then None
    else if [RankId(table[0])] == key then Some(table[0])
    else FindRank(table[1..], key)
  }

  /** Rank.from_id: the rank whose identifier is `key`, or a KeyError that
      names `key`. */
  function RankFromId(key: string): (r: Result<Rank>)
    ensures r.Ok? <==> exists k :: [RankId(k)] == key
    ensures r.Ok? ==> [RankId(r.value)] == key
    ensures r.Err? ==> r.error == InvalidRankId(key)
  {
    match FindRank(Ranks, key)
    case Some(k) => Ok(k)
    case None => Err(InvalidRankId(key))
  }

  // ---------------------------------------------------------------------
  // Card

  /** A card is a rank and a suit; datatype equality is the dataclass's
      field-wise equality. */
  datatype Card = Card(rank: Rank, suit: Suit)

  /** Card.__str__: the rank's identifier followed by the suit's. */
  function CardId(c: Card): (key: string)
    ensures |key| == 2
  {
    [RankId(c.rank), SuitId(c.suit)]
  }

  /** Card.from_id: a KeyError unless `key` has exactly two characters;
      otherwise the first character is looked up as a rank and then the
      second as a suit, and the first lookup that fails decides the error. */
  function CardFromId(key: string): (r: Result<Card>)
    ensures |key| != 2 ==> r == Err(BadKeyLength(key))
    ensures r.Ok? <==> |key| == 2 && (exists k :: RankId(k) == key[0]) && (exists s :: SuitId(s) == key[1])
    ensures r.Ok? ==> CardId(r.value) == key
    ensures r.Err? ==> r.error.IsKeyError()
    ensures |key| == 2 && (forall k :: RankId(k) != key[0]) ==> r == Err(InvalidRankId(key[..1]))
    ensures |key| == 2 && (exists k :: RankId(k) == key[0]) && (forall s :: SuitId(s) != key[1]) ==>
              r == Err(InvalidSuitId(key[1..]))
  {
    if |key| != 2 then Err(BadKeyLength(key))
    else
      assert forall k :: [RankId(k)] == key[..1] <==> RankId(k) == key[0];
      assert forall s :: [SuitId(s)] == key[1..] <==> SuitId(s) == key[1];
      var rank :- RankFromId(key[..1]);
      var suit :- SuitFromId(key[1..]);
      Ok(Card(rank, suit))
  }

  /** Card.value */
  function CardValue(c: Card): (v: int)
    ensures 1 <= v <= 13
    ensures Ranks[v - 1] == c.rank
  {
    RankValue(c.rank)
  }

  /** Card.colour */
  function CardColour(c: Card): (col: Colour)
    ensures col == Red <==> c.suit == Heart || c.suit == Diamond
  {
    SuitColour(c.suit)
  }

  // ---------------------------------------------------------------------
  // Properties

  /** Suit.__lt__ is a strict total order with Club < Diamond < Heart < Spade. */
  lemma SuitOrderIsStrictTotal()
    ensures forall a :: !SuitLess(a, a)
    ensures forall a, b, c :: SuitLess(a, b) && SuitLess(b, c) ==> SuitLess(a, c)
    ensures forall a, b :: a != b ==> SuitLess(a, b) || SuitLess(b, a)
    ensures SuitLess(Club, Diamond) && SuitLess(Diamond, Heart) && SuitLess(Heart, Spade)
  {
  }

  /** The fixed suit order is the order of the suits' identifier characters. */
  lemma SuitOrderFollowsIds()
    ensures forall a, b :: SuitLess(a, b) <==> SuitId(a) < SuitId(b)
  {
  }

  /** Rank.__lt__ is a strict total order with Ace least and King greatest,
      and a rank's value is its one-based position in declaration order. */
  lemma RankOrderIsStrictTotal()
    ensures forall a :: !RankLess(a, a)
    ensures forall a, b, c :: RankLess(a, b) && RankLess(b, c) ==> RankLess(a, c)
    ensures forall a, b :: a != b ==> RankLess(a, b) || RankLess(b, a)
    ensures forall r :: r != Ace ==> RankLess(Ace, r)
    ensures forall r :: r != King ==> RankLess(r, King)
    ensures forall r :: 1 <= RankValue(r) <= 13 && Ranks[RankValue(r) - 1] == r
  {
  }

  /** The suit identifiers are pairwise distinct, and so are the rank
      identifiers. */
  lemma IdsAreDistinct()
    ensures forall a, b :: SuitId(a) == SuitId(b) ==> a == b
    ensures forall a, b :: RankId(a) == RankId(b) ==> a == b
  {
  }

  /** Looking up a suit's or a rank's own identifier gives it back. */
  lemma IdLookupRoundTrip(r: Rank, s: Suit)
    ensures RankFromId([RankId(r)]) == Ok(r)
    ensures SuitFromId([SuitId(s)]) == Ok(s)
  {
    IdsAreDistinct();
  }

  /** Card identifiers round-trip: parsing a card's identifier gives the
      card back. */
  lemma CardRoundTrip(c: Card)
    ensures CardFromId(CardId(c)) == Ok(c)
  {
    IdLookupRoundTrip(c.rank, c.suit);
    var key := CardId(c);
    assert key[..1] == [RankId(c.rank)];
    assert key[1..] == [SuitId(c.suit)];
  }

  /** Distinct cards have distinct identifiers. */
  lemma CardIdInjective(a: Card, b: Card)
    ensures CardId(a) == CardId(b) ==> a == b
  {
    IdsAreDistinct();
    if CardId(a) == CardId(b) {
      assert CardId(a)[0] == CardId(b)[0];
      assert CardId(a)[1] == CardId(b)[1];
    }
  }

  /** The single-character identifiers the tests use as invalid are
      rejected by the suit and rank lookups. */
  lemma InvalidIdsAreRejected()
    ensures SuitFromId("X") == Err(InvalidSuitId("X"))
    ensures SuitFromId("1") == Err(InvalidSuitId("1"))
    ensures RankFromId("X") == Err(InvalidRankId("X"))
    ensures RankFromId("0") == Err(InvalidRankId("0"))
  {
    assert forall s :: SuitId(s) != 'X' && SuitId(s) != '1';
    assert forall k :: RankId(k) != 'X' && RankId(k) != '0';
  }

  /** The card identifiers the tests use as invalid are rejected, each with
      the error of the first check that fails. */
  lemma InvalidCardIdsAreRejected()
    ensures CardFromId("A") == Err(BadKeyLength("A"))
    ensures CardFromId("X") == Err(BadKeyLength("X"))
    ensures CardFromId("1") == Err(BadKeyLength("1"))
    ensures CardFromId("A0") == Err(InvalidSuitId("0"))
    ensures CardFromId("X1") == Err(InvalidRankId("X"))
    ensures CardFromId("X0") == Err(InvalidRankId("X"))
  {
    assert RankId(Ace) == "A0"[0];
    assert forall s :: SuitId(s) != '0';
    assert forall k :: RankId(k) != 'X';
    assert "A0"[1..] == "0" && "X1"[..1] == "X" && "X0"[..1] == "X";
  }
}
