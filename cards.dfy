/**
 * A card of a 52-card game (class Card of main.py): it is built from two
 * integers, a value that must lie in 1..13 and a colour that may be any
 * integer, and it carries a blackjack point value and a display text.
 */
module Cards {
  import opened Wrappers

  /** The value of a card that exists: 1 is the Ace, 11, 12 and 13 are Jack, Queen and King. */
  type Rank = r: int | 1 <= r <= 13 witness 1

  datatype Suit = Heart | Club | Spade | Diamond

  /** A card keeps its value and its colour; its name and its points follow from the value. */
  datatype Card = Card(rank: Rank, color: Suit)

  /** Raised (as a ValueError) for a value outside 1..13. */
  datatype CardError = NoSuchCard

  /**
   * The colour of the list Heart, Club, Spade, Diamond at index `color % 4 - 1`;
   * the index -1 names the last entry of the list.
   */
  function SuitOf(color: int): (s: Suit)
    ensures s == Heart <==> color % 4 == 1
    ensures s == Club <==> color % 4 == 2
    ensures s == Spade <==> color % 4 == 3
    ensures s == Diamond <==> color % 4 == 0
  {
    var suits := [Heart, Club, Spade, Diamond];
    var i := color % 4 - 1;
    if i == -1 then suits[|suits| - 1] else suits[i]
  }

  /** The colour number 1..4 the fresh deck uses for each suit. */
  function SuitNumber(s: Suit): int
  {
    match s
    case Heart => 1
    case Club => 2
    case Spade => 3
    case Diamond => 4
  }

  /** `Card(value, color)`: fails unless 1 <= value <= 13, any colour is accepted. */
  function NewCard(value: int, color: int): (r: Result<Card, CardError>)
    ensures r.Ok? <==> 1 <= value <= 13
    ensures r.Ok? ==> r.value.rank == value && r.value.color == SuitOf(color)
  {
    if value == 1 then Ok(Card(1, SuitOf(color)))
    else if 2 <= value <= 10 then Ok(Card(value, SuitOf(color)))
    else if 11 <= value <= 13 then Ok(Card(value, SuitOf(color)))
    else Err(NoSuchCard)
  }

  /** The `score` of a card: its value below 10, otherwise 10. */
  function Points(c: Card): (p: int)
    ensures 1 <= p <= 10
    ensures p == 1 <==> c.rank == 1
    ensures c.rank <= 10 ==> p == c.rank
    ensures c.rank >= 10 ==> p == 10
  {
    if c.rank < 10 then c.rank else 10
  }

  predicate IsAce(c: Card)
  {
    Points(c) == 1
  }

  /** The displayed value: Ace, the number 2..10 in decimal, or Jack, Queen, King. */
  function RankName(r: Rank): string
  {
    if r == 1 then "Ace"
    else if r == 10 then "10"
    else if r <= 9 then [('0' as int + r) as char]
    else ["Jack", "Queen", "King"][r - 11]
  }

  function SuitName(s: Suit): string
  {
    match s
    case Heart => "Heart"
    case Club => "Club"
    case Spade => "Spade"
    case Diamond => "Diamond"
  }

  /** `str(card)`: "<value> of <colour>". */
  function CardString(c: Card): string
  {
    RankName(c.rank) + " of " + SuitName(c.color)
  }

  /** Reads a displayed value back; the inverse of RankName. */
  function RankOfName(name: string): int
  {
    if name == "Ace" then 1
    else if name == "10" then 10
    else if name == "Jack" then 11
    else if name == "Queen" then 12
    else if name == "King" then 13
    else if |name| == 1 then name[0] as int - '0' as int
    else 0
  }

  function SuitOfName(name: string): Option<Suit>
  {
    if name == "Heart" then Some(Heart)
    else if name == "Club" then Some(Club)
    else if name == "Spade" then Some(Spade)
    else if name == "Diamond" then Some(Diamond)
    else None
  }

  /** Every card can be rebuilt from its value and its colour number. */
  lemma NewCardRoundTrip(c: Card)
    ensures NewCard(c.rank, SuitNumber(c.color)) == Ok(c)
  {
  }

  /** Any colour integer, reduced to the suit it names and back, keeps its residue modulo 4. */
  lemma SuitNumberOf(color: int)
    ensures SuitNumber(SuitOf(color)) % 4 == color % 4
  {
  }

  /** The displayed value names the rank it came from and holds no blank. */
  lemma {:induction false} RankNameRoundTrip(r: Rank)
    ensures RankOfName(RankName(r)) == r
    ensures 1 <= |RankName(r)| <= 5
    ensures forall k :: 0 <= k < |RankName(r)| ==> RankName(r)[k] != ' '
  {
    if 2 <= r <= 9 {
      assert RankName(r) == [('0' as int + r) as char];
    }
  }

  lemma SuitNameRoundTrip(s: Suit)
    ensures SuitOfName(SuitName(s)) == Some(s)
  {
  }

  /** Two cards with the same display text are the same card. */
  lemma {:induction false} CardStringInjective(a: Card, b: Card)
    requires CardString(a) == CardString(b)
    ensures a == b
  {
    var na, nb := RankName(a.rank), RankName(b.rank);
    RankNameRoundTrip(a.rank);
    RankNameRoundTrip(b.rank);
    var sa, sb := CardString(a), CardString(b);
    assert na == sa[..|na|] == sb[..|nb|] == nb;
    assert SuitName(a.color) == sa[|na| + 4..] == sb[|nb| + 4..] == SuitName(b.color);
    SuitNameRoundTrip(a.color);
    SuitNameRoundTrip(b.color);
  }

  /** The two displays the source states or documents. */
  lemma CardStringExamples()
    ensures NewCard(1, 1).Ok? && CardString(NewCard(1, 1).value) == "Ace of Heart"
    ensures NewCard(11, 2).Ok? && CardString(NewCard(11, 2).value) == "Jack of Club"
    ensures NewCard(0, 1) == Err(NoSuchCard) && NewCard(14, 1) == Err(NoSuchCard)
  {
  }
}
