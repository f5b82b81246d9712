/**
 * A deck (class Deck of main.py): an ordered list of cards, changed in place
 * by appending cards at the end and by removing the card at an index.
 * Duplicates and the empty deck are both allowed.
 */
module Decks {
  import opened Cards

  /** What `add_card` receives: one card, or a list of cards. */
  datatype CardOrList = One(card: Card) | Many(cards: seq<Card>)

  /** The cards `add_card` appends, in the order it appends them. */
  function Items(item: CardOrList): seq<Card>
  {
    match item
    case One(c) => [c]
    case Many(cs) => cs
  }

  /** The list `s` after `pop(i)`. */
  function RemovedAt(s: seq<Card>, i: nat): (r: seq<Card>)
    requires i < |s|
    ensures |r| == |s| - 1
    ensures forall k :: 0 <= k < i ==> r[k] == s[k]
    ensures forall k :: i <= k < |r| ==> r[k] == s[k + 1]
  {
    s[..i] + s[i + 1..]
  }

  /** Popping any index keeps every card but the one popped: nothing is lost or duplicated. */
  lemma RemovedAtMultiset(s: seq<Card>, i: nat)
    requires i < |s|
    ensures multiset(RemovedAt(s, i)) + multiset{s[i]} == multiset(s)
  {
    assert s == s[..i] + [s[i]] + s[i + 1..];
  }

  /** The text between the brackets: the cards' texts, separated by ", ". */
  function ListBody(cards: seq<Card>): string
  {
    if |cards| == 0 then ""
    else if |cards| == 1 then CardString(cards[0])
    else CardString(cards[0]) + ", " + ListBody(cards[1..])
  }

  /** `str(deck)`: a list-looking text of the cards in their current order. */
  function DeckString(cards: seq<Card>): string
  {
    "[" + ListBody(cards) + "]"
  }

  /** Appending a card to a non-empty deck adds ", " and the card's text before the bracket. */
  lemma {:induction false} ListBodyAppend(cards: seq<Card>, c: Card)
    requires |cards| > 0
    ensures ListBody(cards + [c]) == ListBody(cards) + ", " + CardString(c)
  {
    if |cards| > 1 {
      assert (cards + [c])[1..] == cards[1..] + [c];
      ListBodyAppend(cards[1..], c);
    } else {
      assert (cards + [c])[1..] == [c];
    }
  }

  lemma DeckStringExamples(c: Card)
    ensures DeckString([]) == "[]"
    ensures DeckString([c]) == "[" + CardString(c) + "]"
  {
  }

  class Deck {
    var content: seq<Card>

    /** `Deck(*cards)`: a deck holding the given cards in order. */
    constructor (cards: seq<Card>)
      ensures content == cards
    {
      content := cards;
    }

    /** `len(deck)`. */
    function Length(): nat
      reads this
    {
      |content|
    }

    /** `str(deck)`, built card by card as the source does. */
    method ToString() returns (s: string)
      ensures s == DeckString(content)
    {
      var r := "[";
      for i := 0 to Length()
        invariant "[" + ListBody(content) == r + ListBody(content[i..])
      {
        assert content[i..][1..] == content[i + 1..];
        r := r + if i + 1 == Length() then CardString(content[i]) else CardString(content[i]) + ", ";
      }
      s := r + "]";
    }

    /** `add_card`: appends the single card, or each card of the list in order. */
    method AddCard(item: CardOrList)
      modifies this
      ensures content == old(content) + Items(item)
    {
      match item
      case One(c) =>
        content := content + [c];
      case Many(cs) =>
        for i := 0 to |cs|
          invariant content == old(content) + cs[..i]
        {
          assert cs[..i + 1] == cs[..i] + [cs[i]];
          content := content + [cs[i]];
        }
        assert cs[..|cs|] == cs;
    }

    /** `remove_card`: pops the card at `index` and returns it. */
    method RemoveCard(index: int) returns (c: Card)
      requires 0 <= index < |content|
      modifies this
      ensures c == old(content)[index]
      ensures content == RemovedAt(old(content), index)
    {
      c := content[index];
      content := content[..index] + content[index + 1..];
    }
  }

  /**
   * Adding one card to a deck and then removing the card at the old length
   * hands back that card and restores the deck; from an empty deck that is
   * index 0.
   */
  method AddThenRemove(d: Deck, c: Card) returns (back: Card)
    modifies d
    ensures back == c
    ensures d.content == old(d.content)
  {
    var n := d.Length();
    d.AddCard(One(c));
    back := d.RemoveCard(n);
    assert d.content == (old(d.content) + [c])[..n];
  }
}
