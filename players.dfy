/**
 * A participant (class Player of main.py): the human player or the dealer,
 * holding one deck as its hand.  Its score resolves every Ace to 1 or 11:
 * the human chooses at a prompt, the dealer looks at the cards that follow
 * the Ace in the hand.
 */
module Players {
  import opened Wrappers
  import opened Cards
  import opened Decks
  import opened Prompts

  /** What the constructor receives: an integer, or the role's name. */
  datatype RoleArg = Number(n: int) | Name(name: string)

  /** An integer role indexes the list Player, Dealer at `n % 2 - 1`; -1 names the last entry. */
  function NormalizeRole(arg: RoleArg): (role: string)
    ensures arg.Name? ==> role == arg.name
    ensures arg.Number? && arg.n % 2 == 1 ==> role == "Player"
    ensures arg.Number? && arg.n % 2 == 0 ==> role == "Dealer"
  {
    match arg
    case Number(n) =>
      var roles := ["Player", "Dealer"];
      var i := n % 2 - 1;
      if i == -1 then roles[|roles| - 1] else roles[i]
    case Name(s) => s
  }

  /** The equalities the source asserts of `Player(11)` and `Player(4)`, and normalising twice. */
  lemma NormalizeRoleExamples(arg: RoleArg)
    ensures NormalizeRole(Number(11)) == NormalizeRole(Name("Player"))
    ensures NormalizeRole(Number(4)) == NormalizeRole(Name("Dealer"))
    ensures NormalizeRole(Name(NormalizeRole(arg))) == NormalizeRole(arg)
  {
  }

  /** The answers accepted at the Ace prompt. */
  predicate IsAceValue(v: int)
  {
    v == 1 || v == 11
  }

  /** The dealer's value of an Ace, given the score of the cards after it. */
  function DealerAceValue(rest: int): (v: int)
    ensures IsAceValue(v)
    ensures v == 11 <==> rest + 11 <= 21
  {
    if rest + 11 > 21 then 1 else 11
  }

  /** The score of a dealer's hand: each Ace looks at the score of the cards after it. */
  function DealerScore(cards: seq<Card>): int
    decreases |cards|
  {
    if |cards| == 0 then 0
    else
      var rest := DealerScore(cards[1..]);
      (if IsAce(cards[0]) then DealerAceValue(rest) else Points(cards[0])) + rest
  }

  /** What the card at position i adds to a dealer's score. */
  function DealerContribution(cards: seq<Card>, i: nat): int
    requires i < |cards|
  {
    if IsAce(cards[i]) then DealerAceValue(DealerScore(cards[i + 1..])) else Points(cards[i])
  }

  /** The sum of the contributions of the cards from position i on. */
  function ContributionsFrom(cards: seq<Card>, i: nat): int
    requires i <= |cards|
    decreases |cards| - i
  {
    if i == |cards| then 0 else DealerContribution(cards, i) + ContributionsFrom(cards, i + 1)
  }

  /** The sum of the cards' fixed points (an Ace counting 1). */
  function BaseSum(cards: seq<Card>): int
  {
    if |cards| == 0 then 0 else Points(cards[0]) + BaseSum(cards[1..])
  }

  function AceCount(cards: seq<Card>): nat
  {
    if |cards| == 0 then 0 else (if IsAce(cards[0]) then 1 else 0) + AceCount(cards[1..])
  }

  /** Every card scores at least 1, so a hand's plain sum is at least its number of cards. */
  lemma {:induction false} BaseSumAtLeastLength(cards: seq<Card>)
    ensures BaseSum(cards) >= |cards|
  {
    if |cards| > 0 {
      BaseSumAtLeastLength(cards[1..]);
    }
  }

  /**
   * A dealer's score is the sum, in hand order, of each card's points, where
   * the Ace at position i counts 1 when the score of the cards after it plus
   * 11 exceeds 21, and 11 otherwise.
   */
  lemma {:induction false} DealerScoreIsSumOfContributions(cards: seq<Card>, i: nat)
    requires i <= |cards|
    ensures DealerScore(cards[i..]) == ContributionsFrom(cards, i)
    decreases |cards| - i
  {
    if i < |cards| {
      DealerScoreIsSumOfContributions(cards, i + 1);
      assert cards[i..][1..] == cards[i + 1..];
    }
  }

  /** Every Ace of a dealer's hand counts 1 or 11, so the score lies between the two bounds. */
  lemma {:induction false} DealerScoreBounds(cards: seq<Card>)
    ensures BaseSum(cards) <= DealerScore(cards) <= BaseSum(cards) + 10 * AceCount(cards)
  {
    if |cards| > 0 {
      DealerScoreBounds(cards[1..]);
    }
  }

  /** Without Aces the dealer's score is the plain sum of points. */
  lemma DealerScoreNoAces(cards: seq<Card>)
    requires AceCount(cards) == 0
    ensures DealerScore(cards) == BaseSum(cards)
  {
    DealerScoreBounds(cards);
  }

  /** Dealer hands whose scores show that the order of the cards matters. */
  lemma DealerScoreExamples()
    ensures DealerScore([Card(1, Heart), Card(9, Heart)]) == 20
    ensures DealerScore([Card(1, Heart), Card(13, Heart), Card(5, Heart)]) == 16
    ensures DealerScore([Card(5, Heart), Card(1, Heart), Card(13, Heart)]) == 26
    ensures DealerScore([Card(1, Heart), Card(4, Heart)]) == 15
    ensures DealerScore([Card(1, Heart), Card(4, Heart), Card(7, Heart)]) == 12
  {
    assert [Card(1, Heart), Card(9, Heart)][1..] == [Card(9, Heart)];
    assert [Card(1, Heart), Card(13, Heart), Card(5, Heart)][1..] == [Card(13, Heart), Card(5, Heart)];
    assert [Card(13, Heart), Card(5, Heart)][1..] == [Card(5, Heart)];
    assert [Card(5, Heart), Card(1, Heart), Card(13, Heart)][1..] == [Card(1, Heart), Card(13, Heart)];
    assert [Card(1, Heart), Card(13, Heart)][1..] == [Card(13, Heart)];
    assert [Card(1, Heart), Card(4, Heart)][1..] == [Card(4, Heart)];
    assert [Card(1, Heart), Card(4, Heart), Card(7, Heart)][1..] == [Card(4, Heart), Card(7, Heart)];
    assert [Card(4, Heart), Card(7, Heart)][1..] == [Card(7, Heart)];
  }

  /**
   * A score with the answers still unread, or, when the answers ran out at an
   * Ace, the number of cards taken off the hand by then.
   */
  type ScoreResult = Result<(int, seq<int>), nat>

  /** Adds `points` already counted from `taken` cards in front of a partial score. */
  function Shift(points: int, taken: nat, r: ScoreResult): ScoreResult
  {
    match r
    case Ok((s, rest)) => Ok((points + s, rest))
    case Err(k) => Err(taken + k)
  }

  /** The score of the human's hand: each Ace takes the first answer in {1, 11}. */
  function PlayerScore(cards: seq<Card>, answers: seq<int>): ScoreResult
    decreases |cards|
  {
    if |cards| == 0 then Ok((0, answers))
    else if IsAce(cards[0]) then
      match FirstAccepted(answers, IsAceValue)
      case None => Err(1)
      case Some((v, rest)) => Shift(v, 1, PlayerScore(cards[1..], rest))
    else Shift(Points(cards[0]), 1, PlayerScore(cards[1..], answers))
  }

  /**
   * The human's score lies between the plain sum and the sum with every Ace
   * at 11, and only answers are consumed; when the answers run out, it is at
   * an Ace.
   */
  lemma {:induction false} PlayerScoreBounds(cards: seq<Card>, answers: seq<int>)
    ensures match PlayerScore(cards, answers)
            case Ok((s, rest)) =>
              BaseSum(cards) <= s <= BaseSum(cards) + 10 * AceCount(cards) &&
              |rest| <= |answers| && rest == answers[|answers| - |rest|..]
            case Err(k) => 1 <= k <= |cards| && IsAce(cards[k - 1])
  {
    if |cards| > 0 {
      if IsAce(cards[0]) {
        match FirstAccepted(answers, IsAceValue)
        case None =>
        case Some((v, rest)) =>
          assert IsAceValue(v) && rest == answers[|answers| - |rest|..];
          PlayerScoreBounds(cards[1..], rest);
          assert PlayerScore(cards, answers) == Shift(v, 1, PlayerScore(cards[1..], rest));
          match PlayerScore(cards[1..], rest)
          case Ok((s, rest')) =>
            assert rest' == answers[|answers| - |rest'|..];
          case Err(k) =>
            assert cards[1..][k - 1] == cards[k];
      } else {
        PlayerScoreBounds(cards[1..], answers);
        assert PlayerScore(cards, answers) == Shift(Points(cards[0]), 1, PlayerScore(cards[1..], answers));
        match PlayerScore(cards[1..], answers)
        case Ok(_) =>
        case Err(k) =>
          assert cards[1..][k - 1] == cards[k];
      }
    }
  }

  /** Without Aces the human is never asked and scores the plain sum. */
  lemma {:induction false} PlayerScoreNoAces(cards: seq<Card>, answers: seq<int>)
    requires AceCount(cards) == 0
    ensures PlayerScore(cards, answers) == Ok((BaseSum(cards), answers))
  {
    if |cards| > 0 {
      PlayerScoreNoAces(cards[1..], answers);
    }
  }

  /** [King, Queen] scores 20 with no answer read; [Ace, King] reads answers until one is 1 or 11. */
  lemma PlayerScoreExamples(answers: seq<int>)
    ensures PlayerScore([Card(13, Heart), Card(12, Club)], answers) == Ok((20, answers))
    ensures PlayerScore([Card(1, Heart), Card(13, Club)], [5, 11, 1]) == Ok((21, [1]))
    ensures PlayerScore([Card(1, Heart), Card(13, Club)], [0, 2]) == Err(1)
  {
    var kq := [Card(13, Heart), Card(12, Club)];
    assert kq[1..] == [Card(12, Club)];
    var ak := [Card(1, Heart), Card(13, Club)];
    assert ak[1..] == [Card(13, Club)];
    assert [5, 11, 1][1..] == [11, 1];
    assert [11, 1][1..] == [1];
    assert [0, 2][1..] == [2];
    assert [2][1..] == [];
  }

  /** Adding points in two steps is adding them at once. */
  lemma ShiftShift(a: int, m: nat, b: int, n: nat, r: ScoreResult)
    ensures Shift(a, m, Shift(b, n, r)) == Shift(a + b, m + n, r)
  {
  }

  /** The score `score()` computes for a role: only the role named "Player" is asked. */
  function HandScore(role: string, cards: seq<Card>, answers: seq<int>): ScoreResult
  {
    if role == "Player" then PlayerScore(cards, answers) else Ok((DealerScore(cards), answers))
  }

  /**
   * What the card taken off the front of the hand adds, with the answers left
   * afterwards: its points, or for an Ace the human's first answer in {1, 11}
   * (None when the answers run out) or the dealer's value given the score of
   * the cards `after` it.
   */
  function CardPoints(role: string, c: Card, after: seq<Card>, answers: seq<int>): (r: Option<(int, seq<int>)>)
    ensures r.Some? && IsAce(c) ==> IsAceValue(r.value.0)
    ensures r.None? ==> IsAce(c) && role == "Player"
  {
    if !IsAce(c) then Some((Points(c), answers))
    else if role == "Player" then FirstAccepted(answers, IsAceValue)
    else Some((DealerAceValue(DealerScore(after)), answers))
  }

  /** A hand's score is its first card's points in front of the score of the rest. */
  lemma ScoreStep(role: string, c: Card, t: seq<Card>, answers: seq<int>)
    ensures CardPoints(role, c, t, answers).None? ==> HandScore(role, [c] + t, answers) == Err(1)
    ensures CardPoints(role, c, t, answers).Some? ==>
              var (v, rest) := CardPoints(role, c, t, answers).value;
              HandScore(role, [c] + t, answers) == Shift(v, 1, HandScore(role, t, rest))
  {
    assert ([c] + t)[1..] == t;
  }

  /**
   * One turn of the loop in `score()`: the card `c` taken after `stamp`
   * either makes the whole hand fail at its position or moves its points
   * from the rest of the hand onto the running score.
   */
  lemma ScoreLoopStep(role: string, cards: seq<Card>, answers: seq<int>,
                      score: int, stamp: seq<Card>, c: Card, after: seq<Card>, rest: seq<int>)
    requires Shift(score, |stamp|, HandScore(role, [c] + after, rest)) == HandScore(role, cards, answers)
    ensures CardPoints(role, c, after, rest).None? ==> HandScore(role, cards, answers) == Err(|stamp| + 1)
    ensures CardPoints(role, c, after, rest).Some? ==>
              var (v, rest') := CardPoints(role, c, after, rest).value;
              Shift(score + v, |stamp| + 1, HandScore(role, after, rest')) == HandScore(role, cards, answers)
  {
    ScoreStep(role, c, after, rest);
    var p := CardPoints(role, c, after, rest);
    if p.Some? {
      ShiftShift(score, |stamp|, p.value.0, 1, HandScore(role, after, p.value.1));
    }
  }

  class Player {
    const role: string
    const hand: Deck

    /** `Player(role)`: the normalised role and an empty hand. */
    constructor (arg: RoleArg)
      ensures role == NormalizeRole(arg)
      ensures fresh(hand) && hand.content == []
    {
      role := NormalizeRole(arg);
      hand := new Deck([]);
    }

    method AddCard(item: CardOrList)
      modifies hand
      ensures hand.content == old(hand.content) + Items(item)
    {
      hand.AddCard(item);
    }

    method GiveCard(index: int) returns (c: Card)
      requires 0 <= index < |hand.content|
      modifies hand
      ensures c == old(hand.content)[index]
      ensures hand.content == RemovedAt(old(hand.content), index)
    {
      c := hand.RemoveCard(index);
    }

    /**
     * `score()`: takes every card off the front of the hand, adds up its
     * points, then puts the cards back in order.  When the answers run out at
     * an Ace the source's exception leaves the hand without the cards taken
     * so far.
     */
    method Score(answers: seq<int>) returns (r: ScoreResult)
      modifies hand
      decreases |hand.content|, 0
      ensures r == HandScore(role, old(hand.content), answers)
      ensures r.Ok? ==> hand.content == old(hand.content)
      ensures r.Err? ==> r.error <= |old(hand.content)| && hand.content == old(hand.content)[r.error..]
    {
      ghost var cards := hand.content;
      var score := 0;
      var stamp: seq<Card> := [];
      var rest := answers;
      while hand.Length() > 0
        invariant stamp + hand.content == cards
        invariant Shift(score, |stamp|, HandScore(role, hand.content, rest)) == HandScore(role, cards, answers)
        decreases |hand.content|
      {
        ghost var before := hand.content;
        var c := hand.RemoveCard(0);
        ghost var after := hand.content;
        assert before == [c] + after;
        ScoreLoopStep(role, cards, answers, score, stamp, c, after, rest);
        stamp := stamp + [c];
        assert stamp + after == cards;
        var points := TakenCardPoints(c, rest);
        if points.None? {
          assert after == cards[|stamp|..];
          return Err(|stamp|);
        }
        score, rest := score + points.value.0, points.value.1;
      }
      assert hand.content == [] && stamp == cards;
      assert HandScore(role, [], rest) == Ok((0, rest));
      r := Ok((score, rest));
      assert r == HandScore(role, cards, answers);
      PutBack(stamp);
    }

    /** The points of card `c`, just taken off the front of the hand; the hand ends as it began. */
    method TakenCardPoints(c: Card, answers: seq<int>) returns (r: Option<(int, seq<int>)>)
      modifies hand
      decreases |hand.content|, 1
      ensures r == CardPoints(role, c, old(hand.content), answers)
      ensures hand.content == old(hand.content)
    {
      if Points(c) == 1 {
        var aceValue;
        var rest := answers;
        if role == "Player" {
          var answer := Ask(answers, IsAceValue);
          if answer.None? {
            return None;
          }
          aceValue, rest := answer.value.0, answer.value.1;
        } else {
          var s := Score(answers);
          aceValue := if s.value.0 + 11 > 21 then 1 else 11;
        }
        r := Some((aceValue, rest));
      } else {
        r := Some((Points(c), answers));
      }
    }

    /** The closing loop of `score()`: adds the taken cards back one by one. */
    method PutBack(stamp: seq<Card>)
      modifies hand
      ensures hand.content == old(hand.content) + stamp
    {
      for i := 0 to |stamp|
        invariant hand.content == old(hand.content) + stamp[..i]
      {
        assert stamp[..i + 1] == stamp[..i] + [stamp[i]];
        hand.AddCard(One(stamp[i]));
      }
      assert stamp[..|stamp|] == stamp;
    }
  }

  /**
   * Asking a hand for its score twice with the same answers gives the same
   * result and leaves the hand as it was; the dealer's score never fails.
   */
  method ScoreTwice(p: Player, answers: seq<int>) returns (first: ScoreResult, second: ScoreResult)
    modifies p.hand
    ensures p.role != "Player" ==> first.Ok?
    ensures first.Ok? ==> second == first && p.hand.content == old(p.hand.content)
  {
    first := p.Score(answers);
    second := p.Score(answers);
  }
}
