/**
 * One round of the game (function game of main.py): build a fresh 52-card
 * deck, read the bet, deal two cards to the player through the dealer, give
 * the player one optional extra card, let the dealer draw while their score
 * is at most 15, and settle the bet.  The random positions the source draws
 * with `randint` are parameters here.
 */
module Game {
  import opened Wrappers
  import opened Cards
  import opened Decks
  import opened Prompts
  import opened Players

  /** How a round can end without a result: an answer was needed and none was left, or randint(0, -1). */
  datatype Failure = InputExhausted | DeckExhausted

  // ---------------------------------------------------------------------------
  // The fresh deck

  /** The card the deck-building loop adds at its step i. */
  function ShoeCard(i: nat): (c: Card)
    requires i < 52
    ensures c.rank == i % 13 + 1 && c.color == SuitOf(i / 13 + 1)
  {
    NewCard(i % 13 + 1, i / 13 + 1).value
  }

  function FreshShoe(): (s: seq<Card>)
    ensures |s| == 52
  {
    seq(52, i requires 0 <= i < 52 => ShoeCard(i))
  }

  /** The loop at the start of a round: appends Card(i % 13 + 1, i // 13 + 1) for i in 0..51. */
  method BuildDeck() returns (deck: Deck)
    ensures fresh(deck)
    ensures deck.content == FreshShoe()
  {
    deck := new Deck([]);
    for i := 0 to 52
      invariant deck.content == FreshShoe()[..i]
    {
      var card := NewCard(i % 13 + 1, i / 13 + 1);
      assert FreshShoe()[..i + 1] == FreshShoe()[..i] + [card.value];
      deck.AddCard(One(card.value));
    }
  }

  function CountRank(s: seq<Card>, r: int): nat
  {
    if |s| == 0 then 0 else (if s[0].rank == r then 1 else 0) + CountRank(s[1..], r)
  }

  function CountSuit(s: seq<Card>, st: Suit): nat
  {
    if |s| == 0 then 0 else (if s[0].color == st then 1 else 0) + CountSuit(s[1..], st)
  }

  lemma {:induction false} CountConcat(a: seq<Card>, b: seq<Card>, r: int, st: Suit)
    ensures CountRank(a + b, r) == CountRank(a, r) + CountRank(b, r)
    ensures CountSuit(a + b, st) == CountSuit(a, st) + CountSuit(b, st)
  {
    if |a| == 0 {
      assert a + b == b;
    } else {
      assert (a + b)[1..] == a[1..] + b;
      CountConcat(a[1..], b, r, st);
    }
  }

  /** The cards of one suit, from rank lo up to the King. */
  function SuitRun(st: Suit, lo: int): (s: seq<Card>)
    requires 1 <= lo <= 14
    ensures |s| == 14 - lo
  {
    seq(14 - lo, k requires 0 <= k < 14 - lo => Card(lo + k, st))
  }

  lemma {:induction false} CountSuitRun(st: Suit, lo: int, r: int, st': Suit)
    requires 1 <= lo <= 14
    ensures CountRank(SuitRun(st, lo), r) == if lo <= r <= 13 then 1 else 0
    ensures CountSuit(SuitRun(st, lo), st') == if st == st' then 14 - lo else 0
    decreases 14 - lo
  {
    if lo < 14 {
      assert SuitRun(st, lo)[1..] == SuitRun(st, lo + 1);
      CountSuitRun(st, lo + 1, r, st');
    }
  }

  /** The fresh deck is the thirteen Hearts, then the Clubs, the Spades and the Diamonds, each from Ace to King. */
  lemma FreshShoeBySuit()
    ensures FreshShoe() == SuitRun(Heart, 1) + SuitRun(Club, 1) + SuitRun(Spade, 1) + SuitRun(Diamond, 1)
  {
    var rows := SuitRun(Heart, 1) + SuitRun(Club, 1) + SuitRun(Spade, 1) + SuitRun(Diamond, 1);
    forall i | 0 <= i < 52
      ensures FreshShoe()[i] == rows[i]
    {
      if i < 13 {
        assert i / 13 + 1 == 1;
      } else if i < 26 {
        assert i / 13 + 1 == 2 && i % 13 == i - 13;
      } else if i < 39 {
        assert i / 13 + 1 == 3 && i % 13 == i - 26;
      } else {
        assert i / 13 + 1 == 4 && i % 13 == i - 39;
      }
    }
  }

  /** The fresh deck holds four cards of each rank and thirteen of each suit. */
  lemma FreshShoeCounts(r: Rank, st: Suit)
    ensures CountRank(FreshShoe(), r) == 4
    ensures CountSuit(FreshShoe(), st) == 13
  {
    FreshShoeBySuit();
    var h, c, s, d := SuitRun(Heart, 1), SuitRun(Club, 1), SuitRun(Spade, 1), SuitRun(Diamond, 1);
    CountConcat(h, c, r, st);
    CountConcat(h + c, s, r, st);
    CountConcat(h + c + s, d, r, st);
    CountSuitRun(Heart, 1, r, st);
    CountSuitRun(Club, 1, r, st);
    CountSuitRun(Spade, 1, r, st);
    CountSuitRun(Diamond, 1, r, st);
  }

  /** A card found at exactly one position occurs once. */
  lemma {:induction false} OccursOnce(s: seq<Card>, c: Card, k: nat)
    requires k < |s| && s[k] == c
    requires forall j :: 0 <= j < |s| && j != k ==> s[j] != c
    ensures multiset(s)[c] == 1
  {
    if k == 0 {
      assert s == [c] + s[1..];
      assert c !in s[1..];
    } else {
      assert s == [s[0]] + s[1..];
      OccursOnce(s[1..], c, k - 1);
    }
  }

  /** Every one of the 52 cards is in the fresh deck exactly once. */
  lemma FreshShoeHoldsEachCardOnce(c: Card)
    ensures multiset(FreshShoe())[c] == 1
  {
    var k := (SuitNumber(c.color) - 1) * 13 + (c.rank - 1);
    assert k / 13 == SuitNumber(c.color) - 1 && k % 13 == c.rank - 1;
    OccursOnce(FreshShoe(), c, k);
  }

  // ---------------------------------------------------------------------------
  // The bet

  /** The re-prompt condition `0 > bet > credit`, a chained comparison. */
  predicate BetRejected(bet: int, credit: int)
  {
    0 > bet && bet > credit
  }

  function BetAccepted(credit: int): int -> bool
  {
    bet => !BetRejected(bet, credit)
  }

  /**
   * As written the condition rejects only bets strictly between the credit
   * and 0, so with a credit of 0 or more the first bet typed is taken,
   * whatever it is.
   */
  lemma {:induction false} BetTakenAsTyped(bets: seq<int>, credit: int)
    ensures forall bet :: BetRejected(bet, credit) <==> credit < bet < 0
    ensures credit >= 0 && |bets| > 0 ==> FirstAccepted(bets, BetAccepted(credit)) == Some((bets[0], bets[1..]))
  {
    if credit >= 0 && |bets| > 0 {
      assert BetAccepted(credit)(bets[0]);
    }
  }

  // ---------------------------------------------------------------------------
  // Dealing

  /**
   * Two cards leave the deck for the dealer's hand, each from a position the
   * caller chose, then the dealer gives the first card of their hand twice,
   * and the player adds the two in that order.
   */
  method Deal(deck: Deck, dealer: Player, player: Player, first: int, second: int)
    requires deck != dealer.hand && deck != player.hand && dealer.hand != player.hand
    requires 0 <= first < |deck.content| && 0 <= second < |deck.content| - 1
    modifies deck, dealer.hand, player.hand
    ensures var shoe := RemovedAt(old(deck.content), first);
            var dealt := old(dealer.hand.content) + [old(deck.content)[first], shoe[second]];
            deck.content == RemovedAt(shoe, second) &&
            player.hand.content == old(player.hand.content) + dealt[..2] &&
            dealer.hand.content == dealt[2..]
  {
    ghost var hand0, mine0 := dealer.hand.content, player.hand.content;
    var c1 := deck.RemoveCard(first);
    ghost var shoe := deck.content;
    dealer.AddCard(One(c1));
    var c2 := deck.RemoveCard(second);
    assert c2 == shoe[second];
    dealer.AddCard(One(c2));
    ghost var dealt := dealer.hand.content;
    ghost var left := deck.content;
    assert dealt == hand0 + [c1, c2] && player.hand.content == mine0;
    var g1 := dealer.GiveCard(0);
    var g2 := dealer.GiveCard(0);
    assert [g1, g2] == dealt[..2] && dealer.hand.content == dealt[2..];
    player.AddCard(Many([g1, g2]));
    assert deck.content == left;
  }

  // ---------------------------------------------------------------------------
  // The dealer's turn

  /**
   * The positions randint picks for the dealer's draws: the j-th draw is a
   * position of the deck as it is then, one card shorter than at the draw
   * before.
   */
  predicate ValidDraws(draws: seq<int>, n: nat)
  {
    |draws| >= n && forall j :: 0 <= j < n ==> 0 <= draws[j] < n - j
  }

  lemma ValidDrawsTail(draws: seq<int>, n: nat)
    requires n > 0 && ValidDraws(draws, n)
    ensures ValidDraws(draws[1..], n - 1)
  {
    forall j | 0 <= j < n - 1
      ensures 0 <= draws[1..][j] < n - 1 - j
    {
      assert draws[1..][j] == draws[j + 1];
    }
  }

  /**
   * The dealer's hand and the deck after the dealer has drawn while the
   * hand's score is at most 15; drawing from an empty deck fails.
   */
  function DealerPlayout(hand: seq<Card>, shoe: seq<Card>, draws: seq<int>): Result<(seq<Card>, seq<Card>), Failure>
    requires ValidDraws(draws, |shoe|)
    decreases |shoe|
  {
    if DealerScore(hand) > 15 then Ok((hand, shoe))
    else if |shoe| == 0 then Err(DeckExhausted)
    else
      ValidDrawsTail(draws, |shoe|);
      DealerPlayout(hand + [shoe[draws[0]]], RemovedAt(shoe, draws[0]), draws[1..])
  }

  /** One draw of `x` from `shoe` leaving `shoe'`, seen from the final hand `h` and deck `s`. */
  lemma DrawnPrefix(hand: seq<Card>, x: Card, shoe: seq<Card>, shoe': seq<Card>, h: seq<Card>, s: seq<Card>)
    requires |hand| + 1 <= |h| && h[..|hand| + 1] == hand + [x]
    requires multiset(h[|hand| + 1..]) + multiset(s) == multiset(shoe')
    requires multiset(shoe') + multiset{x} == multiset(shoe)
    ensures h[..|hand|] == hand
    ensures multiset(h[|hand|..]) + multiset(s) == multiset(shoe)
  {
    assert h[..|hand|] == (hand + [x])[..|hand|];
    assert h[|hand|..] == [x] + h[|hand| + 1..];
  }

  /**
   * When the dealer stands, their score is above 15; they keep the cards
   * they had and add cards that came from the deck, each card either drawn
   * or still in the deck; a dealer already above 15 draws nothing.
   */
  lemma {:induction false} DealerPlayoutProperties(hand: seq<Card>, shoe: seq<Card>, draws: seq<int>)
    requires ValidDraws(draws, |shoe|)
    ensures DealerScore(hand) > 15 ==> DealerPlayout(hand, shoe, draws) == Ok((hand, shoe))
    ensures match DealerPlayout(hand, shoe, draws)
            case Ok((h, s)) =>
              DealerScore(h) > 15 && |hand| <= |h| && h[..|hand|] == hand &&
              multiset(h[|hand|..]) + multiset(s) == multiset(shoe)
            case Err(e) => e == DeckExhausted
    decreases |shoe|
  {
    if DealerScore(hand) <= 15 && |shoe| > 0 {
      ValidDrawsTail(draws, |shoe|);
      var x := shoe[draws[0]];
      var shoe' := RemovedAt(shoe, draws[0]);
      DealerPlayoutProperties(hand + [x], shoe', draws[1..]);
      RemovedAtMultiset(shoe, draws[0]);
      var p := DealerPlayout(hand + [x], shoe', draws[1..]);
      if p.Ok? {
        DrawnPrefix(hand, x, shoe, shoe', p.value.0, p.value.1);
      }
    }
  }

  /**
   * The dealer draws only while the hand scores at most 15: every hand the
   * dealer held before the final one, from the initial hand on, had a score
   * of at most 15, so the dealer stands at the first score above 15.
   */
  lemma {:induction false} DealerStopsAtFirstScoreAbove15(hand: seq<Card>, shoe: seq<Card>, draws: seq<int>)
    requires ValidDraws(draws, |shoe|)
    ensures var p := DealerPlayout(hand, shoe, draws);
            p.Ok? ==> forall m :: |hand| <= m < |p.value.0| ==> DealerScore(p.value.0[..m]) <= 15
    decreases |shoe|
  {
    if DealerScore(hand) <= 15 && |shoe| > 0 {
      ValidDrawsTail(draws, |shoe|);
      var x := shoe[draws[0]];
      var shoe' := RemovedAt(shoe, draws[0]);
      DealerStopsAtFirstScoreAbove15(hand + [x], shoe', draws[1..]);
      DealerPlayoutProperties(hand + [x], shoe', draws[1..]);
      var p := DealerPlayout(hand + [x], shoe', draws[1..]);
      if p.Ok? {
        var h := p.value.0;
        assert h[..|hand|] == (hand + [x])[..|hand|] == hand;
      }
    }
  }

  /**
   * A dealer holding and able to draw at least 16 cards in all never finds
   * the deck empty: every card scores at least 1, so 16 cards score above 15.
   */
  lemma {:induction false} DealerNeverExhausts(hand: seq<Card>, shoe: seq<Card>, draws: seq<int>)
    requires ValidDraws(draws, |shoe|)
    requires |hand| + |shoe| >= 16
    ensures DealerPlayout(hand, shoe, draws).Ok?
    decreases |shoe|
  {
    BaseSumAtLeastLength(hand);
    DealerScoreBounds(hand);
    if DealerScore(hand) <= 15 {
      ValidDrawsTail(draws, |shoe|);
      DealerNeverExhausts(hand + [shoe[draws[0]]], RemovedAt(shoe, draws[0]), draws[1..]);
    }
  }

  /** `while dealer.score() <= 15: dealer.add_card(deck.remove_card(randint(0, len(deck) - 1)))`. */
  method DealerTurn(deck: Deck, dealer: Player, draws: seq<int>) returns (r: Result<int, Failure>)
    requires dealer.role != "Player"
    requires deck != dealer.hand
    requires ValidDraws(draws, |deck.content|)
    modifies deck, dealer.hand
    ensures var p := DealerPlayout(old(dealer.hand.content), old(deck.content), draws);
            (r.Ok? <==> p.Ok?) &&
            (r.Ok? ==> dealer.hand.content == p.value.0 && deck.content == p.value.1 &&
                       r.value == DealerScore(dealer.hand.content)) &&
            (r.Err? ==> r.error == p.error)
  {
    var s := dealer.Score([]);
    var j := 0;
    while s.value.0 <= 15
      invariant 0 <= j <= |draws| && |deck.content| + j == |old(deck.content)|
      invariant ValidDraws(draws[j..], |deck.content|)
      invariant s == Ok((DealerScore(dealer.hand.content), []))
      invariant DealerPlayout(dealer.hand.content, deck.content, draws[j..]) ==
                DealerPlayout(old(dealer.hand.content), old(deck.content), draws)
      decreases |deck.content|
    {
      if deck.Length() == 0 {
        return Err(DeckExhausted);
      }
      ghost var hand, shoe := dealer.hand.content, deck.content;
      ValidDrawsTail(draws[j..], |deck.content|);
      assert draws[j..][1..] == draws[j + 1..];
      var c := deck.RemoveCard(draws[j]);
      dealer.AddCard(One(c));
      j := j + 1;
      assert dealer.hand.content == hand + [shoe[draws[j - 1]]];
      s := dealer.Score([]);
    }
    r := Ok(s.value.0);
  }

  // ---------------------------------------------------------------------------
  // Settling

  /** The player wins when not bust and the dealer either busts or scores less. */
  predicate PlayerWins(playerScore: int, dealerScore: int)
  {
    playerScore <= 21 && (dealerScore > 21 || dealerScore < playerScore)
  }

  /** What the round returns: the player loses a bust, and loses when the dealer scores from theirs up to 21. */
  function Payout(bet: int, playerScore: int, dealerScore: int): (p: int)
    ensures p == if PlayerWins(playerScore, dealerScore) then bet else -bet
  {
    if playerScore <= 21 then
      if dealerScore >= playerScore && dealerScore <= 21 then -bet else bet
    else -bet
  }

  /** Ties go to the dealer; a bust loses whatever the dealer holds. */
  lemma PayoutExamples(bet: int, s: int, d: int)
    ensures s <= 21 ==> Payout(bet, s, s) == -bet
    ensures s > 21 ==> Payout(bet, s, d) == -bet
    ensures s <= 21 && d > 21 ==> Payout(bet, s, d) == bet
  {
  }

  /**
   * The player's cards and the deck left after dealing from a full deck
   * `shoe`: the cards at positions `first` and then `second`, and when the
   * player takes another card, the one at `third`.  No card is lost or
   * doubled.
   */
  function DealCards(shoe: seq<Card>, first: int, second: int, hit: bool, third: int): (d: (seq<Card>, seq<Card>))
    requires |shoe| == 52
    requires 0 <= first < 52 && 0 <= second < 51 && 0 <= third < 50
    ensures |d.0| == (if hit then 3 else 2) && |d.1| == (if hit then 49 else 50)
    ensures multiset(d.0) + multiset(d.1) == multiset(shoe)
  {
    var shoe1 := RemovedAt(shoe, first);
    var shoe2 := RemovedAt(shoe1, second);
    var dealt := [shoe[first], shoe1[second]];
    RemovedAtMultiset(shoe, first);
    RemovedAtMultiset(shoe1, second);
    if hit then
      RemovedAtMultiset(shoe2, third);
      (dealt + [shoe2[third]], RemovedAt(shoe2, third))
    else (dealt, shoe2)
  }

  // ---------------------------------------------------------------------------
  // The round

  /** What a finished round leaves: the bet, both hands, both scores, the payout and the deck left over. */
  datatype RoundRecord = RoundRecord(
    bet: int, playerHand: seq<Card>, dealerHand: seq<Card>,
    playerScore: int, dealerScore: int, payout: int, shoe: seq<Card>)

  /**
   * A round as a function of everything read or drawn: the typed bets, the
   * two dealing positions, whether the player takes another card and its
   * position, the player's answers at the Ace prompt, and the dealer's
   * draws.
   */
  function RoundSpec(credit: int, bets: seq<int>, first: int, second: int, hit: bool, third: int,
                     aceAnswers: seq<int>, draws: seq<int>): Result<RoundRecord, Failure>
    requires 0 <= first < 52 && 0 <= second < 51 && 0 <= third < 50
    requires ValidDraws(draws, if hit then 49 else 50)
  {
    match FirstAccepted(bets, BetAccepted(credit))
    case None => Err(InputExhausted)
    case Some((bet, _)) =>
      var (hand, shoe) := DealCards(FreshShoe(), first, second, hit, third);
      RoundAfterDeal(bet, hand, shoe, aceAnswers, draws)
  }

  /** The rest of a round once the bet is read and the player's cards are dealt from the fresh deck. */
  function RoundAfterDeal(bet: int, hand: seq<Card>, shoe: seq<Card>, aceAnswers: seq<int>, draws: seq<int>): Result<RoundRecord, Failure>
    requires ValidDraws(draws, |shoe|)
  {
    match PlayerScore(hand, aceAnswers)
    case Err(_) => Err(InputExhausted)
    case Ok((ps, _)) =>
      if ps > 21 then Ok(RoundRecord(bet, hand, [], ps, 0, -bet, shoe))
      else
        match DealerPlayout([], shoe, draws)
        case Err(e) => Err(e)
        case Ok((dealerHand, rest)) =>
          var ds := DealerScore(dealerHand);
          Ok(RoundRecord(bet, hand, dealerHand, ps, ds, Payout(bet, ps, ds), rest))
  }

  /** `game(credit)`, with the prompts' answers and randint's picks as parameters. */
  method PlayRound(credit: int, bets: seq<int>, first: int, second: int, hit: bool, third: int,
                   aceAnswers: seq<int>, draws: seq<int>) returns (r: Result<RoundRecord, Failure>)
    requires 0 <= first < 52 && 0 <= second < 51 && 0 <= third < 50
    requires ValidDraws(draws, if hit then 49 else 50)
    ensures r == RoundSpec(credit, bets, first, second, hit, third, aceAnswers, draws)
  {
    var deck := BuildDeck();
    var player := new Player(Number(1));
    var dealer := new Player(Number(2));

    var asked := Ask(bets, BetAccepted(credit));
    if asked.None? {
      return Err(InputExhausted);
    }
    var bet := asked.value.0;

    ghost var full := FreshShoe();
    ghost var shoe1 := RemovedAt(full, first);
    ghost var shoe2 := RemovedAt(shoe1, second);
    Deal(deck, dealer, player, first, second);
    assert player.hand.content == [full[first], shoe1[second]] && deck.content == shoe2;
    if hit {
      var c := deck.RemoveCard(third);
      player.AddCard(One(c));
    }
    ghost var dealt := DealCards(full, first, second, hit, third);
    assert player.hand.content == dealt.0 && deck.content == dealt.1;
    assert RoundSpec(credit, bets, first, second, hit, third, aceAnswers, draws) ==
           RoundAfterDeal(bet, dealt.0, dealt.1, aceAnswers, draws);
    r := FinishRound(bet, deck, player, dealer, aceAnswers, draws);
    assert r == RoundAfterDeal(bet, dealt.0, dealt.1, aceAnswers, draws);
  }

  /** Scores the player's hand and, unless it is bust, plays the dealer's turn and settles. */
  method FinishRound(bet: int, deck: Deck, player: Player, dealer: Player, aceAnswers: seq<int>, draws: seq<int>)
    returns (r: Result<RoundRecord, Failure>)
    requires player.role == "Player" && dealer.role == "Dealer" && dealer.hand.content == []
    requires deck != dealer.hand && deck != player.hand && dealer.hand != player.hand
    requires ValidDraws(draws, |deck.content|)
    modifies deck, player.hand, dealer.hand
    ensures r == RoundAfterDeal(bet, old(player.hand.content), old(deck.content), aceAnswers, draws)
    ensures r.Ok? ==> player.hand.content == r.value.playerHand && dealer.hand.content == r.value.dealerHand &&
                      deck.content == r.value.shoe
  {
    var scored := player.Score(aceAnswers);
    if scored.Err? {
      return Err(InputExhausted);
    }
    var playerScore := scored.value.0;
    if playerScore <= 21 {
      var turn := DealerTurn(deck, dealer, draws);
      if turn.Err? {
        return Err(turn.error);
      }
      var dealerScore := turn.value;
      r := Ok(RoundRecord(bet, player.hand.content, dealer.hand.content, playerScore, dealerScore,
                          Payout(bet, playerScore, dealerScore), deck.content));
    } else {
      r := Ok(RoundRecord(bet, player.hand.content, dealer.hand.content, playerScore, 0, -bet, deck.content));
    }
  }

  /**
   * Once the cards are dealt: the bet is won or lost in full, a bust player
   * loses with the dealer drawing nothing, otherwise the dealer stands above
   * 15 and ties go to the dealer; the dealer's cards come from the deck.
   */
  lemma RoundAfterDealOutcome(bet: int, hand: seq<Card>, shoe: seq<Card>, aceAnswers: seq<int>, draws: seq<int>)
    requires ValidDraws(draws, |shoe|)
    ensures var r := RoundAfterDeal(bet, hand, shoe, aceAnswers, draws);
            r.Ok? ==>
              var rr := r.value;
              rr.bet == bet && rr.playerHand == hand &&
              (rr.payout == bet || rr.payout == -bet) &&
              rr.dealerScore == DealerScore(rr.dealerHand) &&
              PlayerScore(hand, aceAnswers).Ok? &&
              rr.playerScore == PlayerScore(hand, aceAnswers).value.0 &&
              (rr.playerScore > 21 ==> rr.payout == -bet && rr.dealerHand == []) &&
              (rr.playerScore <= 21 ==>
                 rr.dealerScore > 15 &&
                 (forall m :: 0 <= m < |rr.dealerHand| ==> DealerScore(rr.dealerHand[..m]) <= 15) &&
                 rr.payout == (if rr.playerScore <= rr.dealerScore <= 21 then -bet else bet)) &&
              multiset(rr.dealerHand) + multiset(rr.shoe) == multiset(shoe)
  {
    match PlayerScore(hand, aceAnswers)
    case Err(_) =>
    case Ok((ps, _)) =>
      if ps <= 21 {
        DealerPlayoutProperties([], shoe, draws);
        DealerStopsAtFirstScoreAbove15([], shoe, draws);
        match DealerPlayout([], shoe, draws)
        case Err(_) =>
        case Ok((dealerHand, rest)) =>
          assert dealerHand[0..] == dealerHand;
      }
  }

  /**
   * A finished round wins or loses exactly the bet.  A bust player loses and
   * the dealer draws nothing; otherwise the dealer draws only while the score
   * is at most 15, stands above 15, and the player loses exactly when the dealer's score lies between the player's
   * and 21.  The player holds the two dealt cards and the optional third,
   * scored as the Ace answers say, and no card is dealt twice.
   */
  lemma RoundOutcome(credit: int, bets: seq<int>, first: int, second: int, hit: bool, third: int,
                     aceAnswers: seq<int>, draws: seq<int>)
    requires 0 <= first < 52 && 0 <= second < 51 && 0 <= third < 50
    requires ValidDraws(draws, if hit then 49 else 50)
    ensures var r := RoundSpec(credit, bets, first, second, hit, third, aceAnswers, draws);
            r.Ok? ==>
              var rr := r.value;
              (rr.payout == rr.bet || rr.payout == -rr.bet) &&
              rr.dealerScore == DealerScore(rr.dealerHand) &&
              |rr.playerHand| == (if hit then 3 else 2) &&
              PlayerScore(rr.playerHand, aceAnswers).Ok? &&
              rr.playerScore == PlayerScore(rr.playerHand, aceAnswers).value.0 &&
              (rr.playerScore > 21 ==> rr.payout == -rr.bet && rr.dealerHand == []) &&
              (rr.playerScore <= 21 ==>
                 rr.dealerScore > 15 &&
                 (forall m :: 0 <= m < |rr.dealerHand| ==> DealerScore(rr.dealerHand[..m]) <= 15) &&
                 rr.payout == (if rr.playerScore <= rr.dealerScore <= 21 then -rr.bet else rr.bet)) &&
              multiset(rr.playerHand) + multiset(rr.dealerHand) + multiset(rr.shoe) == multiset(FreshShoe())
  {
    match FirstAccepted(bets, BetAccepted(credit))
    case None =>
    case Some((bet, _)) =>
      var (hand, shoe) := DealCards(FreshShoe(), first, second, hit, third);
      RoundAfterDealOutcome(bet, hand, shoe, aceAnswers, draws);
  }

  /** With a credit of 0 or more the bet is the first number typed. */
  lemma RoundBetAsTyped(credit: int, bets: seq<int>, first: int, second: int, hit: bool, third: int,
                        aceAnswers: seq<int>, draws: seq<int>)
    requires 0 <= first < 52 && 0 <= second < 51 && 0 <= third < 50
    requires ValidDraws(draws, if hit then 49 else 50)
    requires credit >= 0
    ensures |bets| == 0 ==> RoundSpec(credit, bets, first, second, hit, third, aceAnswers, draws) == Err(InputExhausted)
    ensures RoundSpec(credit, bets, first, second, hit, third, aceAnswers, draws).Ok? ==>
              RoundSpec(credit, bets, first, second, hit, third, aceAnswers, draws).value.bet == bets[0]
  {
    BetTakenAsTyped(bets, credit);
  }

  /** A round never fails for want of cards: 49 or 50 cards are left for the dealer, who stops within 16. */
  lemma RoundNeverExhaustsDeck(credit: int, bets: seq<int>, first: int, second: int, hit: bool, third: int,
                               aceAnswers: seq<int>, draws: seq<int>)
    requires 0 <= first < 52 && 0 <= second < 51 && 0 <= third < 50
    requires ValidDraws(draws, if hit then 49 else 50)
    ensures RoundSpec(credit, bets, first, second, hit, third, aceAnswers, draws) != Err(DeckExhausted)
  {
    match FirstAccepted(bets, BetAccepted(credit))
    case None =>
    case Some((bet, _)) =>
      var (hand, shoe) := DealCards(FreshShoe(), first, second, hit, third);
      DealerNeverExhausts([], shoe, draws);
  }
}
