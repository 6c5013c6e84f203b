/**
 Concrete runs of the contract, worked out from the model.
 */
module Scenarios {
  import opened Types
  import opened Ledger
  import opened Registry
  import opened OfferBook
  import opened Settlement
  import opened Machine

  /**
   A market "Will it rain?" gets a long offer of 100 from A, which B accepts;
   the owner closes it with long winning. A is owed 200, B nothing, and A's
   withdrawal pays out 200 and removes A's entry.
   */
  lemma RainScenario()
    ensures var s1 := CreateMarket(Init(), "owner", "Will it rain?");
      && s1.Ok?
      && var s2 := CreateOffer(s1.value.0, "A", 100, 0, true);
      && s2.Ok? && s2.value.1.id == 0
      && var s3 := AcceptOffer(s2.value.0, "B", 100, 0);
      && s3.Ok?
      && s3.value.markets[0].shares == [SharePair("A", "B", 100)]
      && 0 !in s3.value.offers
      && var s4 := CloseMarket(s3.value, "owner", 0, true);
      && s4.Ok?
      && Balance(s4.value.credit, "A") == 200
      && Balance(s4.value.credit, "B") == 0
      && var w := Withdraw(s4.value, "A");
      && w.Ok? && w.value.1 == 200 && "A" !in w.value.0.credit
  {
  }

  /** The no-netting run's market before any offer. */
  function RainMarket(shares: seq<SharePair>): Market {
    Market(0, true, "Will it rain?", "owner", shares)
  }

  /** The no-netting run's state just before its close: two positions won by A if long wins. */
  function TwoPositions(): State {
    State(2, [RainMarket([SharePair("A", "B", 50), SharePair("A", "C", 30)])], map[], map[])
  }

  /** Creating the market opens market 0 with no positions. */
  lemma OpenStep()
    ensures Exec(Init(), CreateMarketCall("owner", "Will it rain?"))
         == State(0, [RainMarket([])], map[], map[])
  {
  }

  /** A's two long offers take ids 0 and 1 and escrow 50 and 30. */
  lemma OfferSteps()
    ensures Exec(State(0, [RainMarket([])], map[], map[]), CreateOfferCall("A", 50, 0, true))
         == State(1, [RainMarket([])], map[], map[0 := Offer(0, 0, true, "A", 50)])
    ensures Exec(State(1, [RainMarket([])], map[], map[0 := Offer(0, 0, true, "A", 50)]),
                 CreateOfferCall("A", 30, 0, true))
         == State(2, [RainMarket([])], map[],
                  map[0 := Offer(0, 0, true, "A", 50), 1 := Offer(1, 0, true, "A", 30)])
  {
  }

  /** B takes offer 0 and C takes offer 1, each becoming a separate position against A. */
  lemma AcceptSteps()
    ensures Exec(State(2, [RainMarket([])], map[],
                       map[0 := Offer(0, 0, true, "A", 50), 1 := Offer(1, 0, true, "A", 30)]),
                 AcceptOfferCall("B", 50, 0))
         == State(2, [RainMarket([SharePair("A", "B", 50)])], map[], map[1 := Offer(1, 0, true, "A", 30)])
    ensures Exec(State(2, [RainMarket([SharePair("A", "B", 50)])], map[], map[1 := Offer(1, 0, true, "A", 30)]),
                 AcceptOfferCall("C", 30, 1))
         == TwoPositions()
  {
    var o0, o1 := Offer(0, 0, true, "A", 50), Offer(1, 0, true, "A", 30);
    assert map[0 := o0, 1 := o1] - {0} == map[1 := o1];
    assert map[1 := o1] - {1} == map[];
    assert [] + [SharePair("A", "B", 50)] == [SharePair("A", "B", 50)];
    assert Pairing(o1, "C") == SharePair("A", "C", 30);
    assert [SharePair("A", "B", 50)] + [SharePair("A", "C", 30)]
        == [SharePair("A", "B", 50), SharePair("A", "C", 30)];
    var before := [RainMarket([SharePair("A", "B", 50)])];
    assert before[0 := RainMarket([SharePair("A", "B", 50), SharePair("A", "C", 30)])]
        == TwoPositions().markets;
  }

  /** The five calls before the close reach `TwoPositions`. */
  lemma TwoPositionsReached()
    ensures Run(Init(), [
        CreateMarketCall("owner", "Will it rain?"),
        CreateOfferCall("A", 50, 0, true),
        CreateOfferCall("A", 30, 0, true),
        AcceptOfferCall("B", 50, 0),
        AcceptOfferCall("C", 30, 1)]) == TwoPositions()
  {
    var calls := [
        CreateMarketCall("owner", "Will it rain?"),
        CreateOfferCall("A", 50, 0, true),
        CreateOfferCall("A", 30, 0, true),
        AcceptOfferCall("B", 50, 0),
        AcceptOfferCall("C", 30, 1)];
    OpenStep();
    OfferSteps();
    AcceptSteps();
    assert calls[1..][1..][1..][1..][1..] == [];
  }

  /**
   In market 0, A posts two long offers, of 50 and 30; B accepts the first
   and C the second, and the owner closes with long winning. A's two wins
   are credited separately, 100 and 60: 160 in all, and the losers get no
   entry.
   */
  lemma NoNettingScenario()
    ensures var t := Run(Init(), [
        CreateMarketCall("owner", "Will it rain?"),
        CreateOfferCall("A", 50, 0, true),
        CreateOfferCall("A", 30, 0, true),
        AcceptOfferCall("B", 50, 0),
        AcceptOfferCall("C", 30, 1),
        CloseMarketCall("owner", 0, true)]);
      && t.markets[0].shares == [SharePair("A", "B", 50), SharePair("A", "C", 30)]
      && !t.markets[0].isOpen
      && Balance(t.credit, "A") == 160
      && "B" !in t.credit && "C" !in t.credit
  {
    var first := [
        CreateMarketCall("owner", "Will it rain?"),
        CreateOfferCall("A", 50, 0, true),
        CreateOfferCall("A", 30, 0, true),
        AcceptOfferCall("B", 50, 0),
        AcceptOfferCall("C", 30, 1)];
    var close := CloseMarketCall("owner", 0, true);
    TwoPositionsReached();
    RunAppend(Init(), first, close);
    assert first + [close] == [
        CreateMarketCall("owner", "Will it rain?"),
        CreateOfferCall("A", 50, 0, true),
        CreateOfferCall("A", 30, 0, true),
        AcceptOfferCall("B", 50, 0),
        AcceptOfferCall("C", 30, 1),
        CloseMarketCall("owner", 0, true)];
    CloseStep();
  }

  /** Closing the two-position market with long winning credits A 160 in all and gives B and C no entry. */
  lemma CloseStep()
    ensures var t := Exec(TwoPositions(), CloseMarketCall("owner", 0, true));
      && t.markets[0].shares == [SharePair("A", "B", 50), SharePair("A", "C", 30)]
      && !t.markets[0].isOpen
      && Balance(t.credit, "A") == 160
      && "B" !in t.credit && "C" !in t.credit
  {
    var shares := TwoPositions().markets[0].shares;
    assert shares[1..][1..] == [];
    assert Winnings(shares, true, "A") == 160;
    assert Winners(shares, true) == {"A"} by {
      WinnersCons(shares, true);
      WinnersCons(shares[1..], true);
    }
  }

  /**
   An offer on market 0 is accepted after the owner closed the market: the
   acceptance goes through, the offer leaves the book, and the position sits
   in the closed market with no credit paid to anyone.
   */
  lemma AcceptAfterCloseScenario()
    ensures var t := Run(Init(), [
        CreateMarketCall("owner", "Will it rain?"),
        CreateOfferCall("A", 100, 0, true),
        CloseMarketCall("owner", 0, true),
        AcceptOfferCall("B", 100, 0)]);
      && !t.markets[0].isOpen
      && t.markets[0].shares == [SharePair("A", "B", 100)]
      && 0 !in t.offers
      && t.credit == map[]
  {
  }
}
