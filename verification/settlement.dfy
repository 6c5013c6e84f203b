/**
 Settlement: closing a market pays every matched position, one at a time,
 twice its stake to the side the owner declares the winner.
 */
module Settlement {
  import opened Types
  import opened Ledger

  /** The account that wins position `p` when `isLong` says whether long won. */
  function Winner(p: SharePair, isLong: bool): AccountId {
    if isLong then p.long else p.short
  }

  /** Every account that wins at least one of `shares`. */
  function Winners(shares: seq<SharePair>, isLong: bool): set<AccountId> {
    set i | 0 <= i < |shares| :: Winner(shares[i], isLong)
  }

  /** What `a` is owed by `shares`: twice the stake of every position it wins, each counted separately. */
  function Winnings(shares: seq<SharePair>, isLong: bool, a: AccountId): nat {
    if |shares| == 0 then 0
    else
      (if Winner(shares[0], isLong) == a then 2 * shares[0].amount else 0)
      + Winnings(shares[1..], isLong, a)
  }

  /** Total stake of a list of positions (each position escrows twice this). */
  function ShareTotal(shares: seq<SharePair>): nat {
    if |shares| == 0 then 0 else shares[0].amount + ShareTotal(shares[1..])
  }

  /**
   Credits each position's winner with twice its stake, in order and one
   credit per position. An overflow of the u128 doubling or of any addition
   aborts the whole close (overflow checks assumed on).
   */
  function Settle(credit: Credit, shares: seq<SharePair>, isLong: bool): (r: Result<Credit>)
    ensures r.Ok? <==> forall a :: Balance(credit, a) + Winnings(shares, isLong, a) <= MAX_U128
    ensures r.Err? ==> r.error == Overflow
    ensures r.Ok? ==> forall a :: Balance(r.value, a) == Balance(credit, a) + Winnings(shares, isLong, a)
    ensures r.Ok? ==> r.value.Keys == credit.Keys + Winners(shares, isLong)
    decreases |shares|
  {
    if |shares| == 0 then
      Ok(credit)
    else
      var p := shares[0];
      var w := Winner(p, isLong);
      var doubled := 2 * p.amount;
      if doubled > MAX_U128 then
        assert Balance(credit, w) + Winnings(shares, isLong, w) > MAX_U128;
        Err(Overflow)
      else
        var next := CreditAccount(credit, w, doubled);
        if next.Err? then
          assert Balance(credit, w) + Winnings(shares, isLong, w) > MAX_U128;
          Err(Overflow)
        else
          var r := Settle(next.value, shares[1..], isLong);
          assert Winners(shares, isLong) == {w} + Winners(shares[1..], isLong) by {
            WinnersCons(shares, isLong);
          }
          assert forall a :: Balance(next.value, a) + Winnings(shares[1..], isLong, a)
                          == Balance(credit, a) + Winnings(shares, isLong, a);
          r
  }

  lemma WinnersCons(shares: seq<SharePair>, isLong: bool)
    requires |shares| > 0
    ensures Winners(shares, isLong) == {Winner(shares[0], isLong)} + Winners(shares[1..], isLong)
  {
  }

  /**
   Closes market `marketId` with `isLong` naming the winning side: only the
   owner of a still-open market may do so. The market is marked closed and
   its positions are paid out through the credit ledger.
   */
  function CloseMarket(s: State, caller: AccountId, marketId: U32, isLong: bool): (r: Result<State>)
    ensures marketId >= |s.markets| ==> r == Err(MarketNotFound)
    ensures marketId < |s.markets| && !s.markets[marketId].isOpen ==> r == Err(AlreadyClosed)
    ensures marketId < |s.markets| && s.markets[marketId].isOpen && s.markets[marketId].owner != caller
      ==> r == Err(NotOwner)
    ensures r.Ok? <==>
      && marketId < |s.markets|
      && s.markets[marketId].isOpen
      && s.markets[marketId].owner == caller
      && forall a :: Balance(s.credit, a) + Winnings(s.markets[marketId].shares, isLong, a) <= MAX_U128
    ensures r.Err? && marketId < |s.markets| && s.markets[marketId].isOpen && s.markets[marketId].owner == caller
      ==> r.error == Overflow
    ensures r.Ok? ==> r.value.markets == s.markets[marketId := s.markets[marketId].(isOpen := false)]
    ensures r.Ok? ==> forall a ::
      Balance(r.value.credit, a) == Balance(s.credit, a) + Winnings(s.markets[marketId].shares, isLong, a)
    ensures r.Ok? ==> r.value.credit.Keys == s.credit.Keys + Winners(s.markets[marketId].shares, isLong)
    ensures r.Ok? ==> r.value.offers == s.offers && r.value.nextOfferId == s.nextOfferId
  {
    if marketId >= |s.markets| then Err(MarketNotFound)
    else
      var m := s.markets[marketId];
      if !m.isOpen then Err(AlreadyClosed)
      else if m.owner != caller then Err(NotOwner)
      else
        var credit :- Settle(s.credit, m.shares, isLong);
        Ok(s.(markets := s.markets[marketId := m.(isOpen := false)], credit := credit))
  }

  /** A market is settled at most once: closing it again always fails and changes nothing. */
  lemma CloseTwiceFails(s: State, caller: AccountId, marketId: U32, isLong: bool,
                        caller': AccountId, isLong': bool)
    requires CloseMarket(s, caller, marketId, isLong).Ok?
    ensures var t := CloseMarket(s, caller, marketId, isLong).value;
      && CloseMarket(t, caller', marketId, isLong') == Err(AlreadyClosed)
      && t.markets[marketId].shares == s.markets[marketId].shares
  {
  }

  /** An account that wins no position is owed nothing by settlement. */
  lemma {:induction false} LoserGetsNothing(shares: seq<SharePair>, isLong: bool, a: AccountId)
    requires a !in Winners(shares, isLong)
    ensures Winnings(shares, isLong, a) == 0
    decreases |shares|
  {
    if |shares| > 0 {
      WinnersCons(shares, isLong);
      LoserGetsNothing(shares[1..], isLong, a);
    }
  }

  /** Settlement raises the ledger's total by exactly twice the total stake. */
  lemma {:induction false} SettleTotal(credit: Credit, shares: seq<SharePair>, isLong: bool)
    requires Settle(credit, shares, isLong).Ok?
    ensures CreditTotal(Settle(credit, shares, isLong).value) == CreditTotal(credit) + 2 * ShareTotal(shares)
    decreases |shares|
  {
    if |shares| > 0 {
      var p := shares[0];
      var next := CreditAccount(credit, Winner(p, isLong), 2 * p.amount);
      CreditAccountTotal(credit, Winner(p, isLong), 2 * p.amount);
      SettleTotal(next.value, shares[1..], isLong);
    }
  }

  lemma {:induction false} ShareTotalAppend(shares: seq<SharePair>, p: SharePair)
    ensures ShareTotal(shares + [p]) == ShareTotal(shares) + p.amount
    decreases |shares|
  {
    if |shares| > 0 {
      assert (shares + [p])[1..] == shares[1..] + [p];
      ShareTotalAppend(shares[1..], p);
    }
  }
}
