/**
 Offer Book: pending, fully collateralised bets keyed by a counter-issued id,
 and their conversion into a matched position when someone takes the other
 side.
 */
module OfferBook {
  import opened Types

  /**
   Stores an offer escrowing the attached deposit under the next counter
   value. The market id is not checked. The u32 counter increment aborts the
   call on overflow (overflow checks assumed on).
   */
  function CreateOffer(s: State, caller: AccountId, deposit: U128, marketId: U32, isLong: bool)
    : (r: Result<(State, Offer)>)
    ensures deposit == 0 ==> r == Err(InvalidAmount)
    ensures deposit > 0 && s.nextOfferId == MAX_U32 ==> r == Err(Overflow)
    ensures r.Ok? <==> deposit > 0 && s.nextOfferId < MAX_U32
    ensures r.Ok? ==> r.value.1 == Offer(s.nextOfferId, marketId, isLong, caller, deposit)
    ensures r.Ok? ==> r.value.0.nextOfferId == s.nextOfferId + 1
    ensures r.Ok? ==> r.value.0.offers.Keys == s.offers.Keys + {s.nextOfferId}
    ensures r.Ok? ==> r.value.0.offers[s.nextOfferId] == r.value.1
    ensures r.Ok? ==> forall k :: k in s.offers && k != s.nextOfferId ==> r.value.0.offers[k] == s.offers[k]
    ensures r.Ok? ==> r.value.0.markets == s.markets && r.value.0.credit == s.credit
  {
    if deposit == 0 then Err(InvalidAmount)
    else if s.nextOfferId == MAX_U32 then Err(Overflow)
    else
      var o := Offer(s.nextOfferId, marketId, isLong, caller, deposit);
      Ok((s.(nextOfferId := s.nextOfferId + 1, offers := s.offers[o.id := o]), o))
  }

  /** The position recorded when `acceptor` takes the side opposite to offer `o`. */
  function Pairing(o: Offer, acceptor: AccountId): SharePair {
    if o.isLong then SharePair(o.account, acceptor, o.amount)
    else SharePair(acceptor, o.account, o.amount)
  }

  /**
   Consumes offer `offerId` and records the matched position in the offer's
   market. The market must exist but need not be open. The market's share
   list is a host Vector with a u32 length, so a full list aborts the call.
   */
  function AcceptOffer(s: State, caller: AccountId, deposit: U128, offerId: U32): (r: Result<State>)
    ensures deposit == 0 ==> r == Err(InvalidAmount)
    ensures deposit > 0 && offerId !in s.offers ==> r == Err(OfferNotFound)
    ensures deposit > 0 && offerId in s.offers && s.offers[offerId].amount != deposit
      ==> r == Err(AmountMismatch)
    ensures deposit > 0 && offerId in s.offers && s.offers[offerId].amount == deposit
      && s.offers[offerId].account == caller
      ==> r == Err(SelfTrade)
    ensures deposit > 0 && offerId in s.offers && s.offers[offerId].amount == deposit
      && s.offers[offerId].account != caller && s.offers[offerId].marketId >= |s.markets|
      ==> r == Err(MarketNotFound)
    ensures deposit > 0 && offerId in s.offers && s.offers[offerId].amount == deposit
      && s.offers[offerId].account != caller && s.offers[offerId].marketId < |s.markets|
      && |s.markets[s.offers[offerId].marketId].shares| >= MAX_U32
      ==> r == Err(Overflow)
    ensures r.Ok? <==>
      && deposit > 0 && offerId in s.offers
      && s.offers[offerId].amount == deposit
      && s.offers[offerId].account != caller
      && s.offers[offerId].marketId < |s.markets|
      && |s.markets[s.offers[offerId].marketId].shares| < MAX_U32
    ensures r.Ok? ==> offerId !in r.value.offers && r.value.offers == s.offers - {offerId}
    ensures r.Ok? ==> var o := s.offers[offerId]; var m := s.markets[o.marketId];
      && |r.value.markets| == |s.markets|
      && r.value.markets[o.marketId] == m.(shares := m.shares + [SharePair(
           if o.isLong then o.account else caller,
           if o.isLong then caller else o.account,
           deposit)])
      && (forall i :: 0 <= i < |s.markets| && i != o.marketId ==> r.value.markets[i] == s.markets[i])
    ensures r.Ok? ==> r.value.credit == s.credit && r.value.nextOfferId == s.nextOfferId
  {
    if deposit == 0 then Err(InvalidAmount)
    else if offerId !in s.offers then Err(OfferNotFound)
    else
      var o := s.offers[offerId];
      if o.amount != deposit then Err(AmountMismatch)
      else if caller == o.account then Err(SelfTrade)
      else if o.marketId >= |s.markets| then Err(MarketNotFound)
      else
        var m := s.markets[o.marketId];
        if |m.shares| >= MAX_U32 then Err(Overflow)
        else
          Ok(s.(offers := s.offers - {offerId},
                markets := s.markets[o.marketId := m.(shares := m.shares + [Pairing(o, caller)])]))
  }

  /** An accepted offer is gone: accepting the same id again fails. */
  lemma AcceptTwiceFails(s: State, caller: AccountId, deposit: U128, offerId: U32,
                         caller': AccountId, deposit': U128)
    requires AcceptOffer(s, caller, deposit, offerId).Ok?
    ensures AcceptOffer(AcceptOffer(s, caller, deposit, offerId).value, caller', deposit', offerId).Err?
    ensures deposit' > 0 ==>
      AcceptOffer(AcceptOffer(s, caller, deposit, offerId).value, caller', deposit', offerId) == Err(OfferNotFound)
  {
  }

  /**
   Nothing stops an acceptance from recording a position in a market that
   was already closed: the position lands in a market whose settlement has
   already happened.
   */
  lemma AcceptIntoClosedMarket(s: State, caller: AccountId, offerId: U32)
    requires offerId in s.offers
    requires s.offers[offerId].account != caller
    requires s.offers[offerId].amount > 0
    requires s.offers[offerId].marketId < |s.markets|
    requires !s.markets[s.offers[offerId].marketId].isOpen
    requires |s.markets[s.offers[offerId].marketId].shares| < MAX_U32
    ensures var r := AcceptOffer(s, caller, s.offers[offerId].amount, offerId);
      var j := s.offers[offerId].marketId;
      && r.Ok?
      && !r.value.markets[j].isOpen
      && |r.value.markets[j].shares| == |s.markets[j].shares| + 1
  {
  }

  /** The stored offers on market `marketId`, as a set. */
  ghost function MarketOffers(s: State, marketId: U32): set<Offer> {
    set k | k in s.offers && s.offers[k].marketId == marketId :: s.offers[k]
  }

  /**
   All stored offers on market `marketId`, each exactly once, in the
   arbitrary order of the book's iteration. `ids` names the key each
   returned offer is stored under.
   */
  method GetOffers(s: State, marketId: U32) returns (r: seq<Offer>, ghost ids: seq<U32>)
    ensures |r| == |ids|
    ensures forall i :: 0 <= i < |r| ==> ids[i] in s.offers && r[i] == s.offers[ids[i]]
    ensures forall i :: 0 <= i < |r| ==> r[i].marketId == marketId
    ensures forall k :: k in s.offers && s.offers[k].marketId == marketId ==> k in ids
    ensures forall i, j :: 0 <= i < j < |ids| ==> ids[i] != ids[j]
    ensures (set i | 0 <= i < |r| :: r[i]) == MarketOffers(s, marketId)
  {
    var todo := s.offers.Keys;
    r, ids := [], [];
    while todo != {}
      invariant todo <= s.offers.Keys
      invariant |r| == |ids|
      invariant forall i :: 0 <= i < |r| ==>
        ids[i] in s.offers && ids[i] !in todo && r[i] == s.offers[ids[i]] && r[i].marketId == marketId
      invariant forall k :: k in s.offers && k !in todo && s.offers[k].marketId == marketId ==> k in ids
      invariant forall i, j :: 0 <= i < j < |ids| ==> ids[i] != ids[j]
      decreases todo
    {
      var k :| k in todo;
      if s.offers[k].marketId == marketId {
        r, ids := r + [s.offers[k]], ids + [k];
      }
      todo := todo - {k};
    }
  }
}
