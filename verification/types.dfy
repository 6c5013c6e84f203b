/**
 Data model of the prediction-market settlement contract: accounts, markets
 with their matched positions, pending offers, the credit ledger, and the
 failure taxonomy of the contract's entry points.

 Every entry point of the contract aborts the whole call on failure and the
 host reverts everything written during that call, so each entry point is
 modelled as a pure function that returns either the next state or an error.
 */
module Types {

  /** Largest value of the source's `u32`. */
  const MAX_U32: nat := 0xFFFF_FFFF

  /** Largest value of the source's `u128`. */
  const MAX_U128: nat := 0xFFFF_FFFF_FFFF_FFFF_FFFF_FFFF_FFFF_FFFF

  type U32 = x: nat | x <= MAX_U32
  type U128 = x: nat | x <= MAX_U128

  /** Account names are opaque strings supplied by the host. */
  type AccountId = string

  /** Why a call aborted. */
  datatype Error =
    | InvalidAmount      // no deposit attached to a payable call
    | OfferNotFound      // unknown or already accepted offer id
    | MarketNotFound     // unknown market index
    | AlreadyClosed      // close of a market that is no longer open
    | NotOwner           // close by someone other than the market's creator
    | AmountMismatch     // acceptance deposit differs from the offer amount
    | SelfTrade          // acceptance of one's own offer
    | NothingToWithdraw  // withdrawal without a credit entry
    | Overflow           // a u32/u128 overflow or a full Vector

  /** Failure-compatible result of an entry point. */
  datatype Result<T> = Ok(value: T) | Err(error: Error) {

    predicate IsFailure() {
      Err?
    }

    function PropagateFailure<U>(): Result<U>
      requires Err?
    {
      Err(error)
    }

    function Extract(): T
      requires Ok?
    {
      value
    }
  }

  /** An answer that may be empty. */
  datatype Option<T> = None | Some(value: T)

  /** A matched position: each side put `amount` into escrow. */
  datatype SharePair = SharePair(long: AccountId, short: AccountId, amount: U128)

  datatype Market = Market(
    id: U32,
    isOpen: bool,
    description: string,
    owner: AccountId,
    shares: seq<SharePair>)

  /** A pending one-sided bet whose creator escrowed `amount`. */
  datatype Offer = Offer(
    id: U32,
    marketId: U32,
    isLong: bool,
    account: AccountId,
    amount: U128)

  /** The whole persistent state of the contract. */
  datatype State = State(
    nextOfferId: U32,
    markets: seq<Market>,
    credit: map<AccountId, U128>,
    offers: map<U32, Offer>)

  /** The state written by the contract's initialiser: no markets, offers or credit, and a zero counter. */
  function Init(): (s: State)
    ensures Valid(s)
    ensures s.nextOfferId == 0 && |s.markets| == 0 && |s.offers| == 0 && |s.credit| == 0
  {
    State(0, [], map[], map[])
  }

  /** Facts every reachable state satisfies. */
  ghost predicate Valid(s: State) {
    && |s.markets| <= MAX_U32
    && (forall i :: 0 <= i < |s.markets| ==> s.markets[i].id == i)
    && (forall i :: 0 <= i < |s.markets| ==> |s.markets[i].shares| <= MAX_U32)
    && (forall i, j :: 0 <= i < |s.markets| && 0 <= j < |s.markets[i].shares| ==>
          s.markets[i].shares[j].amount > 0)
    && (forall k :: k in s.offers ==>
          s.offers[k].id == k && k < s.nextOfferId && s.offers[k].amount > 0)
  }
}
