/**
 Market Registry: the append-only table of markets, indexed by id, and its
 read-only projections.
 */
module Registry {
  import opened Types

  /** What callers see of a market: its fields and the number of its positions. */
  datatype MarketView = MarketView(
    id: U32,
    isOpen: bool,
    description: string,
    owner: AccountId,
    shares: nat)

  function View(m: Market): MarketView {
    MarketView(m.id, m.isOpen, m.description, m.owner, |m.shares|)
  }

  /**
   Appends an open market without positions, owned by the caller, whose id
   is its index. The market table is a host Vector with a u32 length, so a
   full table aborts the call.
   */
  function CreateMarket(s: State, caller: AccountId, description: string): (r: Result<(State, MarketView)>)
    ensures r.Err? <==> |s.markets| >= MAX_U32
    ensures r.Err? ==> r.error == Overflow
    ensures r.Ok? ==> |r.value.0.markets| == |s.markets| + 1
    ensures r.Ok? ==> r.value.0.markets[..|s.markets|] == s.markets
    ensures r.Ok? ==> var m := r.value.0.markets[|s.markets|];
      m.id == |s.markets| && m.isOpen && m.owner == caller
      && m.description == description && m.shares == []
    ensures r.Ok? ==> r.value.1 == View(r.value.0.markets[|s.markets|])
    ensures r.Ok? ==> r.value.0 == s.(markets := r.value.0.markets)
  {
    if |s.markets| >= MAX_U32 then Err(Overflow)
    else
      var id: U32 := |s.markets|;
      var m := Market(id, true, description, caller, []);
      var t := s.(markets := s.markets + [m]);
      Ok((t, View(t.markets[id])))
  }

  /** Lookup by id; an unknown id is an empty answer, not a failure. */
  function GetMarket(s: State, id: U32): (r: Option<MarketView>)
    ensures r.Some? <==> id < |s.markets|
    ensures r.Some? ==> var m := s.markets[id];
      && r.value.id == m.id && r.value.isOpen == m.isOpen && r.value.description == m.description
      && r.value.owner == m.owner && r.value.shares == |m.shares|
  {
    if id < |s.markets| then Some(View(s.markets[id])) else None
  }

  /** All markets in creation order. */
  function ListMarkets(s: State): (r: seq<MarketView>)
    ensures |r| == |s.markets|
    ensures forall i :: 0 <= i < |r| ==>
      && r[i].id == s.markets[i].id && r[i].isOpen == s.markets[i].isOpen
      && r[i].description == s.markets[i].description && r[i].owner == s.markets[i].owner
      && r[i].shares == |s.markets[i].shares|
  {
    seq(|s.markets|, i requires 0 <= i < |s.markets| => View(s.markets[i]))
  }

  /** The two read paths agree: a lookup finds exactly the listed market at that position. */
  lemma GetMarketMatchesList(s: State, id: U32)
    ensures GetMarket(s, id).Some? <==> id < |ListMarkets(s)|
    ensures GetMarket(s, id).Some? ==> GetMarket(s, id).value == ListMarkets(s)[id]
  {
  }

  /**
   In a reachable state the listing is in creation order: the market at
   position `i` has id `i`, and a lookup by id returns the market with that id.
   */
  lemma ListedInCreationOrder(s: State, id: U32)
    requires Valid(s)
    ensures |ListMarkets(s)| == |s.markets|
    ensures forall i :: 0 <= i < |s.markets| ==> ListMarkets(s)[i].id == i
    ensures GetMarket(s, id).Some? ==> GetMarket(s, id).value.id == id
  {
  }

  /** A freshly created market is found under the id it was given, and earlier ids still find their markets. */
  lemma CreateMarketThenGet(s: State, caller: AccountId, description: string, id: U32)
    requires CreateMarket(s, caller, description).Ok?
    ensures var t := CreateMarket(s, caller, description).value.0;
      && GetMarket(t, |s.markets| as U32) == Some(MarketView(|s.markets|, true, description, caller, 0))
      && (id < |s.markets| ==> GetMarket(t, id) == GetMarket(s, id))
  {
  }
}
