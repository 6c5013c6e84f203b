/**
 The contract as a state machine: one external call at a time, each either
 committing all of its writes or none. On top of it, the facts that hold
 across calls: reachable states stay well formed, consumed offer ids never
 come back, a closed market stays closed, and value is conserved.
 */
module Machine {
  import opened Types
  import opened Sums
  import opened Ledger
  import opened Registry
  import opened OfferBook
  import opened Settlement

  /** An external call: the caller and, for payable calls, the attached deposit, plus the call's arguments. */
  datatype Call =
    | CreateMarketCall(caller: AccountId, description: string)
    | CreateOfferCall(caller: AccountId, deposit: U128, marketId: U32, isLong: bool)
    | AcceptOfferCall(caller: AccountId, deposit: U128, offerId: U32)
    | CloseMarketCall(caller: AccountId, marketId: U32, isLong: bool)
    | WithdrawCall(caller: AccountId)

  /** The state a call commits, when it does not abort. */
  function Apply(s: State, c: Call): Result<State> {
    match c
    case CreateMarketCall(caller, description) =>
      var (t, _) :- CreateMarket(s, caller, description); Ok(t)
    case CreateOfferCall(caller, deposit, marketId, isLong) =>
      var (t, _) :- CreateOffer(s, caller, deposit, marketId, isLong); Ok(t)
    case AcceptOfferCall(caller, deposit, offerId) =>
      AcceptOffer(s, caller, deposit, offerId)
    case CloseMarketCall(caller, marketId, isLong) =>
      CloseMarket(s, caller, marketId, isLong)
    case WithdrawCall(caller) =>
      var (t, _) :- Withdraw(s, caller); Ok(t)
  }

  /** An aborted call leaves the state as it was. */
  function Exec(s: State, c: Call): State {
    match Apply(s, c)
    case Ok(t) => t
    case Err(_) => s
  }

  /** The state after a sequence of calls, in order. */
  function Run(s: State, calls: seq<Call>): State
    decreases |calls|
  {
    if |calls| == 0 then s else Run(Exec(s, calls[0]), calls[1..])
  }

  /** Running one more call continues from where the run left off. */
  lemma {:induction false} RunAppend(s: State, calls: seq<Call>, c: Call)
    ensures Run(s, calls + [c]) == Exec(Run(s, calls), c)
    decreases |calls|
  {
    if |calls| > 0 {
      assert (calls + [c])[1..] == calls[1..] + [c];
      RunAppend(Exec(s, calls[0]), calls[1..], c);
    }
  }

  /** Every call, committed or aborted, keeps the state well formed. */
  lemma StepValid(s: State, c: Call)
    requires Valid(s)
    ensures Valid(Exec(s, c))
  {
  }

  lemma {:induction false} RunValid(s: State, calls: seq<Call>)
    requires Valid(s)
    ensures Valid(Run(s, calls))
    decreases |calls|
  {
    if |calls| > 0 {
      StepValid(s, calls[0]);
      RunValid(Exec(s, calls[0]), calls[1..]);
    }
  }

  /** In a reachable state a new offer never lands on an id already in the book. */
  lemma CreateOfferFreshId(s: State, caller: AccountId, deposit: U128, marketId: U32, isLong: bool)
    requires Valid(s)
    requires CreateOffer(s, caller, deposit, marketId, isLong).Ok?
    ensures CreateOffer(s, caller, deposit, marketId, isLong).value.1.id !in s.offers
    ensures CreateOffer(s, caller, deposit, marketId, isLong).value.0.offers
         == s.offers[s.nextOfferId := CreateOffer(s, caller, deposit, marketId, isLong).value.1]
  {
  }

  /** An offer id that was issued and is no longer in the book is gone for good. */
  lemma {:induction false} ConsumedOfferStaysGone(s: State, calls: seq<Call>, id: U32)
    requires Valid(s)
    requires id < s.nextOfferId && id !in s.offers
    ensures id < Run(s, calls).nextOfferId && id !in Run(s, calls).offers
    decreases |calls|
  {
    if |calls| > 0 {
      var t := Exec(s, calls[0]);
      assert id < t.nextOfferId && id !in t.offers;
      StepValid(s, calls[0]);
      ConsumedOfferStaysGone(t, calls[1..], id);
    }
  }

  /**
   A closed market never reopens and can never be closed, hence settled,
   again; positions that reach it afterwards stay unpaid.
   */
  lemma {:induction false} ClosedMarketStaysClosed(s: State, calls: seq<Call>, j: U32,
                                                   caller: AccountId, isLong: bool)
    requires j < |s.markets| && !s.markets[j].isOpen
    ensures j < |Run(s, calls).markets| && !Run(s, calls).markets[j].isOpen
    ensures CloseMarket(Run(s, calls), caller, j, isLong) == Err(AlreadyClosed)
    decreases |calls|
  {
    if |calls| > 0 {
      var t := Exec(s, calls[0]);
      if calls[0].CreateMarketCall? && Apply(s, calls[0]).Ok? {
        assert t.markets[j] == t.markets[..|s.markets|][j];
      }
      assert j < |t.markets| && !t.markets[j].isOpen;
      ClosedMarketStaysClosed(t, calls[1..], j, caller, isLong);
    }
  }

  // ---------------------------------------------------------------------
  // Conservation of value
  // ---------------------------------------------------------------------

  /**
   Bookkeeping that the contract does not store: how much was deposited by
   committed payable calls, how much was paid out by withdrawals, and for
   each market how many of its positions were paid out when it was closed
   (0 while it is open).
   */
  datatype Books = Books(deposited: nat, withdrawn: nat, settled: seq<nat>)

  /** The positions of `m` not paid out by its close. */
  function Unsettled(m: Market, paid: nat): seq<SharePair> {
    if paid <= |m.shares| then m.shares[paid..] else []
  }

  /** Per market, twice the stake of its unpaid positions. */
  function EscrowTerms(markets: seq<Market>, settled: seq<nat>): seq<nat> {
    seq(|markets|, i requires 0 <= i < |markets| =>
      2 * ShareTotal(Unsettled(markets[i], if i < |settled| then settled[i] else 0)))
  }

  /** The escrowed amounts of the book, by offer id. */
  ghost function Amounts(offers: map<U32, Offer>): map<U32, nat> {
    map k | k in offers :: offers[k].amount as nat
  }

  ghost function OfferTotal(offers: map<U32, Offer>): nat {
    SumMap(Amounts(offers))
  }

  /** All value the contract holds: escrowed offers, unpaid positions and credit. */
  ghost function Held(s: State, settled: seq<nat>): nat {
    OfferTotal(s.offers) + SeqSum(EscrowTerms(s.markets, settled)) + CreditTotal(s.credit)
  }

  /** `b.settled` describes the markets of `s`. */
  ghost predicate Tracks(s: State, b: Books) {
    && |b.settled| == |s.markets|
    && (forall i :: 0 <= i < |s.markets| ==> b.settled[i] <= |s.markets[i].shares|)
    && (forall i :: 0 <= i < |s.markets| && s.markets[i].isOpen ==> b.settled[i] == 0)
  }

  /** Everything deposited is either still held or was withdrawn. */
  ghost predicate Conserved(s: State, b: Books) {
    Tracks(s, b) && b.deposited == Held(s, b.settled) + b.withdrawn
  }

  /** The bookkeeping effect of committed call `c` on state `s`. */
  ghost function Record(b: Books, s: State, c: Call): Books {
    match c
    case CreateMarketCall(_, _) => b.(settled := b.settled + [0])
    case CreateOfferCall(_, deposit, _, _) => b.(deposited := b.deposited + deposit)
    case AcceptOfferCall(_, deposit, _) => b.(deposited := b.deposited + deposit)
    case CloseMarketCall(_, j, _) =>
      if j < |s.markets| && j < |b.settled| then b.(settled := b.settled[j := |s.markets[j].shares|]) else b
    case WithdrawCall(caller) =>
      match Withdraw(s, caller)
      case Ok((_, paid)) => b.(withdrawn := b.withdrawn + paid)
      case Err(_) => b
  }

  /** Bookkeeping along a sequence of calls; aborted calls record nothing. */
  ghost function Audit(b: Books, s: State, calls: seq<Call>): Books
    decreases |calls|
  {
    if |calls| == 0 then b
    else
      var b' := if Apply(s, calls[0]).Ok? then Record(b, s, calls[0]) else b;
      Audit(b', Exec(s, calls[0]), calls[1..])
  }

  lemma OfferTotalInsert(offers: map<U32, Offer>, o: Offer)
    requires o.id !in offers
    ensures OfferTotal(offers[o.id := o]) == OfferTotal(offers) + o.amount
  {
    assert Amounts(offers[o.id := o]) == Amounts(offers)[o.id := o.amount];
    SumMapInsert(Amounts(offers), o.id, o.amount);
  }

  lemma OfferTotalRemove(offers: map<U32, Offer>, id: U32)
    requires id in offers
    ensures OfferTotal(offers - {id}) + offers[id].amount == OfferTotal(offers)
  {
    assert Amounts(offers - {id}) == Amounts(offers) - {id};
    SumMapRemove(Amounts(offers), id);
  }

  lemma CreateMarketConserves(s: State, b: Books, caller: AccountId, description: string)
    requires Conserved(s, b)
    requires CreateMarket(s, caller, description).Ok?
    ensures Conserved(CreateMarket(s, caller, description).value.0, b.(settled := b.settled + [0]))
  {
    var t := CreateMarket(s, caller, description).value.0;
    var b' := b.(settled := b.settled + [0]);
    forall i | 0 <= i < |s.markets|
      ensures t.markets[i] == s.markets[i]
    {
      assert t.markets[i] == t.markets[..|s.markets|][i];
    }
    assert EscrowTerms(t.markets, b'.settled) == EscrowTerms(s.markets, b.settled) + [0];
    SeqSumAppend(EscrowTerms(s.markets, b.settled), 0);
  }

  lemma CreateOfferConserves(s: State, b: Books, caller: AccountId, deposit: U128, marketId: U32, isLong: bool)
    requires Valid(s) && Conserved(s, b)
    requires CreateOffer(s, caller, deposit, marketId, isLong).Ok?
    ensures Conserved(CreateOffer(s, caller, deposit, marketId, isLong).value.0,
                      b.(deposited := b.deposited + deposit))
  {
    var (t, o) := CreateOffer(s, caller, deposit, marketId, isLong).value;
    OfferTotalInsert(s.offers, o);
  }

  /** Appending position `p` to market `j` adds twice its stake to that market's unpaid escrow. */
  lemma EscrowAppend(markets: seq<Market>, settled: seq<nat>, j: nat, p: SharePair)
    requires j < |markets| && |settled| == |markets| && settled[j] <= |markets[j].shares|
    ensures var m := markets[j];
      SeqSum(EscrowTerms(markets[j := m.(shares := m.shares + [p])], settled))
      == SeqSum(EscrowTerms(markets, settled)) + 2 * p.amount
  {
    var m := markets[j];
    var markets' := markets[j := m.(shares := m.shares + [p])];
    var paid := settled[j];
    assert Unsettled(markets'[j], paid) == Unsettled(m, paid) + [p];
    ShareTotalAppend(Unsettled(m, paid), p);
    var before := EscrowTerms(markets, settled);
    assert EscrowTerms(markets', settled) == before[j := before[j] + 2 * p.amount];
    SeqSumUpdate(before, j, before[j] + 2 * p.amount);
  }

  lemma AcceptOfferConserves(s: State, b: Books, caller: AccountId, deposit: U128, offerId: U32)
    requires Conserved(s, b)
    requires AcceptOffer(s, caller, deposit, offerId).Ok?
    ensures Conserved(AcceptOffer(s, caller, deposit, offerId).value, b.(deposited := b.deposited + deposit))
  {
    var t := AcceptOffer(s, caller, deposit, offerId).value;
    var o := s.offers[offerId];
    var j := o.marketId;
    var m := s.markets[j];
    var p := Pairing(o, caller);
    assert t == s.(offers := s.offers - {offerId}, markets := s.markets[j := m.(shares := m.shares + [p])]);
    OfferTotalRemove(s.offers, offerId);
    EscrowAppend(s.markets, b.settled, j, p);
  }

  lemma CloseMarketConserves(s: State, b: Books, caller: AccountId, marketId: U32, isLong: bool)
    requires Conserved(s, b)
    requires CloseMarket(s, caller, marketId, isLong).Ok?
    ensures Conserved(CloseMarket(s, caller, marketId, isLong).value,
                      b.(settled := b.settled[marketId := |s.markets[marketId].shares|]))
  {
    var t := CloseMarket(s, caller, marketId, isLong).value;
    var m := s.markets[marketId];
    var b' := b.(settled := b.settled[marketId := |m.shares|]);
    SettleTotal(s.credit, m.shares, isLong);
    assert m.shares[0..] == m.shares;
    assert m.shares[|m.shares|..] == [];
    var before := EscrowTerms(s.markets, b.settled);
    assert before[marketId] == 2 * ShareTotal(m.shares);
    assert EscrowTerms(t.markets, b'.settled) == before[marketId := 0];
    SeqSumUpdate(before, marketId, 0);
  }

  lemma WithdrawConserves(s: State, b: Books, caller: AccountId)
    requires Conserved(s, b)
    requires Withdraw(s, caller).Ok?
    ensures Conserved(Withdraw(s, caller).value.0, b.(withdrawn := b.withdrawn + Withdraw(s, caller).value.1))
  {
    WithdrawTotal(s, caller);
  }

  /** Every committed call keeps the books balanced. */
  lemma StepConserves(s: State, b: Books, c: Call)
    requires Valid(s) && Conserved(s, b)
    requires Apply(s, c).Ok?
    ensures Conserved(Apply(s, c).value, Record(b, s, c))
  {
    match c
    case CreateMarketCall(caller, description) =>
      CreateMarketConserves(s, b, caller, description);
    case CreateOfferCall(caller, deposit, marketId, isLong) =>
      CreateOfferConserves(s, b, caller, deposit, marketId, isLong);
    case AcceptOfferCall(caller, deposit, offerId) =>
      AcceptOfferConserves(s, b, caller, deposit, offerId);
    case CloseMarketCall(caller, marketId, isLong) =>
      CloseMarketConserves(s, b, caller, marketId, isLong);
    case WithdrawCall(caller) =>
      WithdrawConserves(s, b, caller);
  }

  lemma {:induction false} RunConserves(s: State, b: Books, calls: seq<Call>)
    requires Valid(s) && Conserved(s, b)
    ensures Conserved(Run(s, calls), Audit(b, s, calls))
    decreases |calls|
  {
    if |calls| > 0 {
      var c := calls[0];
      var b' := if Apply(s, c).Ok? then Record(b, s, c) else b;
      if Apply(s, c).Ok? {
        StepConserves(s, b, c);
      }
      StepValid(s, c);
      RunConserves(Exec(s, c), b', calls[1..]);
    }
  }

  lemma InitConserved()
    ensures Conserved(Init(), Books(0, 0, []))
  {
    assert EscrowTerms([], []) == [];
    assert Amounts(map[]) == map[];
    assert Balances(map[]) == map[];
  }

  /**
   From the initial state, after any sequence of calls, the value deposited
   equals what is held (offers, unpaid positions, credit) plus what was
   withdrawn.
   */
  lemma Conservation(calls: seq<Call>)
    ensures Conserved(Run(Init(), calls), Audit(Books(0, 0, []), Init(), calls))
  {
    var s0, b0 := Init(), Books(0, 0, []);
    InitConserved();
    RunConserves(s0, b0, calls);
  }
}
