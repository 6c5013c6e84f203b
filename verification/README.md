# Prediction-market settlement contract, modelled in Dafny

This project models the NEAR smart contract `contract/src/lib.rs`: a
prediction-market settlement engine. Anyone may open a market on a yes/no
proposition. Others post fully collateralised long or short offers against
it. A counterparty accepts an offer whole, which turns it into a matched
position (a `SharePair`). When the market's owner closes the market, every
position pays twice its stake to the winning side's credit balance, which
the winner later withdraws.

The contract state is one immutable `State` value (`types.dfy`):

- `markets`: an append-only sequence of `Market`, each with an append-only sequence of `SharePair`;
- `offers`: a map from offer id to `Offer`;
- `credit`: a map from account to withdrawable balance;
- `nextOfferId`: the offer id counter.

Each mutating entry point is a pure function from the state and its inputs
to a `Result`; the read-only `get_offers` is a method whose result order is
not fixed. The host's `predecessor_account_id` and `attached_deposit` are
explicit `caller` and `deposit` parameters. On the NEAR host, a failed
`require!`, a panic or an arithmetic overflow panic reverts every write of
the call. So an `Err` carries no state, and `Machine.Exec` keeps the old
state.

The u32 and u128 integers of the source are the subset types `U32` and
`U128` of `nat`. In the source, `+=` and `* 2` are plain Rust operators,
which panic on overflow only when the crate is built with overflow checks
(Rust's release profile wraps by default). The model assumes the build has
overflow checks on, so three operations fail with `Overflow` instead of
wrapping:

- the offer counter increment;
- the doubling of a stake at close;
- the addition to a credit entry.

`markets` and each market's `shares` are near_sdk `Vector`s, whose length is
a u32. Pushing onto a full one aborts the call, and the model treats that as
`Overflow` too.

Modules, leaves first:

- `Types`: constants, the data model, errors, `Result`, and the `Valid` invariant of reachable states.
- `Sums`: sums over maps and sequences, used to state conservation.
- `Ledger`: `credit_account` and `withdraw`.
- `Registry`: `create_market`, `get_market` and `list_markets`.
- `OfferBook`: `create_offer`, `accept_offer` and `get_offers`.
- `Settlement`: `close_market` and the per-position payout.
- `Machine`: calls as a state machine. It proves invariant preservation, that consumed offer ids never come back, that a closed market stays closed, and conservation of value over any sequence of calls.
- `Scenarios`: worked runs.

Behaviour kept as the code has it:

- `accept_offer` checks only that the offer's market exists, not that it is open: the comment at lib.rs:321 says "check that market is still open", but lib.rs:322-325 only looks the market up. A position can therefore be appended to a closed market. `OfferBook.AcceptIntoClosedMarket` exhibits this case. `Machine.ClosedMarketStaysClosed` shows that such a position is never paid out: the market can never be closed again. The model keeps this behaviour and adds no open-market check.
- `create_offer` does not check that the market exists (lib.rs:260-281).
- Conservation counts the escrow of every position not yet paid by a close. This includes the stranded positions of the previous point. A total over the positions of open markets only would not balance: a position accepted after its market's close would drop out of it although its stake is still held. The ghost `Machine.Books` records, for each market, how many positions its close paid out.

## Model

| member | source | states |
|---|---|---|
| Ledger.CreditAccount | contract/src/lib.rs:175-184 | Creates the entry or adds to it. Only the credited account's balance changes, and it rises by exactly `amount`. The call fails with Overflow exactly when the new balance would exceed u128. |
| Ledger.Withdraw | contract/src/lib.rs:187-206 | Fails with NothingToWithdraw exactly when the caller has no entry. Otherwise it returns the caller's whole balance and removes the entry. Every other balance and every other part of the state is unchanged. |
| Ledger.WithdrawTwiceFails | contract/src/lib.rs:192-195 | A second withdrawal right after a successful one fails with NothingToWithdraw. |
| Ledger.CreditAccountTotal | contract/src/lib.rs:177 | Crediting raises the ledger's total by exactly the credited amount. |
| Ledger.WithdrawTotal | contract/src/lib.rs:192-195 | The amount paid out plus the remaining ledger total equals the total before the withdrawal. |
| Registry.CreateMarket | contract/src/lib.rs:143-173 | Appends exactly one market: open, without positions, owned by the caller, with id equal to the previous market count. Earlier markets, offers, credit and the counter are unchanged. It returns that market's projection, and fails only when the u32-length table is full. |
| Types.Init | contract/src/lib.rs:131-139 | The initialiser's state has no markets, offers or credit and a zero offer counter, and it is well formed. |
| Registry.GetMarket | contract/src/lib.rs:356-358 | A lookup finds a market exactly when the id is below the market count. It returns that market's id, open flag, description, owner and position count. |
| Registry.ListMarkets | contract/src/lib.rs:360-362 | Lists one projection per market, in table order, each with that market's fields and position count. |
| Registry.ListedInCreationOrder | contract/src/lib.rs:143-160 | In a well-formed state, listing entry i is the market with id i, so markets are listed in creation order. A lookup of an id returns the market with that id. |
| Registry.GetMarketMatchesList | contract/src/lib.rs:356-362 | A lookup finds a market exactly for ids below the listed count, and returns the listed projection at that position. |
| Registry.CreateMarketThenGet | contract/src/lib.rs:143-173 | After a creation, the new id finds an open market with no positions owned by the caller. Every earlier id still finds the same market as before. |
| OfferBook.CreateOffer | contract/src/lib.rs:260-295 | A zero deposit fails with InvalidAmount, and a full u32 counter fails with Overflow. Otherwise the call stores and returns an offer with the counter as id and the given market, side, caller and amount, and increments the counter by one. Other offers, markets and credit are unchanged. |
| OfferBook.AcceptOffer | contract/src/lib.rs:298-347 | Failures in the code's order: InvalidAmount, OfferNotFound, AmountMismatch, SelfTrade, MarketNotFound, then Overflow when the share list is full. Success requires exactly the negation of all of them. On success the offer leaves the book. Exactly one position of the offer's amount is appended to the offer's market, with the creator on the offer's side and the acceptor opposite. All other markets, credit and the counter are unchanged. |
| OfferBook.AcceptTwiceFails | contract/src/lib.rs:306-309 | After a successful acceptance, accepting the same id again fails, with OfferNotFound whenever a deposit is attached. |
| OfferBook.AcceptIntoClosedMarket | contract/src/lib.rs:321-325 | An acceptance whose market exists but is closed still succeeds. It appends a position to the closed market, which stays closed. |
| OfferBook.GetOffers | contract/src/lib.rs:364-375 | Returns exactly the stored offers of the given market, each once. As a set, the result equals the market's stored offers, so two reads of the same state return the same offers. |
| Settlement.Settle | contract/src/lib.rs:228-254 | Succeeds exactly when no account's final balance would exceed u128. Each account then ends with its old balance plus twice the stake of every position it wins, each position counted separately. The ledger gains entries exactly for the winners. |
| Settlement.CloseMarket | contract/src/lib.rs:208-255 | Failures in the code's order: MarketNotFound, AlreadyClosed, NotOwner, then Overflow from settlement. On success only the market's open flag changes among the markets. Every balance rises by that account's winnings, and entries are added exactly for the winners. Offers and counter are unchanged. |
| Settlement.CloseTwiceFails | contract/src/lib.rs:215-226 | Closing a market that was just closed fails with AlreadyClosed, and the first close left the market's positions untouched. |
| Settlement.LoserGetsNothing | contract/src/lib.rs:233-242 | An account that wins no position gets nothing from settlement, so losers' balances are unchanged. |
| Settlement.SettleTotal | contract/src/lib.rs:251-254 | Settlement raises the ledger's total by exactly twice the total stake of the market's positions. |
| Machine.StepValid | contract/src/lib.rs:141-347 | Every call keeps the state well formed. Market ids equal their indices. Table lengths fit u32. Positions carry a positive stake. Every stored offer is keyed by its own id, below the counter, with a positive amount. |
| Machine.RunValid | contract/src/lib.rs:141-347 | Any sequence of calls keeps the state well formed. |
| Machine.CreateOfferFreshId | contract/src/lib.rs:268-281 | In a reachable state, a new offer's id is not in the book, so no stored offer is overwritten. |
| Machine.ConsumedOfferStaysGone | contract/src/lib.rs:306-309 | An issued id that has left the book stays out of it after any sequence of calls, so offers are consumed exactly once. |
| Machine.ClosedMarketStaysClosed | contract/src/lib.rs:215-226 | A closed market stays closed after any sequence of calls, and every later close of it fails with AlreadyClosed. |
| Machine.InitConserved | contract/src/lib.rs:131-139 | In the initial state nothing is deposited, held or withdrawn. |
| Machine.CreateMarketConserves | contract/src/lib.rs:143-173 | Creating a market moves no value. |
| Machine.CreateOfferConserves | contract/src/lib.rs:260-295 | The deposit of a new offer is exactly the amount added to the book. |
| Machine.AcceptOfferConserves | contract/src/lib.rs:298-347 | The offer's escrow plus the acceptor's deposit become the new position's escrow of twice the stake. |
| Machine.CloseMarketConserves | contract/src/lib.rs:208-255 | Closing moves twice the stake of each unpaid position from escrow to credit. |
| Machine.WithdrawConserves | contract/src/lib.rs:187-206 | The withdrawn amount leaves the ledger and is counted as withdrawn. |
| Machine.StepConserves | contract/src/lib.rs:141-347 | Every committed call keeps deposits equal to what is held plus what was withdrawn. |
| Machine.RunConserves | contract/src/lib.rs:141-347 | That balance holds after any sequence of calls, with aborted calls changing and recording nothing. |
| Machine.Conservation | contract/src/lib.rs:141-347 | From the initial state, after any sequence of calls, deposits equal the stored offers' amounts, plus twice the stake of every position no close has paid, plus all credit balances, plus the amount withdrawn. |
| Scenarios.RainScenario | contract/src/lib.rs:143-347 | Market "Will it rain?": A offers 100 long and B accepts, which records one position {A, B, 100} and removes the offer. Closing with long winning credits A 200 and B nothing. A's withdrawal returns 200 and removes A's entry. |
| Scenarios.NoNettingScenario | contract/src/lib.rs:143-255 | From the initial state: a market is created, A posts long offers of 50 and 30, B and C accept one each, and the owner closes with long winning. The market keeps two separate positions and is closed. A is credited 160, one payout per position, and B and C get no entry. |
| Scenarios.AcceptAfterCloseScenario | contract/src/lib.rs:321-347 | From the initial state: A offers 100 long, the owner closes the still-empty market, then B accepts. The acceptance succeeds and appends position {A, B, 100} to the closed market. Nobody is credited, and the offer has left the book. |

## Left out

- Event emission (`ContractEvent` and its `.emit()` calls): observers only; the contract never reads events back.
- The value transfer that `withdraw` triggers (`Promise::new(..).transfer`): it is asynchronous host work. `Ledger.Withdraw` returns the debited amount instead.
- The host's account identity and attached deposit: they are the `caller` and `deposit` parameters. Non-payable calls take no deposit.
- The host's refund of a failed call's deposit: `Machine.Audit` counts deposits of committed calls only.
- Storage plumbing (`store::*` collections, `StorageKey`, Borsh/serde derives): the model uses Dafny sequences and maps. `ViewMarket` is the pure projection `Registry.View`.
- The second `Contract { token: FungibleToken }` struct and `get_shares`: unfinished stubs for share tokens that do not compile and have no behaviour.
- The contents of market descriptions: opaque strings.
- OfferBook.GetOffers: the iteration order of the host's `UnorderedMap` is not modelled. The offers come back in an arbitrary order, each exactly once.
- Registry.GetMarket: `ViewMarket.shares` is a u32 in the source. `Registry.View` gives `MarketView.shares` as a `nat`, the same count without the width, and `Valid` bounds it by u32 anyway. This applies to every result built by `Registry.View`: `Registry.GetMarket`, `Registry.ListMarkets` and `Registry.CreateMarket`.
- Idempotence of `list_markets` and `get_offers`: `Registry.ListMarkets` is a pure function of the state, so repeated reads are equal. `OfferBook.GetOffers` is a method that does not fix its order. Its result always contains exactly the offers of `OfferBook.MarketOffers`, so repeated reads return the same offers, each once, possibly in a different order.
- Host resource aborts (gas, storage staking): no success condition in the model accounts for them. `close_market` credits once per position within a single call (lib.rs:251-254). On the host, a market with enough positions runs out of gas and can never be closed, which `Settlement.CloseMarket` does not model.
