/**
 Credit Ledger: the map from account to withdrawable balance. Balances only
 grow by crediting and leave the ledger all at once on withdrawal.
 */
module Ledger {
  import opened Types
  import opened Sums

  type Credit = map<AccountId, U128>

  /** What the ledger owes `a`; an account without an entry is owed nothing. */
  function Balance(credit: Credit, a: AccountId): nat {
    if a in credit then credit[a] else 0
  }

  /**
   Adds `amount` to the entry of `account`, creating the entry when missing;
   the u128 addition aborts the call on overflow (overflow checks assumed on).
   */
  function CreditAccount(credit: Credit, account: AccountId, amount: U128): (r: Result<Credit>)
    ensures r.Ok? <==> Balance(credit, account) + amount <= MAX_U128
    ensures r.Err? ==> r.error == Overflow
    ensures r.Ok? ==> r.value.Keys == credit.Keys + {account}
    ensures r.Ok? ==> Balance(r.value, account) == Balance(credit, account) + amount
    ensures r.Ok? ==> forall a :: a != account ==> Balance(r.value, a) == Balance(credit, a)
  {
    var total := Balance(credit, account) + amount;
    if total > MAX_U128 then Err(Overflow) else Ok(credit[account := total])
  }

  /**
   Removes the caller's whole entry and returns the amount it held; the
   transfer of that amount to the caller is left to the host.
   */
  function Withdraw(s: State, caller: AccountId): (r: Result<(State, U128)>)
    ensures r.Err? <==> caller !in s.credit
    ensures r.Err? ==> r.error == NothingToWithdraw
    ensures r.Ok? ==> r.value.1 == Balance(s.credit, caller)
    ensures r.Ok? ==> caller !in r.value.0.credit
    ensures r.Ok? ==> r.value.0.credit.Keys == s.credit.Keys - {caller}
    ensures r.Ok? ==> forall a :: a != caller ==> Balance(r.value.0.credit, a) == Balance(s.credit, a)
    ensures r.Ok? ==> r.value.0 == s.(credit := r.value.0.credit)
  {
    if caller !in s.credit then Err(NothingToWithdraw)
    else Ok((s.(credit := s.credit - {caller}), s.credit[caller]))
  }

  /** A withdrawal empties the entry, so a second one right after fails. */
  lemma WithdrawTwiceFails(s: State, caller: AccountId)
    requires Withdraw(s, caller).Ok?
    ensures Withdraw(Withdraw(s, caller).value.0, caller) == Err(NothingToWithdraw)
  {
  }

  /** The balances as plain numbers. */
  ghost function Balances(credit: Credit): map<AccountId, nat> {
    map a | a in credit :: credit[a] as nat
  }

  /** Everything the ledger owes. */
  ghost function CreditTotal(credit: Credit): nat {
    SumMap(Balances(credit))
  }

  /** Crediting `amount` raises the ledger's total by exactly `amount`. */
  lemma CreditAccountTotal(credit: Credit, account: AccountId, amount: U128)
    requires CreditAccount(credit, account, amount).Ok?
    ensures CreditTotal(CreditAccount(credit, account, amount).value) == CreditTotal(credit) + amount
  {
    var total := Balance(credit, account) + amount;
    assert Balances(credit[account := total]) == Balances(credit)[account := total];
    if account in credit {
      SumMapUpdate(Balances(credit), account, total);
    } else {
      SumMapInsert(Balances(credit), account, total);
    }
  }

  /** Withdrawing lowers the ledger's total by exactly the amount paid out. */
  lemma WithdrawTotal(s: State, caller: AccountId)
    requires Withdraw(s, caller).Ok?
    ensures CreditTotal(Withdraw(s, caller).value.0.credit) + Withdraw(s, caller).value.1
         == CreditTotal(s.credit)
  {
    assert Balances(s.credit - {caller}) == Balances(s.credit) - {caller};
    SumMapRemove(Balances(s.credit), caller);
  }
}
