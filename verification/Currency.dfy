/** Free and reserved balances, with an existential deposit of 1 and no locks. */
module Currency {
  import opened Prelude
  import opened Chain

  function Reserve(b: Balances, who: AccountId, amount: nat): Result<Balances> {
    var account := b.Of(who);
    if amount == 0 then
      Ok(b)
    else if account.free < amount then
      Err(InsufficientBalance)
    else
      Ok(b.(accounts := b.accounts[who := Account(account.free - amount, account.reserved + amount)]))
  }

  /** Moves at most `amount` back to the free balance: whatever is reserved, whoever reserved it. */
  function Unreserve(b: Balances, who: AccountId, amount: nat): Balances {
    var account := b.Of(who);
    var actual: nat := Min(account.reserved, amount);
    b.(accounts := b.accounts[who := Account(account.free + actual, account.reserved - actual)])
  }

  /** Takes `amount` out of circulation. */
  function Burn(b: Balances, who: AccountId, amount: nat): Result<Balances> {
    var account := b.Of(who);
    if account.free < amount then
      Err(InsufficientBalance)
    else
      Ok(Balances(b.accounts[who := account.(free := account.free - amount)], b.issuance - amount))
  }

  function Transfer(b: Balances, from: AccountId, to: AccountId, amount: nat): Result<Balances> {
    var source := b.Of(from);
    if source.free < amount then
      Err(InsufficientBalance)
    else
      var debited := b.(accounts := b.accounts[from := source.(free := source.free - amount)]);
      var target := debited.Of(to);
      Ok(debited.(accounts := debited.accounts[to := target.(free := target.free + amount)]))
  }
}
