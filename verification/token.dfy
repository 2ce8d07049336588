/** The one service the market uses from the SPL token program: `transfer`.
    Checks follow the token program's order: the source must hold the amount,
    both accounts must hold the same mint, the authority must own the source;
    a transfer to the same account changes nothing; the destination must not
    pass u64. Delegates and frozen accounts are not modelled. */
module Token {
  import opened Errors
  import opened Accounts

  /** Exactly the inputs on which `Transfer` succeeds. */
  predicate CanTransfer(ledger: Ledger, from: Address, to: Address, authority: Address, amount: u64) {
    && from in ledger && to in ledger
    && amount <= ledger[from].amount
    && ledger[from].mint == ledger[to].mint
    && ledger[from].owner == authority
    && (from != to ==> ledger[to].amount + amount <= U64_MAX)
  }

  function Transfer(ledger: Ledger, from: Address, to: Address, authority: Address, amount: u64): (r: Result<Ledger>)
    ensures r.Ok? <==> CanTransfer(ledger, from, to, authority, amount)
    ensures from !in ledger || to !in ledger ==> r == Err(AccountNotInitialized)
    ensures from in ledger && to in ledger && ledger[from].amount < amount ==> r == Err(InsufficientFunds)
    ensures r.Ok? ==> SameShape(ledger, r.value)
    ensures r.Ok? ==> forall a :: a in ledger && a != from && a != to ==> r.value[a] == ledger[a]
    ensures r.Ok? && from == to ==> r.value == ledger
    ensures r.Ok? && from != to ==>
              && r.value[from].amount == ledger[from].amount - amount
              && r.value[to].amount == ledger[to].amount + amount
  {
    if from !in ledger || to !in ledger then Err(AccountNotInitialized)
    else if ledger[from].amount < amount then Err(InsufficientFunds)
    else if ledger[from].mint != ledger[to].mint then Err(MintMismatch)
    else if ledger[from].owner != authority then Err(OwnerMismatch)
    else if from == to then Ok(ledger)
    else if ledger[to].amount + amount > U64_MAX then Err(Overflow)
    else
      var source := ledger[from].(amount := ledger[from].amount - amount);
      var destination := ledger[to].(amount := ledger[to].amount + amount);
      Ok(ledger[from := source][to := destination])
  }

  /** What one account contributes to the supply of `mint`. */
  function Share(account: TokenAccount, mint: Address): nat {
    if account.mint == mint then account.amount else 0
  }

  /** Total balance of `mint` held across the ledger. */
  ghost function Supply(ledger: Ledger, mint: Address): nat
    decreases |ledger|
  {
    if ledger == map[] then 0
    else
      var a :| a in ledger;
      assert (ledger - {a}).Keys == ledger.Keys - {a};
      Share(ledger[a], mint) + Supply(ledger - {a}, mint)
  }

  /** The supply can be split at any account, whichever one `Supply` picks. */
  lemma {:induction false} SupplySplit(ledger: Ledger, k: Address, mint: Address)
    requires k in ledger
    ensures Supply(ledger, mint) == Share(ledger[k], mint) + Supply(ledger - {k}, mint)
    decreases |ledger|
  {
    var a :| a in ledger && Supply(ledger, mint) == Share(ledger[a], mint) + Supply(ledger - {a}, mint);
    if a != k {
      assert (ledger - {a}).Keys == ledger.Keys - {a};
      assert (ledger - {k}).Keys == ledger.Keys - {k};
      SupplySplit(ledger - {a}, k, mint);
      SupplySplit(ledger - {k}, a, mint);
      assert ledger - {a} - {k} == ledger - {k} - {a};
    }
  }

  lemma SupplyUpdate(ledger: Ledger, k: Address, v: TokenAccount, mint: Address)
    requires k in ledger
    ensures Supply(ledger[k := v], mint) == Supply(ledger, mint) - Share(ledger[k], mint) + Share(v, mint)
  {
    SupplySplit(ledger, k, mint);
    SupplySplit(ledger[k := v], k, mint);
    assert ledger[k := v] - {k} == ledger - {k};
  }

  lemma SupplyInsert(ledger: Ledger, k: Address, v: TokenAccount, mint: Address)
    requires k !in ledger
    ensures Supply(ledger[k := v], mint) == Supply(ledger, mint) + Share(v, mint)
  {
    SupplySplit(ledger[k := v], k, mint);
    assert ledger[k := v] - {k} == ledger;
  }

  /** A transfer moves tokens between two accounts of one mint, so the total
      of every mint is the same afterwards. */
  lemma TransferConservesSupply(ledger: Ledger, from: Address, to: Address, authority: Address, amount: u64, mint: Address)
    requires Transfer(ledger, from, to, authority, amount).Ok?
    ensures Supply(Transfer(ledger, from, to, authority, amount).value, mint) == Supply(ledger, mint)
  {
    if from != to {
      var source := ledger[from].(amount := ledger[from].amount - amount);
      var destination := ledger[to].(amount := ledger[to].amount + amount);
      var moved := ledger[from := source];
      SupplyUpdate(ledger, from, source, mint);
      SupplyUpdate(moved, to, destination, mint);
    }
  }
}
