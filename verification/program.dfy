/** Transactions against the market program: one instruction each, applied
    all or nothing, in sequence. */
module Program {
  import opened Errors
  import opened Accounts
  import opened Token
  import opened Market
  import opened MarketProperties

  datatype Instruction =
    | InitializeMarketIx(authority: Signer, mintA: Address, mintB: Address,
                         price: u64, decimalsA: u8, decimalsB: u8, bump: u8)
    | SetPriceIx(authority: Signer, mintA: Address, mintB: Address, price: u64)
    | AddLiquidityIx(authority: Signer, mintA: Address, mintB: Address,
                     sourceA: Address, sourceB: Address, amountA: u64, amountB: u64)
    | SwapIx(user: Signer, mintA: Address, mintB: Address,
             userA: Address, userB: Address, amount: u64, aToB: bool)

  function Execute(s: State, canonicalBump: BumpOracle, ix: Instruction): Result<State> {
    match ix
    case InitializeMarketIx(authority, mintA, mintB, price, decimalsA, decimalsB, bump) =>
      InitializeMarket(s, authority, mintA, mintB, price, decimalsA, decimalsB, bump)
    case SetPriceIx(authority, mintA, mintB, price) =>
      SetPrice(s, authority, mintA, mintB, price)
    case AddLiquidityIx(authority, mintA, mintB, sourceA, sourceB, amountA, amountB) =>
      AddLiquidity(s, authority, mintA, mintB, sourceA, sourceB, amountA, amountB)
    case SwapIx(user, mintA, mintB, userA, userB, amount, aToB) =>
      Swap(s, canonicalBump, user, mintA, mintB, userA, userB, amount, aToB)
  }

  /** A failed transaction is rolled back: the state stays as it was. */
  function Commit(s: State, r: Result<State>): (s': State)
  {
    if r.Ok? then r.value else s
  }

  function Run(s: State, canonicalBump: BumpOracle, ixs: seq<Instruction>): State
    decreases |ixs|
  {
    if |ixs| == 0 then s
    else Run(Commit(s, Execute(s, canonicalBump, ixs[0])), canonicalBump, ixs[1..])
  }

  lemma ExecuteKeepsValid(s: State, canonicalBump: BumpOracle, ix: Instruction)
    requires Valid(s)
    requires Execute(s, canonicalBump, ix).Ok?
    ensures Valid(Execute(s, canonicalBump, ix).value)
  {
    match ix
    case InitializeMarketIx(authority, mintA, mintB, price, decimalsA, decimalsB, bump) =>
      InitializeKeepsValid(s, authority, mintA, mintB, price, decimalsA, decimalsB, bump);
    case SetPriceIx(authority, mintA, mintB, price) =>
      SetPriceKeepsValid(s, authority, mintA, mintB, price);
    case AddLiquidityIx(_, _, _, _, _, _, _) =>
      SameShapeKeepsValid(s, Execute(s, canonicalBump, ix).value);
    case SwapIx(_, _, _, _, _, _, _) =>
      SameShapeKeepsValid(s, Execute(s, canonicalBump, ix).value);
  }

  lemma ExecuteConservesSupply(s: State, canonicalBump: BumpOracle, ix: Instruction, mint: Address)
    requires Execute(s, canonicalBump, ix).Ok?
    ensures Supply(Execute(s, canonicalBump, ix).value.ledger, mint) == Supply(s.ledger, mint)
  {
    match ix
    case InitializeMarketIx(authority, mintA, mintB, price, decimalsA, decimalsB, bump) =>
      InitializeConservesSupply(s, authority, mintA, mintB, price, decimalsA, decimalsB, bump, mint);
    case SetPriceIx(_, _, _, _) =>
    case AddLiquidityIx(authority, mintA, mintB, sourceA, sourceB, amountA, amountB) =>
      AddLiquidityConservesSupply(s, authority, mintA, mintB, sourceA, sourceB, amountA, amountB, mint);
    case SwapIx(user, mintA, mintB, userA, userB, amount, aToB) =>
      SwapConservesSupply(s, canonicalBump, user, mintA, mintB, userA, userB, amount, aToB, mint);
  }

  /** Only `swap` can lower a vault balance. */
  lemma OnlySwapDrainsVaults(s: State, canonicalBump: BumpOracle, ix: Instruction)
    requires Valid(s)
    requires !ix.SwapIx?
    requires Execute(s, canonicalBump, ix).Ok?
    ensures var l' := Execute(s, canonicalBump, ix).value.ledger;
            forall a :: a in s.ledger && IsVaultAddress(a) ==> l'[a].amount >= s.ledger[a].amount
  {
    match ix
    case InitializeMarketIx(_, _, _, _, _, _, _) =>
    case SetPriceIx(_, _, _, _) =>
    case AddLiquidityIx(authority, mintA, mintB, sourceA, sourceB, amountA, amountB) =>
      AddLiquidityNeverDrainsVaults(s, authority, mintA, mintB, sourceA, sourceB, amountA, amountB);
  }

  /** Every market record that exists keeps existing, and keeps all of its
      fields except `price`. */
  predicate ConfigKept(s: State, s': State) {
    forall k :: k in s.markets ==> k in s'.markets && SameConfig(s.markets[k], s'.markets[k])
  }

  lemma ExecuteKeepsConfig(s: State, canonicalBump: BumpOracle, ix: Instruction)
    ensures ConfigKept(s, Commit(s, Execute(s, canonicalBump, ix)))
  {
  }

  /** Any run of transactions keeps the state invariant. */
  lemma {:induction false} RunKeepsValid(s: State, canonicalBump: BumpOracle, ixs: seq<Instruction>)
    requires Valid(s)
    ensures Valid(Run(s, canonicalBump, ixs))
    decreases |ixs|
  {
    if |ixs| > 0 {
      var r := Execute(s, canonicalBump, ixs[0]);
      if r.Ok? {
        ExecuteKeepsValid(s, canonicalBump, ixs[0]);
      }
      RunKeepsValid(Commit(s, r), canonicalBump, ixs[1..]);
    }
  }

  /** Any run of transactions leaves the total of every mint unchanged. */
  lemma {:induction false} RunConservesSupply(s: State, canonicalBump: BumpOracle, ixs: seq<Instruction>, mint: Address)
    ensures Supply(Run(s, canonicalBump, ixs).ledger, mint) == Supply(s.ledger, mint)
    decreases |ixs|
  {
    if |ixs| > 0 {
      var r := Execute(s, canonicalBump, ixs[0]);
      if r.Ok? {
        ExecuteConservesSupply(s, canonicalBump, ixs[0], mint);
      }
      RunConservesSupply(Commit(s, r), canonicalBump, ixs[1..], mint);
    }
  }

  /** Once created, a market record stays, and only its price ever changes. */
  lemma {:induction false} RunKeepsConfig(s: State, canonicalBump: BumpOracle, ixs: seq<Instruction>)
    ensures ConfigKept(s, Run(s, canonicalBump, ixs))
    decreases |ixs|
  {
    if |ixs| > 0 {
      var s1 := Commit(s, Execute(s, canonicalBump, ixs[0]));
      ExecuteKeepsConfig(s, canonicalBump, ixs[0]);
      RunKeepsConfig(s1, canonicalBump, ixs[1..]);
    }
  }

  /** `initialize_market` stores the caller's bump unchecked. A market created
      with a bump other than the canonical one can never complete an A to B
      swap, whatever transactions follow. */
  lemma NonCanonicalBumpBlocksSwapsForever(s: State, canonicalBump: BumpOracle, authority: Signer,
                                           mintA: Address, mintB: Address, price: u64,
                                           decimalsA: u8, decimalsB: u8, bump: u8,
                                           later: seq<Instruction>, user: Signer,
                                           userA: Address, userB: Address, amount: u64)
    requires Valid(s)
    requires bump != canonicalBump(mintA, mintB)
    requires InitializeMarket(s, authority, mintA, mintB, price, decimalsA, decimalsB, bump).Ok?
    ensures var s1 := InitializeMarket(s, authority, mintA, mintB, price, decimalsA, decimalsB, bump).value;
            Swap(Run(s1, canonicalBump, later), canonicalBump, user, mintA, mintB, userA, userB, amount, true).Err?
  {
    var s1 := InitializeMarket(s, authority, mintA, mintB, price, decimalsA, decimalsB, bump).value;
    InitializeKeepsValid(s, authority, mintA, mintB, price, decimalsA, decimalsB, bump);
    RunKeepsValid(s1, canonicalBump, later);
    RunKeepsConfig(s1, canonicalBump, later);
    NonCanonicalBumpBlocksSwap(Run(s1, canonicalBump, later), canonicalBump, user, mintA, mintB, userA, userB, amount);
  }
}
