/** The market program: one `MarketAccount` per ordered mint pair, two vaults
    per market, and the four instructions `initialize_market`, `set_price`,
    `add_liquidity` and `swap` as pure transitions. Anchor's account loading
    (every `Account<...>` must exist, every `init` address must be free) is
    folded into each instruction as its first checks. */
module Market {
  import opened Errors
  import opened Accounts
  import opened Token

  datatype MarketAccount = MarketAccount(
    authority: Address,
    mintA: Address,
    mintB: Address,
    price: u64,
    decimalsA: u8,
    decimalsB: u8,
    bump: u8)

  datatype State = State(
    mints: set<Address>,                      // mint accounts that exist
    markets: map<Address, MarketAccount>,     // market records, by address
    ledger: Ledger)                           // token accounts, vaults included

  /** The market address for a mint pair: seeds "market", mintA, mintB. */
  function MarketAddress(mintA: Address, mintB: Address): Address {
    MarketPda(mintA, mintB)
  }

  /** Vault addresses of a market: seeds "vault_a" / "vault_b", market. */
  function VaultA(market: Address): Address {
    VaultAPda(market)
  }

  function VaultB(market: Address): Address {
    VaultBPda(market)
  }

  /** The canonical bump the runtime finds for the market address of a mint
      pair. It comes from a hash search, so the model takes it as given. */
  type BumpOracle = (Address, Address) -> u8

  /** Everything `initialize_market` writes except `price`. */
  predicate SameConfig(r: MarketAccount, r': MarketAccount) {
    && r'.authority == r.authority
    && r'.mintA == r.mintA
    && r'.mintB == r.mintB
    && r'.decimalsA == r.decimalsA
    && r'.decimalsB == r.decimalsB
    && r'.bump == r.bump
  }

  /** A market record sits at the address of its own mint pair, and its two
      vaults exist, hold the right mints and are owned by the market. */
  predicate MarketWellFormed(s: State, k: Address)
    requires k in s.markets
  {
    var rec := s.markets[k];
    && k == MarketAddress(rec.mintA, rec.mintB)
    && rec.mintA in s.mints && rec.mintB in s.mints
    && VaultA(k) in s.ledger && s.ledger[VaultA(k)].mint == rec.mintA && s.ledger[VaultA(k)].owner == k
    && VaultB(k) in s.ledger && s.ledger[VaultB(k)].mint == rec.mintB && s.ledger[VaultB(k)].owner == k
  }

  /** The invariant every reachable state keeps. */
  predicate Valid(s: State) {
    && (forall k :: k in s.markets ==> MarketWellFormed(s, k))
    && (forall a :: a in s.ledger && IsVaultAddress(a) ==> a.market in s.markets)
    && (forall a :: a in s.ledger ==> !a.MarketPda?)
  }

  /** None of the three accounts `initialize_market` creates exists yet. */
  predicate Fresh(s: State, market: Address) {
    market !in s.markets && VaultA(market) !in s.ledger && VaultB(market) !in s.ledger
  }

  /** The accounts `add_liquidity` and `swap` load: both mints, the market,
      its two vaults and the caller's two token accounts. */
  predicate AccountsLoaded(s: State, mintA: Address, mintB: Address, tokenA: Address, tokenB: Address) {
    var m := MarketAddress(mintA, mintB);
    && mintA in s.mints && mintB in s.mints
    && m in s.markets
    && VaultA(m) in s.ledger && VaultB(m) in s.ledger
    && tokenA in s.ledger && tokenB in s.ledger
  }

  /** `initialize_market`: creates the record from the arguments as given
      (no check on `price`, no check of `bump`) and two empty vaults owned by
      the market. Fails if any of the three accounts already exists. */
  function InitializeMarket(s: State, authority: Signer, mintA: Address, mintB: Address,
                            price: u64, decimalsA: u8, decimalsB: u8, bump: u8): (r: Result<State>)
    ensures r.Ok? <==> mintA in s.mints && mintB in s.mints && Fresh(s, MarketAddress(mintA, mintB))
    ensures mintA !in s.mints || mintB !in s.mints ==> r == Err(AccountNotInitialized)
    ensures mintA in s.mints && mintB in s.mints && !Fresh(s, MarketAddress(mintA, mintB)) ==>
              r == Err(AccountAlreadyInUse)
    ensures r.Ok? ==>
              var m := MarketAddress(mintA, mintB);
              && r.value.mints == s.mints
              && r.value.markets.Keys == s.markets.Keys + {m}
              && (forall k :: k in s.markets ==> r.value.markets[k] == s.markets[k])
              && var rec := r.value.markets[m];
              && rec.authority == authority && rec.mintA == mintA && rec.mintB == mintB
              && rec.price == price && rec.decimalsA == decimalsA && rec.decimalsB == decimalsB
              && rec.bump == bump
    ensures r.Ok? ==>
              var m := MarketAddress(mintA, mintB);
              && r.value.ledger.Keys == s.ledger.Keys + {VaultA(m), VaultB(m)}
              && (forall a :: a in s.ledger ==> r.value.ledger[a] == s.ledger[a])
              && r.value.ledger[VaultA(m)] == TokenAccount(mintA, m, 0)
              && r.value.ledger[VaultB(m)] == TokenAccount(mintB, m, 0)
  {
    var m := MarketAddress(mintA, mintB);
    if mintA !in s.mints || mintB !in s.mints then Err(AccountNotInitialized)
    else if !Fresh(s, m) then Err(AccountAlreadyInUse)
    else
      var rec := MarketAccount(authority, mintA, mintB, price, decimalsA, decimalsB, bump);
      var vaults := s.ledger[VaultA(m) := TokenAccount(mintA, m, 0)][VaultB(m) := TokenAccount(mintB, m, 0)];
      Ok(State(s.mints, s.markets[m := rec], vaults))
  }

  /** `set_price`: overwrites the price of an existing market. Any signer may
      call it and any price, zero included, is accepted. */
  function SetPrice(s: State, authority: Signer, mintA: Address, mintB: Address, price: u64): (r: Result<State>)
    ensures r.Ok? <==> mintA in s.mints && mintB in s.mints && MarketAddress(mintA, mintB) in s.markets
    ensures !r.Ok? ==> r == Err(AccountNotInitialized)
    ensures r.Ok? ==>
              var m := MarketAddress(mintA, mintB);
              && r.value.mints == s.mints
              && r.value.ledger == s.ledger
              && r.value.markets.Keys == s.markets.Keys
              && r.value.markets[m].price == price
              && SameConfig(s.markets[m], r.value.markets[m])
              && (forall k :: k in s.markets && k != m ==> r.value.markets[k] == s.markets[k])
  {
    var m := MarketAddress(mintA, mintB);
    if mintA !in s.mints || mintB !in s.mints || m !in s.markets then Err(AccountNotInitialized)
    else Ok(s.(markets := s.markets[m := s.markets[m].(price := price)]))
  }

  /** `add_liquidity`: moves `amountA` from `sourceA` into vault A, then
      `amountB` from `sourceB` into vault B, each transfer signed by
      `authority` and skipped when its amount is zero. */
  function AddLiquidity(s: State, authority: Signer, mintA: Address, mintB: Address,
                        sourceA: Address, sourceB: Address, amountA: u64, amountB: u64): (r: Result<State>)
    ensures !AccountsLoaded(s, mintA, mintB, sourceA, sourceB) ==> r == Err(AccountNotInitialized)
    ensures r.Ok? ==>
              && r.value.mints == s.mints
              && r.value.markets == s.markets
              && SameShape(s.ledger, r.value.ledger)
    ensures r.Ok? ==>
              var m := MarketAddress(mintA, mintB);
              forall a :: a in s.ledger && a !in {sourceA, sourceB, VaultA(m), VaultB(m)} ==>
                r.value.ledger[a] == s.ledger[a]
  {
    var m := MarketAddress(mintA, mintB);
    if !AccountsLoaded(s, mintA, mintB, sourceA, sourceB) then Err(AccountNotInitialized)
    else
      var afterA :- if amountA > 0 then Transfer(s.ledger, sourceA, VaultA(m), authority, amountA)
                    else Ok(s.ledger);
      var afterB :- if amountB > 0 then Transfer(afterA, sourceB, VaultB(m), authority, amountB)
                    else Ok(afterA);
      Ok(s.(ledger := afterB))
  }

  /** `amount * price` on u64, aborting the instruction on overflow. */
  function CheckedMul(x: u64, y: u64): (r: Result<u64>)
  {
    if x * y > U64_MAX then Err(ArithmeticOverflow) else Ok(x * y)
  }

  /** The signer a CPI gets from the seeds "market", mintA, mintB, [bump] of a
      stored record: the market at `market` when the stored bump is the
      canonical one and the stored mints derive `market`, otherwise none. */
  function SignAsMarket(canonicalBump: BumpOracle, market: Address, rec: MarketAccount): (r: Result<Address>)
  {
    if rec.bump == canonicalBump(rec.mintA, rec.mintB) && MarketAddress(rec.mintA, rec.mintB) == market
    then Ok(market)
    else Err(PrivilegeEscalation)
  }

  /** The A to B branch of `swap` on the ledger: the user pays `amount` of A
      into vault A, then the market signs a withdrawal of `amount * price` of
      B from vault B to the user. */
  function SwapAtoB(ledger: Ledger, canonicalBump: BumpOracle, user: Signer, m: Address, rec: MarketAccount,
                    userA: Address, userB: Address, amount: u64): (r: Result<Ledger>)
    ensures r.Ok? ==> SameShape(ledger, r.value)
    ensures r.Ok? ==> forall a :: a in ledger && a !in {userA, userB, VaultA(m), VaultB(m)} ==> r.value[a] == ledger[a]
  {
    var paid :- Transfer(ledger, userA, VaultA(m), user, amount);
    var amountB :- CheckedMul(amount, rec.price);
    var vaultAuthority :- SignAsMarket(canonicalBump, m, rec);
    Transfer(paid, VaultB(m), userB, vaultAuthority, amountB)
  }

  /** `swap`: A to B runs `SwapAtoB`; the B to A branch does nothing. The
      record is never written. */
  function Swap(s: State, canonicalBump: BumpOracle, user: Signer, mintA: Address, mintB: Address,
                userA: Address, userB: Address, amount: u64, aToB: bool): (r: Result<State>)
    ensures !AccountsLoaded(s, mintA, mintB, userA, userB) ==> r == Err(AccountNotInitialized)
    ensures AccountsLoaded(s, mintA, mintB, userA, userB) && !aToB ==> r == Ok(s)
    ensures r.Ok? ==>
              && r.value.mints == s.mints
              && r.value.markets == s.markets
              && SameShape(s.ledger, r.value.ledger)
    ensures r.Ok? ==>
              var m := MarketAddress(mintA, mintB);
              forall a :: a in s.ledger && a !in {userA, userB, VaultA(m), VaultB(m)} ==>
                r.value.ledger[a] == s.ledger[a]
  {
    var m := MarketAddress(mintA, mintB);
    if !AccountsLoaded(s, mintA, mintB, userA, userB) then Err(AccountNotInitialized)
    else if !aToB then Ok(s)
    else
      var received :- SwapAtoB(s.ledger, canonicalBump, user, m, s.markets[m], userA, userB, amount);
      Ok(s.(ledger := received))
  }
}
