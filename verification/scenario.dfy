/** The end-to-end run of the repository's test suite: initialize at price
    1000000, set the price to 2, add 100 * 10^6 of each mint, then swap 100 A
    to B. Both mints have 6 decimals; every holder starts with 10^12 units. */
module Scenario {
  import opened Errors
  import opened Accounts
  import opened Market
  import opened Program
  import Token

  const MintA: Address := Key(1)
  const MintB: Address := Key(2)
  const Initializer: Signer := Key(100)
  const User: Signer := Key(200)
  const InitializerA: Address := Key(10)
  const InitializerB: Address := Key(11)
  const UserA: Address := Key(20)
  const UserB: Address := Key(21)

  const Minted: u64 := 1_000_000 * 1_000_000
  const Deposit: u64 := 100 * 1_000_000

  function Genesis(): State {
    State(
      {MintA, MintB},
      map[],
      map[InitializerA := TokenAccount(MintA, Initializer, Minted),
          InitializerB := TokenAccount(MintB, Initializer, Minted),
          UserA := TokenAccount(MintA, User, Minted),
          UserB := TokenAccount(MintB, User, Minted)])
  }

  function Script(bump: u8): seq<Instruction> {
    [ InitializeMarketIx(Initializer, MintA, MintB, 1_000_000, 6, 6, bump),
      SetPriceIx(Initializer, MintA, MintB, 2),
      AddLiquidityIx(Initializer, MintA, MintB, InitializerA, InitializerB, Deposit, Deposit),
      SwapIx(User, MintA, MintB, UserA, UserB, 100, true) ]
  }

  const ThisMarket: Address := MarketAddress(MintA, MintB)

  /** The record as the tests' first step creates it. */
  function Record(bump: u8): MarketAccount {
    MarketAccount(Initializer, MintA, MintB, 1_000_000, 6, 6, bump)
  }

  function Initialized(bump: u8): State {
    State(Genesis().mints, map[ThisMarket := Record(bump)],
          Genesis().ledger[VaultA(ThisMarket) := TokenAccount(MintA, ThisMarket, 0)]
                          [VaultB(ThisMarket) := TokenAccount(MintB, ThisMarket, 0)])
  }

  function Repriced(bump: u8): State {
    Initialized(bump).(markets := map[ThisMarket := Record(bump).(price := 2)])
  }

  /** The ledger after the first transfer of `add_liquidity`. */
  function DepositedA(bump: u8): Ledger {
    Repriced(bump).ledger[InitializerA := TokenAccount(MintA, Initializer, Minted - Deposit)]
                         [VaultA(ThisMarket) := TokenAccount(MintA, ThisMarket, Deposit)]
  }

  function Funded(bump: u8): State {
    Repriced(bump).(ledger :=
      DepositedA(bump)[InitializerB := TokenAccount(MintB, Initializer, Minted - Deposit)]
                      [VaultB(ThisMarket) := TokenAccount(MintB, ThisMarket, Deposit)])
  }

  /** The ledger after the user's payment into vault A. */
  function Paid(bump: u8): Ledger {
    Funded(bump).ledger[UserA := TokenAccount(MintA, User, Minted - 100)]
                       [VaultA(ThisMarket) := TokenAccount(MintA, ThisMarket, Deposit + 100)]
  }

  function Swapped(bump: u8): State {
    Funded(bump).(ledger :=
      Paid(bump)[VaultB(ThisMarket) := TokenAccount(MintB, ThisMarket, Deposit - 200)]
                [UserB := TokenAccount(MintB, User, Minted + 200)])
  }

  /** Step 1: the record holds the arguments and both vaults start empty. */
  lemma InitializeStep(bump: u8)
    ensures InitializeMarket(Genesis(), Initializer, MintA, MintB, 1_000_000, 6, 6, bump) == Ok(Initialized(bump))
    ensures Initialized(bump).markets[ThisMarket].price == 1_000_000
    ensures Initialized(bump).ledger[VaultA(ThisMarket)].amount == 0
    ensures Initialized(bump).ledger[VaultB(ThisMarket)].amount == 0
  {
  }

  /** Step 2: the price becomes 2. */
  lemma SetPriceStep(bump: u8)
    ensures SetPrice(Initialized(bump), Initializer, MintA, MintB, 2) == Ok(Repriced(bump))
    ensures Repriced(bump).markets[ThisMarket].price == 2
  {
    assert map[ThisMarket := Record(bump)][ThisMarket := Record(bump).(price := 2)]
        == map[ThisMarket := Record(bump).(price := 2)];
  }

  /** Step 3: 100 * 10^6 of each mint moves from the initializer to the vaults. */
  lemma DepositA(bump: u8)
    ensures Token.Transfer(Repriced(bump).ledger, InitializerA, VaultA(ThisMarket), Initializer, Deposit)
            == Ok(DepositedA(bump))
  {
  }

  lemma DepositB(bump: u8)
    ensures Token.Transfer(DepositedA(bump), InitializerB, VaultB(ThisMarket), Initializer, Deposit)
            == Ok(Funded(bump).ledger)
  {
  }

  lemma AddLiquidityStep(bump: u8)
    ensures AddLiquidity(Repriced(bump), Initializer, MintA, MintB, InitializerA, InitializerB, Deposit, Deposit)
            == Ok(Funded(bump))
    ensures Funded(bump).ledger[VaultA(ThisMarket)].amount == Deposit
    ensures Funded(bump).ledger[VaultB(ThisMarket)].amount == Deposit
    ensures Funded(bump).ledger[InitializerA].amount == Minted - Deposit
    ensures Funded(bump).ledger[InitializerB].amount == Minted - Deposit
  {
    DepositA(bump);
    DepositB(bump);
  }

  lemma PayIntoVaultA(bump: u8)
    ensures Token.Transfer(Funded(bump).ledger, UserA, VaultA(ThisMarket), User, 100) == Ok(Paid(bump))
  {
  }

  lemma PayOutOfVaultB(bump: u8)
    ensures Token.Transfer(Paid(bump), VaultB(ThisMarket), UserB, ThisMarket, 200) == Ok(Swapped(bump).ledger)
  {
  }

  lemma SwapLedgerStep(canonicalBump: BumpOracle)
    ensures var bump := canonicalBump(MintA, MintB);
            SwapAtoB(Funded(bump).ledger, canonicalBump, User, ThisMarket, Funded(bump).markets[ThisMarket],
                     UserA, UserB, 100) == Ok(Swapped(bump).ledger)
  {
    var bump := canonicalBump(MintA, MintB);
    var rec := Funded(bump).markets[ThisMarket];
    assert rec.price == 2 && rec.bump == bump;
    assert CheckedMul(100, rec.price) == Ok(200);
    assert SignAsMarket(canonicalBump, ThisMarket, rec) == Ok(ThisMarket);
    PayIntoVaultA(bump);
    PayOutOfVaultB(bump);
  }

  /** Step 4: at price 2 the user pays 100 A and receives 200 B. */
  lemma SwapStep(canonicalBump: BumpOracle)
    ensures var bump := canonicalBump(MintA, MintB);
            && Swap(Funded(bump), canonicalBump, User, MintA, MintB, UserA, UserB, 100, true) == Ok(Swapped(bump))
            && Swapped(bump).ledger[UserA].amount == Minted - 100
            && Swapped(bump).ledger[UserB].amount == Minted + 200
            && Swapped(bump).ledger[VaultA(ThisMarket)].amount == Deposit + 100
            && Swapped(bump).ledger[VaultB(ThisMarket)].amount == Deposit - 200
  {
    var bump := canonicalBump(MintA, MintB);
    assert AccountsLoaded(Funded(bump), MintA, MintB, UserA, UserB);
    SwapLedgerStep(canonicalBump);
  }

  lemma RunStep(s: State, canonicalBump: BumpOracle, ixs: seq<Instruction>, s': State)
    requires |ixs| > 0 && Execute(s, canonicalBump, ixs[0]) == Ok(s')
    ensures Run(s, canonicalBump, ixs) == Run(s', canonicalBump, ixs[1..])
  {
  }

  lemma ExecuteInitialize(canonicalBump: BumpOracle, bump: u8)
    ensures Execute(Genesis(), canonicalBump, Script(bump)[0]) == Ok(Initialized(bump))
  {
    assert Script(bump)[0] == InitializeMarketIx(Initializer, MintA, MintB, 1_000_000, 6, 6, bump);
    InitializeStep(bump);
  }

  lemma ExecuteSetPrice(canonicalBump: BumpOracle, bump: u8)
    ensures Execute(Initialized(bump), canonicalBump, Script(bump)[1]) == Ok(Repriced(bump))
  {
    assert Script(bump)[1] == SetPriceIx(Initializer, MintA, MintB, 2);
    SetPriceStep(bump);
  }

  lemma ExecuteAddLiquidity(canonicalBump: BumpOracle, bump: u8)
    ensures Execute(Repriced(bump), canonicalBump, Script(bump)[2]) == Ok(Funded(bump))
  {
    assert Script(bump)[2] == AddLiquidityIx(Initializer, MintA, MintB, InitializerA, InitializerB, Deposit, Deposit);
    AddLiquidityStep(bump);
  }

  lemma ExecuteSwap(canonicalBump: BumpOracle)
    ensures var bump := canonicalBump(MintA, MintB);
            Execute(Funded(bump), canonicalBump, Script(bump)[3]) == Ok(Swapped(bump))
  {
    var bump := canonicalBump(MintA, MintB);
    assert Script(bump)[3] == SwapIx(User, MintA, MintB, UserA, UserB, 100, true);
    SwapStep(canonicalBump);
  }

  /** The four transactions run in sequence end in the ledger the tests
      check, when the client passes the canonical bump as the tests do. */
  lemma TestSuiteRun(canonicalBump: BumpOracle)
    ensures Run(Genesis(), canonicalBump, Script(canonicalBump(MintA, MintB))) == Swapped(canonicalBump(MintA, MintB))
  {
    var bump := canonicalBump(MintA, MintB);
    var script := Script(bump);
    ExecuteInitialize(canonicalBump, bump);
    ExecuteSetPrice(canonicalBump, bump);
    ExecuteAddLiquidity(canonicalBump, bump);
    ExecuteSwap(canonicalBump);
    RunStep(Genesis(), canonicalBump, script, Initialized(bump));
    RunStep(Initialized(bump), canonicalBump, script[1..], Repriced(bump));
    RunStep(Repriced(bump), canonicalBump, script[2..], Funded(bump));
    RunStep(Funded(bump), canonicalBump, script[3..], Swapped(bump));
    assert script[1..][1..] == script[2..];
    assert script[2..][1..] == script[3..];
    assert script[3..][1..] == [];
  }
}
