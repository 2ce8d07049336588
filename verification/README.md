# solana-swap-2025: a Dafny model of the fixed-price market program

The Anchor program `solana_swap_2025` runs a market between two SPL token mints
at a fixed integer price. A market record (`MarketAccount`) lives at the program
derived address of the ordered mint pair. Two vault token accounts live at
addresses derived from the market, and the market owns both. The program has
four instructions:

- `initialize_market` creates the record and the two empty vaults.
- `set_price` overwrites the price.
- `add_liquidity` moves tokens from the caller's two token accounts into the vaults.
- `swap` handles A to B only. The user pays `amount` of A into vault A, and the
  market signs a payment of `amount * price` of B from vault B to the user. The
  B to A branch is empty.

The model is purely functional:

- `Accounts`: u64/u8 widths, addresses and token accounts. Program derived
  addresses are injective constructors (`MarketPda`, `VaultAPda`, `VaultBPda`).
  A `Signer` is a keypair address (`Key`), because a derived address cannot sign
  a transaction.
- `Token`: the SPL token program's `transfer`, which is the only token-program
  service the handlers call, and `Supply`, the total balance of one mint across the ledger.
- `Market`: the record, the state (existing mints, records by address, token
  ledger), the invariant `Valid`, and the four instructions. Each instruction
  returns `Ok(state)` or `Err(error)`. Anchor's account loading runs first:
  every `Account<...>` must exist, and every `init` address must be free.
- `MarketProperties`: lemmas about one instruction, or comparing two calls.
- `Program`: instructions as values. `Run` executes a sequence of them and
  keeps the state unchanged on any failed one. This is the runtime's rollback
  behind each `?` in the program.
- `Scenario`: the run from the repository's test suite, with the expected values.

The model adds no check the code lacks:

- `set_price` has no authority check and no zero-price check.
- `initialize_market` does not check the price and does not check the bump.
- No instruction checks a derivation beyond Anchor's seed constraints.
- The B to A swap does nothing. There is no division-based pricing.
- The record does not store the vault addresses. They are re-derived from the
  market address.
- The program keeps no record of who deposited liquidity.

These absences are stated as lemmas (`SetPriceIgnoresSigner`,
`InitializeIgnoresPriceAndBump`, the `!aToB` clause of `Swap`).

Assumptions about the environment:

- The canonical bump of a mint pair's market address comes from a hash search,
  so the model takes it as a parameter (`BumpOracle`).
- The multiplication `amount * market.price` at
  programs/solana-swap-2025/src/lib.rs:77 is taken to abort on overflow
  (`ArithmeticOverflow`). This is the behaviour with overflow checks on.
- The SPL token program is not part of this model. `Transfer` follows the order
  of its checks:
  1. the source holds the amount (`InsufficientFunds`);
  2. both accounts hold the same mint (`MintMismatch`);
  3. the authority owns the source (`OwnerMismatch`);
  4. a transfer to the same account changes nothing;
  5. the destination does not pass u64 (`Overflow`).
- The owner check in step 3 is what keeps a user from naming a vault as their own
  token account.
- A withdrawal from vault B needs the market's signature. The CPI derives that
  signature from the stored bump (`SignAsMarket`), so it succeeds only when the
  stored bump is the canonical one.

## Model

| member | source | states |
|---|---|---|
| Token.Transfer | programs/solana-swap-2025/src/lib.rs:39-45 | The token transfer each CPI performs succeeds exactly under `CanTransfer` (source funded, same mint, authority owns source, no destination overflow). On success the source loses and the destination gains exactly the amount, a self-transfer changes nothing, and no other account or any mint/owner changes. Missing accounts and short sources give their own errors. |
| Token.TransferConservesSupply | programs/solana-swap-2025/src/lib.rs:85-86 | A successful transfer leaves the total of every mint unchanged. |
| Market.InitializeMarket | programs/solana-swap-2025/src/lib.rs:10-26 | Succeeds iff both mints exist and the market and both vault addresses are free. Otherwise it fails with `AccountNotInitialized` or `AccountAlreadyInUse`. On success the record stores the signer as authority and the mints, price, decimals and bump exactly as supplied. Both vaults exist with balance 0, mints A and B, and owner the market address. Every other record and account is unchanged. |
| Market.SetPrice | programs/solana-swap-2025/src/lib.rs:28-32 | Succeeds iff both mints and the market exist, for any price and any signer. It changes only the market's `price`. All other record fields, all other records, the mints and every balance are unchanged. |
| Market.AddLiquidity | programs/solana-swap-2025/src/lib.rs:34-57 | Fails with `AccountNotInitialized` when a loaded account is missing. On success the records and mints are unchanged, every account keeps its mint and owner, and only the two source accounts and two vaults can change balance. |
| Market.SwapAtoB | programs/solana-swap-2025/src/lib.rs:61-86 | On success the A to B branch keeps every account's mint and owner, and changes no account other than the user's two and the two vaults. |
| Market.Swap | programs/solana-swap-2025/src/lib.rs:59-91 | Fails with `AccountNotInitialized` when a loaded account is missing. With `aToB` false it succeeds and returns the state unchanged. On success it never writes a market record or a mint, keeps every account's mint and owner, and changes only the user's two accounts and the two vaults. |
| MarketProperties.DerivationInjective | programs/solana-swap-2025/src/lib.rs:115-138 | Market addresses are distinct per ordered mint pair. Vault A addresses are distinct per market. A vault A address is never a vault B address or a market address. |
| MarketProperties.InitializeTwiceFails | programs/solana-swap-2025/src/lib.rs:111-117 | After a successful `initialize_market`, a second one for the same pair fails with `AccountAlreadyInUse` whatever its arguments, so the record is never overwritten. |
| MarketProperties.InitializeIgnoresPriceAndBump | programs/solana-swap-2025/src/lib.rs:21-24 | Whenever `initialize_market` succeeds, it also succeeds with price 0 and with any other bump: neither is validated. |
| MarketProperties.InitializeKeepsValid | programs/solana-swap-2025/src/lib.rs:123-141 | `initialize_market` keeps the invariant: every record sits at its pair's address, its vaults exist with the right mints and the market as owner, and no token account sits at a market address. |
| MarketProperties.InitializeConservesSupply | programs/solana-swap-2025/src/lib.rs:123-141 | Creating the empty vaults leaves every mint's total unchanged. |
| MarketProperties.SetPriceIgnoresSigner | programs/solana-swap-2025/src/lib.rs:95-107 | `set_price` gives the same result whichever signer calls it: there is no `has_one` or authority constraint. |
| MarketProperties.SetPriceRestores | programs/solana-swap-2025/src/lib.rs:28-32 | Setting the previous price back after `set_price` restores the original state exactly. |
| MarketProperties.SetPriceLastWins | programs/solana-swap-2025/src/lib.rs:28-32 | Two `set_price` calls in a row equal the second one alone. |
| MarketProperties.SetPriceKeepsValid | programs/solana-swap-2025/src/lib.rs:28-32 | `set_price` keeps the state invariant. |
| MarketProperties.AddLiquiditySucceedsIff | programs/solana-swap-2025/src/lib.rs:38-55 | In a valid state, with the caller's two source accounts distinct (either may name a vault), `add_liquidity` succeeds iff the accounts load and each side with a non-zero amount can transfer. A zero side is skipped and cannot fail. |
| MarketProperties.AddLiquidityMovesAmounts | programs/solana-swap-2025/src/lib.rs:34-57 | On success vault A gains exactly `amount_a` and source A loses it, and the same holds for B. A zero side leaves both of its accounts as they were. |
| MarketProperties.AddLiquidityShortSourceFails | programs/solana-swap-2025/src/lib.rs:45-54 | If either source holds less than its amount, the whole instruction fails. The other side's transfer is not kept. |
| MarketProperties.AddLiquidityConservesSupply | programs/solana-swap-2025/src/lib.rs:34-57 | A successful `add_liquidity` leaves every mint's total unchanged. |
| MarketProperties.SameShapeKeepsValid | programs/solana-swap-2025/src/lib.rs:197-207 | A step that changes only balances keeps the invariant that the seed constraints rely on. |
| MarketProperties.VaultOwnerIsNoSigner | programs/solana-swap-2025/src/lib.rs:125-137 | In a valid state no vault is owned by a keypair: `token::authority = market`. |
| MarketProperties.SignedTransferNeverDrainsVaults | programs/solana-swap-2025/src/lib.rs:39-45 | A transfer whose authority is a transaction signer never lowers a vault balance. |
| MarketProperties.AddLiquidityNeverDrainsVaults | programs/solana-swap-2025/src/lib.rs:39-54 | `add_liquidity` never lowers the balance of any vault. |
| MarketProperties.SwapAtoBLedgerIff | programs/solana-swap-2025/src/lib.rs:62-86 | On the ledger, for user accounts distinct from each other and from the vaults: the A to B branch succeeds iff the payment into vault A can be made, `amount * price` fits in u64, the stored bump is canonical, and the withdrawal from vault B can be made. Both transfers are judged on the balances from before the swap. On success the four balances move by exactly `amount` and `amount * price`. |
| MarketProperties.SwapAtoBSucceedsIff | programs/solana-swap-2025/src/lib.rs:61-86 | In a valid state, with the user's two accounts distinct and the receiving account not vault A (either may otherwise name a vault), an A to B swap succeeds iff all of these hold: the accounts load; the user can pay `amount` into vault A; `amount * price` fits in u64; the stored bump is canonical; vault B can pay `amount * price` to the user. |
| MarketProperties.SwapAtoBMovesAmounts | programs/solana-swap-2025/src/lib.rs:61-86 | On success: user A loses `amount`, vault A gains `amount`, vault B loses `amount * price`, user B gains `amount * price`. |
| MarketProperties.SwapDrainsOnlyVaultB | programs/solana-swap-2025/src/lib.rs:61-86 | In a valid state a successful swap, in either direction and with any accounts, lowers no vault balance except its own market's vault B. |
| MarketProperties.SwapAtoBFails | programs/solana-swap-2025/src/lib.rs:68-85 | For any loaded accounts, aliased or not, an A to B swap fails, with nothing moved, if the user's A balance is below `amount`, if vault B holds less than `amount * price`, or if `amount * price` overflows u64. |
| MarketProperties.NonCanonicalBumpBlocksSwap | programs/solana-swap-2025/src/lib.rs:79-86 | If the stored bump is not the canonical one, every A to B swap on that market fails. |
| MarketProperties.SwapZeroChangesNothing | programs/solana-swap-2025/src/lib.rs:59-91 | A swap of amount 0 that succeeds returns the state unchanged. |
| MarketProperties.SwapConservesSupply | programs/solana-swap-2025/src/lib.rs:59-91 | A successful swap, in either direction, leaves every mint's total unchanged. |
| Program.ExecuteKeepsValid | programs/solana-swap-2025/src/lib.rs:10-91 | Every successful instruction keeps the state invariant. |
| Program.ExecuteConservesSupply | programs/solana-swap-2025/src/lib.rs:10-91 | Every successful instruction leaves every mint's total unchanged. |
| Program.OnlySwapDrainsVaults | programs/solana-swap-2025/src/lib.rs:10-57 | No instruction other than `swap` lowers a vault balance. |
| Program.ExecuteKeepsConfig | programs/solana-swap-2025/src/lib.rs:10-91 | After any instruction, whether it succeeds or is rolled back, every existing record still exists, with its authority, mints, decimals and bump unchanged. |
| Program.RunKeepsValid | programs/solana-swap-2025/src/lib.rs:10-91 | Any sequence of the program's instructions from a valid state ends in a valid state. |
| Program.RunConservesSupply | programs/solana-swap-2025/src/lib.rs:10-91 | Any sequence of the program's instructions leaves the total of every mint unchanged. Minting, burning and direct token transfers are outside `Run`. |
| Program.RunKeepsConfig | programs/solana-swap-2025/src/lib.rs:17-32 | Once created, a record stays, and only its price ever changes. |
| Program.NonCanonicalBumpBlocksSwapsForever | programs/solana-swap-2025/src/lib.rs:24 | A market initialized with a non-canonical bump can never complete an A to B swap, whatever transactions follow. |
| Scenario.InitializeStep | tests/solana-swap-2025.ts:162-188 | The tests' `initializeMarket(1000000, 6, 6, bump)` succeeds, stores price 1000000, and creates two empty vaults. |
| Scenario.SetPriceStep | tests/solana-swap-2025.ts:190-207 | The tests' `setPrice(2)` succeeds and the price becomes 2. |
| Scenario.AddLiquidityStep | tests/solana-swap-2025.ts:208-247 | The tests' `addLiquidity(100*10^6, 100*10^6)` puts 100*10^6 in each vault and takes the same from each of the initializer's accounts. |
| Scenario.SwapStep | tests/solana-swap-2025.ts:248-277 | At price 2, the tests' `swap(100, true)` takes 100 A from the user and gives the user 200 B. Vault A rises by 100 and vault B falls by 200. |
| Scenario.TestSuiteRun | tests/solana-swap-2025.ts:162-277 | The four test transactions run in sequence, with the canonical bump, and end in exactly the state of `SwapStep`. |

## Left out

- Account storage: rent, lamports, account space (`8 + INIT_SPACE`), the Anchor discriminator and the Borsh layout. None of them affects the market's logic.
- Real address derivation: SHA-256 and the off-curve bump search are replaced by injective constructors. The canonical bump is a parameter.
- Anchor's program-ownership and type checks on loaded accounts: the ledger holds only token accounts and the mints are a set.
- The `system_program`, `token_program` and `rent` accounts are not modelled. `Program<'info, Token>` fixes the token program to SPL's, whose `transfer` is `Token.Transfer`. The system program only serves the `init` constraints. `rent` is never read.
- SPL token internals beyond `transfer`: delegates, frozen accounts, mint supply and `TransferChecked`, which is imported but never used. The decimals fields are stored metadata only.
- MarketProperties.AddLiquidityMovesAmounts: states exact balance changes only when the caller's two accounts differ from each other and from the vaults. With aliased accounts, `Transfer`'s own contract (the self-transfer rule) describes the result.
- MarketProperties.SwapAtoBSucceedsIff: excludes a receiving account that is vault A. The withdrawal into vault A would then be judged on vault A's balance after the payment, so the iff on the balances before the swap does not hold.
- MarketProperties.SwapAtoBMovesAmounts: same restriction as `AddLiquidityMovesAmounts`, for the user's two accounts.
- Market.CheckedMul: models `amount * market.price` as an abort on overflow. Whether it panics or wraps depends on the build's overflow-checks setting, which is not part of this model.
- The seeds constraints' failure path: instructions name the two mints, and the market and vault addresses are derived from them. A client passing a market or vault that is not derived from the mints (rejected by the `seeds` constraints at programs/solana-swap-2025/src/lib.rs:98-100, 156-172 and 191-207) cannot be expressed.
- The system program's account creation and the token program's account initialisation that the `init` constraints call (programs/solana-swap-2025/src/lib.rs:111-141) are modelled only by their effect: the new record and two empty vaults, or `AccountAlreadyInUse`.
- Concurrency and transaction scheduling: the runtime serializes transactions. `Run` applies them one at a time.
- The test harness: airdrops, RPC calls, mint creation and confirmations. The tests' floating-point `uiAmount` comparisons are replaced by exact integer balances.
