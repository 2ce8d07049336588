/** Integer widths, addresses and token accounts shared by the token program
    and the market program. */
module Accounts {

  const U64_MAX: int := 0xFFFF_FFFF_FFFF_FFFF

  type u64 = x: int | 0 <= x <= U64_MAX
  type u8 = x: int | 0 <= x < 256

  /** An account address. Keypair addresses are opaque identities; program
      derived addresses are constructors over their seeds, so derivation is
      injective without any hashing. */
  datatype Address =
    | Key(id: nat)
    | MarketPda(mintA: Address, mintB: Address)   // seeds "market", mintA, mintB
    | VaultAPda(market: Address)                  // seeds "vault_a", market
    | VaultBPda(market: Address)                  // seeds "vault_b", market

  /** Only keypair addresses can sign a transaction; a program derived
      address signs only through a cross-program invocation with seeds. */
  type Signer = a: Address | a.Key? witness Key(0)

  predicate IsVaultAddress(a: Address) {
    a.VaultAPda? || a.VaultBPda?
  }

  /** The part of an SPL token account the market relies on. */
  datatype TokenAccount = TokenAccount(mint: Address, owner: Address, amount: u64)

  /** All token accounts, by address. */
  type Ledger = map<Address, TokenAccount>

  /** Two ledgers hold the same accounts with the same mint and owner each;
      only balances may differ. */
  predicate SameShape(l: Ledger, l': Ledger) {
    && l'.Keys == l.Keys
    && forall a :: a in l ==> l'[a].mint == l[a].mint && l'[a].owner == l[a].owner
  }
}
