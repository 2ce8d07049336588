/** Properties of the market instructions that relate several calls, or that
    need the state invariant `Valid`. */
module MarketProperties {
  import opened Errors
  import opened Accounts
  import opened Token
  import opened Market

  /** Each mint pair has its own market address, and a market's two vaults
      are distinct from each other and from any market address. */
  lemma DerivationInjective(a: Address, b: Address, c: Address, d: Address)
    ensures MarketAddress(a, b) == MarketAddress(c, d) <==> a == c && b == d
    ensures VaultA(MarketAddress(a, b)) == VaultA(MarketAddress(c, d)) <==> a == c && b == d
    ensures VaultA(MarketAddress(a, b)) != VaultB(MarketAddress(c, d))
    ensures VaultA(MarketAddress(a, b)) != MarketAddress(c, d)
    ensures VaultB(MarketAddress(a, b)) != MarketAddress(c, d)
  {
  }

  // ----- initialize_market -----

  /** A second `initialize_market` for the same pair fails, whatever its
      arguments, and so never overwrites the first record. */
  lemma InitializeTwiceFails(s: State, authority: Signer, mintA: Address, mintB: Address,
                             price: u64, decimalsA: u8, decimalsB: u8, bump: u8,
                             authority': Signer, price': u64, decimalsA': u8, decimalsB': u8, bump': u8)
    requires InitializeMarket(s, authority, mintA, mintB, price, decimalsA, decimalsB, bump).Ok?
    ensures var s1 := InitializeMarket(s, authority, mintA, mintB, price, decimalsA, decimalsB, bump).value;
            InitializeMarket(s1, authority', mintA, mintB, price', decimalsA', decimalsB', bump')
              == Err(AccountAlreadyInUse)
  {
  }

  /** `initialize_market` accepts a zero price and any bump: success depends
      only on the mints existing and the three addresses being free. */
  lemma InitializeIgnoresPriceAndBump(s: State, authority: Signer, mintA: Address, mintB: Address,
                                      price: u64, decimalsA: u8, decimalsB: u8, bump: u8, bump': u8)
    requires InitializeMarket(s, authority, mintA, mintB, price, decimalsA, decimalsB, bump).Ok?
    ensures InitializeMarket(s, authority, mintA, mintB, 0, decimalsA, decimalsB, bump').Ok?
  {
  }

  lemma InitializeKeepsValid(s: State, authority: Signer, mintA: Address, mintB: Address,
                             price: u64, decimalsA: u8, decimalsB: u8, bump: u8)
    requires Valid(s)
    requires InitializeMarket(s, authority, mintA, mintB, price, decimalsA, decimalsB, bump).Ok?
    ensures Valid(InitializeMarket(s, authority, mintA, mintB, price, decimalsA, decimalsB, bump).value)
  {
    var s1 := InitializeMarket(s, authority, mintA, mintB, price, decimalsA, decimalsB, bump).value;
    var m := MarketAddress(mintA, mintB);
    forall k | k in s1.markets
      ensures MarketWellFormed(s1, k)
    {
      if k != m {
        assert MarketWellFormed(s, k);
      }
    }
  }

  /** The new vaults are empty, so no mint's supply changes. */
  lemma InitializeConservesSupply(s: State, authority: Signer, mintA: Address, mintB: Address,
                                  price: u64, decimalsA: u8, decimalsB: u8, bump: u8, mint: Address)
    requires InitializeMarket(s, authority, mintA, mintB, price, decimalsA, decimalsB, bump).Ok?
    ensures Supply(InitializeMarket(s, authority, mintA, mintB, price, decimalsA, decimalsB, bump).value.ledger, mint)
            == Supply(s.ledger, mint)
  {
    var m := MarketAddress(mintA, mintB);
    var withA := s.ledger[VaultA(m) := TokenAccount(mintA, m, 0)];
    SupplyInsert(s.ledger, VaultA(m), TokenAccount(mintA, m, 0), mint);
    SupplyInsert(withA, VaultB(m), TokenAccount(mintB, m, 0), mint);
  }

  // ----- set_price -----

  /** `set_price` has no authority check: who signs makes no difference. */
  lemma SetPriceIgnoresSigner(s: State, signer: Signer, other: Signer, mintA: Address, mintB: Address, price: u64)
    ensures SetPrice(s, signer, mintA, mintB, price) == SetPrice(s, other, mintA, mintB, price)
  {
  }

  /** Setting the old price back restores the state exactly. */
  lemma SetPriceRestores(s: State, signer: Signer, mintA: Address, mintB: Address, price: u64)
    requires SetPrice(s, signer, mintA, mintB, price).Ok?
    ensures var s1 := SetPrice(s, signer, mintA, mintB, price).value;
            SetPrice(s1, signer, mintA, mintB, s.markets[MarketAddress(mintA, mintB)].price) == Ok(s)
  {
    var m := MarketAddress(mintA, mintB);
    var s1 := SetPrice(s, signer, mintA, mintB, price).value;
    assert s1.markets[m := s1.markets[m].(price := s.markets[m].price)] == s.markets;
  }

  /** Only the last of two `set_price` calls matters. */
  lemma SetPriceLastWins(s: State, signer: Signer, signer': Signer, mintA: Address, mintB: Address, p: u64, q: u64)
    requires SetPrice(s, signer, mintA, mintB, p).Ok?
    ensures SetPrice(SetPrice(s, signer, mintA, mintB, p).value, signer', mintA, mintB, q)
            == SetPrice(s, signer', mintA, mintB, q)
  {
    var m := MarketAddress(mintA, mintB);
    assert s.markets[m := s.markets[m].(price := p)][m := s.markets[m].(price := q)]
        == s.markets[m := s.markets[m].(price := q)];
  }

  lemma SetPriceKeepsValid(s: State, signer: Signer, mintA: Address, mintB: Address, price: u64)
    requires Valid(s)
    requires SetPrice(s, signer, mintA, mintB, price).Ok?
    ensures Valid(SetPrice(s, signer, mintA, mintB, price).value)
  {
  }

  // ----- add_liquidity -----

  /** The caller's accounts are not the market's vaults and not each other. */
  predicate DistinctFromVaults(mintA: Address, mintB: Address, tokenA: Address, tokenB: Address) {
    var m := MarketAddress(mintA, mintB);
    && tokenA != tokenB
    && tokenA !in {VaultA(m), VaultB(m)}
    && tokenB !in {VaultA(m), VaultB(m)}
  }

  /** Both transfers of `add_liquidity` succeed or the instruction fails; a
      side with amount zero is skipped and so cannot fail. A source that
      names a vault fails the owner check, since no keypair owns a vault. */
  lemma AddLiquiditySucceedsIff(s: State, authority: Signer, mintA: Address, mintB: Address,
                                sourceA: Address, sourceB: Address, amountA: u64, amountB: u64)
    requires Valid(s)
    requires sourceA != sourceB
    ensures var m := MarketAddress(mintA, mintB);
            AddLiquidity(s, authority, mintA, mintB, sourceA, sourceB, amountA, amountB).Ok? <==>
              && AccountsLoaded(s, mintA, mintB, sourceA, sourceB)
              && (amountA > 0 ==> CanTransfer(s.ledger, sourceA, VaultA(m), authority, amountA))
              && (amountB > 0 ==> CanTransfer(s.ledger, sourceB, VaultB(m), authority, amountB))
  {
    var m := MarketAddress(mintA, mintB);
    if AccountsLoaded(s, mintA, mintB, sourceA, sourceB) && amountA > 0 {
      assert MarketWellFormed(s, m);
      var t := Transfer(s.ledger, sourceA, VaultA(m), authority, amountA);
      if t.Ok? {
        assert t.value[sourceB] == s.ledger[sourceB] || sourceB == VaultA(m);
        assert t.value[VaultB(m)] == s.ledger[VaultB(m)];
      }
    }
  }

  /** On success vault A gains exactly `amountA`, the source of A loses it,
      and likewise for B; a zero side leaves both its accounts as they were. */
  lemma AddLiquidityMovesAmounts(s: State, authority: Signer, mintA: Address, mintB: Address,
                                 sourceA: Address, sourceB: Address, amountA: u64, amountB: u64)
    requires DistinctFromVaults(mintA, mintB, sourceA, sourceB)
    requires AddLiquidity(s, authority, mintA, mintB, sourceA, sourceB, amountA, amountB).Ok?
    ensures var m := MarketAddress(mintA, mintB);
            var l := s.ledger;
            var l' := AddLiquidity(s, authority, mintA, mintB, sourceA, sourceB, amountA, amountB).value.ledger;
            && l'[VaultA(m)].amount == l[VaultA(m)].amount + amountA
            && l'[sourceA].amount == l[sourceA].amount - amountA
            && l'[VaultB(m)].amount == l[VaultB(m)].amount + amountB
            && l'[sourceB].amount == l[sourceB].amount - amountB
  {
    var m := MarketAddress(mintA, mintB);
    var afterA := if amountA > 0 then Transfer(s.ledger, sourceA, VaultA(m), authority, amountA).value else s.ledger;
    assert afterA[sourceB] == s.ledger[sourceB] && afterA[VaultB(m)] == s.ledger[VaultB(m)];
  }

  /** A source short of its non-zero amount makes the whole instruction fail,
      even when the other side's transfer alone would have gone through. */
  lemma AddLiquidityShortSourceFails(s: State, authority: Signer, mintA: Address, mintB: Address,
                                     sourceA: Address, sourceB: Address, amountA: u64, amountB: u64)
    requires Valid(s)
    requires AccountsLoaded(s, mintA, mintB, sourceA, sourceB)
    requires s.ledger[sourceA].amount < amountA || s.ledger[sourceB].amount < amountB
    ensures AddLiquidity(s, authority, mintA, mintB, sourceA, sourceB, amountA, amountB).Err?
  {
    assert MarketWellFormed(s, MarketAddress(mintA, mintB));
  }

  lemma AddLiquidityConservesSupply(s: State, authority: Signer, mintA: Address, mintB: Address,
                                    sourceA: Address, sourceB: Address, amountA: u64, amountB: u64, mint: Address)
    requires AddLiquidity(s, authority, mintA, mintB, sourceA, sourceB, amountA, amountB).Ok?
    ensures Supply(AddLiquidity(s, authority, mintA, mintB, sourceA, sourceB, amountA, amountB).value.ledger, mint)
            == Supply(s.ledger, mint)
  {
    var m := MarketAddress(mintA, mintB);
    var afterA := s.ledger;
    if amountA > 0 {
      TransferConservesSupply(s.ledger, sourceA, VaultA(m), authority, amountA, mint);
      afterA := Transfer(s.ledger, sourceA, VaultA(m), authority, amountA).value;
    }
    if amountB > 0 {
      TransferConservesSupply(afterA, sourceB, VaultB(m), authority, amountB, mint);
    }
  }

  /** Same accounts, mints, owners and records: the invariant carries over. */
  lemma SameShapeKeepsValid(s: State, s': State)
    requires Valid(s)
    requires s'.mints == s.mints && s'.markets == s.markets && SameShape(s.ledger, s'.ledger)
    ensures Valid(s')
  {
    forall k | k in s'.markets
      ensures MarketWellFormed(s', k)
    {
      assert MarketWellFormed(s, k);
    }
  }

  /** A vault is owned by its market, which is not a keypair address. */
  lemma VaultOwnerIsNoSigner(s: State, a: Address)
    requires Valid(s)
    requires a in s.ledger && IsVaultAddress(a)
    ensures !s.ledger[a].owner.Key?
  {
  }

  /** A transfer signed by a keypair never takes tokens out of a vault. */
  lemma SignedTransferNeverDrainsVaults(s: State, from: Address, to: Address, authority: Signer, amount: u64)
    requires Valid(s)
    requires Transfer(s.ledger, from, to, authority, amount).Ok?
    ensures var l' := Transfer(s.ledger, from, to, authority, amount).value;
            forall a :: a in s.ledger && IsVaultAddress(a) ==> l'[a].amount >= s.ledger[a].amount
  {
    forall a | a in s.ledger && IsVaultAddress(a)
      ensures a != from
    {
      VaultOwnerIsNoSigner(s, a);
    }
  }

  /** `add_liquidity` never lowers a vault balance: its transfers are signed
      by a keypair, and no keypair owns a vault. */
  lemma AddLiquidityNeverDrainsVaults(s: State, authority: Signer, mintA: Address, mintB: Address,
                                      sourceA: Address, sourceB: Address, amountA: u64, amountB: u64)
    requires Valid(s)
    requires AddLiquidity(s, authority, mintA, mintB, sourceA, sourceB, amountA, amountB).Ok?
    ensures var l' := AddLiquidity(s, authority, mintA, mintB, sourceA, sourceB, amountA, amountB).value.ledger;
            forall a :: a in s.ledger && IsVaultAddress(a) ==> l'[a].amount >= s.ledger[a].amount
  {
    var m := MarketAddress(mintA, mintB);
    var afterA := s.ledger;
    if amountA > 0 {
      SignedTransferNeverDrainsVaults(s, sourceA, VaultA(m), authority, amountA);
      afterA := Transfer(s.ledger, sourceA, VaultA(m), authority, amountA).value;
    }
    var s1 := s.(ledger := afterA);
    SameShapeKeepsValid(s, s1);
    if amountB > 0 {
      SignedTransferNeverDrainsVaults(s1, sourceB, VaultB(m), authority, amountB);
    }
  }

  // ----- swap -----

  /** The A to B branch on the ledger: both transfers are judged against the
      ledger before the swap, since the first one touches neither account of
      the second. */
  lemma SwapAtoBLedgerIff(ledger: Ledger, canonicalBump: BumpOracle, user: Signer, m: Address, rec: MarketAccount,
                          userA: Address, userB: Address, amount: u64)
    requires userA != userB
    requires userA !in {VaultA(m), VaultB(m)} && userB !in {VaultA(m), VaultB(m)}
    requires m == MarketAddress(rec.mintA, rec.mintB)
    ensures SwapAtoB(ledger, canonicalBump, user, m, rec, userA, userB, amount).Ok? <==>
              && CanTransfer(ledger, userA, VaultA(m), user, amount)
              && CheckedMul(amount, rec.price).Ok?
              && rec.bump == canonicalBump(rec.mintA, rec.mintB)
              && CanTransfer(ledger, VaultB(m), userB, m, CheckedMul(amount, rec.price).value)
    ensures SwapAtoB(ledger, canonicalBump, user, m, rec, userA, userB, amount).Ok? ==>
              var l' := SwapAtoB(ledger, canonicalBump, user, m, rec, userA, userB, amount).value;
              && l'[userA].amount == ledger[userA].amount - amount
              && l'[VaultA(m)].amount == ledger[VaultA(m)].amount + amount
              && l'[VaultB(m)].amount == ledger[VaultB(m)].amount - amount * rec.price
              && l'[userB].amount == ledger[userB].amount + amount * rec.price
  {
    var t := Transfer(ledger, userA, VaultA(m), user, amount);
    if t.Ok? && userB in ledger && VaultB(m) in ledger {
      assert t.value[userB] == ledger[userB];
      assert t.value[VaultB(m)] == ledger[VaultB(m)];
    }
  }

  /** An A to B swap succeeds exactly when the user can pay `amount` into
      vault A, `amount * price` fits in u64 (`CheckedMul` succeeds), the stored bump is canonical,
      and vault B can pay `amount * price` to the user. */
  lemma SwapAtoBSucceedsIff(s: State, canonicalBump: BumpOracle, user: Signer, mintA: Address, mintB: Address,
                            userA: Address, userB: Address, amount: u64)
    requires Valid(s)
    requires userA != userB && userB != VaultA(MarketAddress(mintA, mintB))
    ensures var m := MarketAddress(mintA, mintB);
            Swap(s, canonicalBump, user, mintA, mintB, userA, userB, amount, true).Ok? <==>
              && AccountsLoaded(s, mintA, mintB, userA, userB)
              && CanTransfer(s.ledger, userA, VaultA(m), user, amount)
              && CheckedMul(amount, s.markets[m].price).Ok?
              && s.markets[m].bump == canonicalBump(mintA, mintB)
              && CanTransfer(s.ledger, VaultB(m), userB, m, CheckedMul(amount, s.markets[m].price).value)
  {
    var m := MarketAddress(mintA, mintB);
    if AccountsLoaded(s, mintA, mintB, userA, userB) {
      var rec := s.markets[m];
      assert MarketWellFormed(s, m);
      assert rec.mintA == mintA && rec.mintB == mintB;
      var t := Transfer(s.ledger, userA, VaultA(m), user, amount);
      if t.Ok? {
        assert userA != VaultA(m) && userA != VaultB(m);
        assert t.value[userB] == s.ledger[userB];
        assert t.value[VaultB(m)] == s.ledger[VaultB(m)];
      }
      assert Swap(s, canonicalBump, user, mintA, mintB, userA, userB, amount, true).Ok?
         <==> SwapAtoB(s.ledger, canonicalBump, user, m, rec, userA, userB, amount).Ok?;
    }
  }

  /** On success the user pays `amount` of A and receives `amount * price` of
      B; the vaults move by the opposite amounts. */
  lemma SwapAtoBMovesAmounts(s: State, canonicalBump: BumpOracle, user: Signer, mintA: Address, mintB: Address,
                             userA: Address, userB: Address, amount: u64)
    requires DistinctFromVaults(mintA, mintB, userA, userB)
    requires Swap(s, canonicalBump, user, mintA, mintB, userA, userB, amount, true).Ok?
    ensures var m := MarketAddress(mintA, mintB);
            var price := s.markets[m].price;
            var l := s.ledger;
            var l' := Swap(s, canonicalBump, user, mintA, mintB, userA, userB, amount, true).value.ledger;
            && l'[userA].amount == l[userA].amount - amount
            && l'[VaultA(m)].amount == l[VaultA(m)].amount + amount
            && l'[VaultB(m)].amount == l[VaultB(m)].amount - amount * price
            && l'[userB].amount == l[userB].amount + amount * price
  {
    var m := MarketAddress(mintA, mintB);
    var rec := s.markets[m];
    assert SignAsMarket(canonicalBump, m, rec).Ok?;
    SwapAtoBLedgerIff(s.ledger, canonicalBump, user, m, rec, userA, userB, amount);
  }

  /** A swap lowers no vault other than its own market's vault B: the
      payment into vault A is signed by a keypair, and only the market's
      signature can move tokens out of vault B. */
  lemma SwapDrainsOnlyVaultB(s: State, canonicalBump: BumpOracle, user: Signer, mintA: Address, mintB: Address,
                             userA: Address, userB: Address, amount: u64, aToB: bool)
    requires Valid(s)
    requires Swap(s, canonicalBump, user, mintA, mintB, userA, userB, amount, aToB).Ok?
    ensures var m := MarketAddress(mintA, mintB);
            var l' := Swap(s, canonicalBump, user, mintA, mintB, userA, userB, amount, aToB).value.ledger;
            forall a :: a in s.ledger && IsVaultAddress(a) && a != VaultB(m) ==> l'[a].amount >= s.ledger[a].amount
  {
    var m := MarketAddress(mintA, mintB);
    if aToB {
      SignedTransferNeverDrainsVaults(s, userA, VaultA(m), user, amount);
    }
  }

  /** An A to B swap fails, moving nothing, when the user is short of A, when
      vault B is short of the output, or when `amount * price` overflows. */
  lemma SwapAtoBFails(s: State, canonicalBump: BumpOracle, user: Signer, mintA: Address, mintB: Address,
                      userA: Address, userB: Address, amount: u64)
    requires AccountsLoaded(s, mintA, mintB, userA, userB)
    requires var m := MarketAddress(mintA, mintB);
             || s.ledger[userA].amount < amount
             || s.ledger[VaultB(m)].amount < amount * s.markets[m].price
             || amount * s.markets[m].price > U64_MAX
    ensures Swap(s, canonicalBump, user, mintA, mintB, userA, userB, amount, true).Err?
  {
    var m := MarketAddress(mintA, mintB);
    var t := Transfer(s.ledger, userA, VaultA(m), user, amount);
    if t.Ok? && userA != VaultA(m) {
      assert t.value[VaultB(m)] == s.ledger[VaultB(m)] || VaultB(m) == userA;
    }
  }

  /** Without the canonical bump stored in the record, the market cannot sign
      for vault B and every A to B swap fails. */
  lemma NonCanonicalBumpBlocksSwap(s: State, canonicalBump: BumpOracle, user: Signer, mintA: Address, mintB: Address,
                                   userA: Address, userB: Address, amount: u64)
    requires Valid(s)
    requires MarketAddress(mintA, mintB) in s.markets
    requires s.markets[MarketAddress(mintA, mintB)].bump != canonicalBump(mintA, mintB)
    ensures Swap(s, canonicalBump, user, mintA, mintB, userA, userB, amount, true).Err?
  {
    var m := MarketAddress(mintA, mintB);
    assert MarketWellFormed(s, m);
    assert SignAsMarket(canonicalBump, m, s.markets[m]).Err?;
  }

  /** A swap of zero A, when it succeeds, changes nothing at all. */
  lemma SwapZeroChangesNothing(s: State, canonicalBump: BumpOracle, user: Signer, mintA: Address, mintB: Address,
                               userA: Address, userB: Address, aToB: bool)
    requires Swap(s, canonicalBump, user, mintA, mintB, userA, userB, 0, aToB).Ok?
    ensures Swap(s, canonicalBump, user, mintA, mintB, userA, userB, 0, aToB) == Ok(s)
  {
    if aToB {
      var m := MarketAddress(mintA, mintB);
      var paid := Transfer(s.ledger, userA, VaultA(m), user, 0).value;
      assert paid == s.ledger;
      assert Transfer(paid, VaultB(m), userB, m, 0).value == s.ledger;
    }
  }

  lemma SwapConservesSupply(s: State, canonicalBump: BumpOracle, user: Signer, mintA: Address, mintB: Address,
                            userA: Address, userB: Address, amount: u64, aToB: bool, mint: Address)
    requires Swap(s, canonicalBump, user, mintA, mintB, userA, userB, amount, aToB).Ok?
    ensures Supply(Swap(s, canonicalBump, user, mintA, mintB, userA, userB, amount, aToB).value.ledger, mint)
            == Supply(s.ledger, mint)
  {
    if aToB {
      var m := MarketAddress(mintA, mintB);
      TransferConservesSupply(s.ledger, userA, VaultA(m), user, amount, mint);
      var paid := Transfer(s.ledger, userA, VaultA(m), user, amount).value;
      TransferConservesSupply(paid, VaultB(m), userB, m, amount * s.markets[m].price, mint);
    }
  }
}
