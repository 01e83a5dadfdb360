# InvArch Frames: a verified model of the Core ledger, the Core registry and their utilities

The model covers the parts of InvArch Frames that a Core (a DAO with a keyless account and its own share currency) is built on.

- **Share ledger** (`pallet-core-assets`). A multi-currency fungible ledger with one currency per Core.
  - Storage: `TotalIssuance`, `Accounts`, `AccountsByCurrency` and `Frozen`.
  - Operations: transfer, mint, burn, root `set_balance`, freeze/thaw, and the raw `write_balance`, `set_total_issuance` and `decrease_balance` hooks.
  - Balances are `u128`, modelled as a `nat` bounded by `2^128 - 1`, so every overflow the source checks for can really happen.
  - The ledger is the class `CoreAssets.Ledger`. Its storage maps are fields that the methods reassign.
  - The ghost sum `Supply.Holdings` adds up a currency's balances. Every balanced operation keeps `Holdings(c) == TotalIssuance(c)`, and the transfer calls keep both sides equal to their old values.
- **Core registry** (`pallet-inv4`, `inv4_core.rs`). The class `Inv4Core.Inv4` holds:
  - the checked `NextCoreId` counter (`u32`);
  - `CoreStorage` and `CoreByAccount`;
  - a reference to the share ledger.

  `CreateCore` mints the seed shares to the creator, charges the fee and stores the Core. Any failure rolls back the registry and the ledger together, as the runtime's storage transaction does. `SetParameters` patches a Core's record field by field, and only the Core's own multisig origin may call it.
- **Origins** (`origin.rs`). The case analyses that accept a Core's multisig origin, a signed member or an NFT member, and otherwise answer `BadOrigin`.
- **Comparison rules** (`pallet-rules`). `CompRule<P>` and its two `process` implementations: the ordered specialisation and the equality-only default.
- **Primitives** (`primitives`). Two parts:
  - `TrailingZeroInput`, an input that yields a slice and then endless zeros. `read` fills a caller's array in place and advances the slice.
  - `multi_account_id`, which hashes a fixed prefix, an id and an optional caller.

Files: `common.dfy` (bounded integer types, `Option`/`Result`, dispatch errors, checked and saturating arithmetic), `supply.dfy`, `origin.dfy`, `core_assets.dfy`, `inv4_core.dfy`, `comp_rules.dfy` and `primitives.dfy`.

Two frozen flags:

- **Frozen flag.** `CoreInfo.frozen_tokens` is never read by the ledger, and `set_parameters` writes only `CoreStorage`. Transfers consult the ledger's own `Frozen` map, which only `freeze_currency` and `unfreeze_currency` change and which reads as frozen until one of them is called. The model keeps the two flags separate.

## Model

| member | source | states |
|---|---|---|
| Supply.UpdateHoldings | pallet-core-assets/src/lib.rs:404-436 | Storing a balance for one (account, currency) entry changes that currency's summed holdings by exactly new minus old. Every other currency's holdings are untouched. |
| Supply.BalanceWithinHoldings | pallet-core-assets/src/lib.rs:148-158 | No single stored balance exceeds the holdings of its currency. |
| CoreAssets.DepositConsequenceOf | pallet-core-assets/src/lib.rs:337-359 | Deposit is possible iff the amount is zero, or both issuance + amount and balance + amount stay within u128. |
| CoreAssets.DepositIntoResult | pallet-core-assets/src/lib.rs:706-707 | Ok exactly for `CanDepositAll`; every other consequence is `Arithmetic(Overflow)`. |
| CoreAssets.WithdrawConsequenceOf | pallet-core-assets/src/lib.rs:361-383 | `CanWithdrawAll` iff zero or both issuance and balance cover the amount. `WithdrawUnderflow` iff a nonzero amount exceeds the issuance. `BalanceLow` iff the issuance covers the amount but the balance does not. |
| CoreAssets.WithdrawIntoResult | pallet-core-assets/src/lib.rs:721-722 | Ok with no extra amount exactly for `CanWithdrawAll`. Underflow maps to `Arithmetic(Underflow)`; a low balance maps to `Token(FundsUnavailable)`. |
| CoreAssets.MintedCanBeBurnt | pallet-core-assets/src/lib.rs:337-383 | Whatever may be deposited may afterwards be withdrawn again from the raised issuance and balance. |
| CoreAssets.Ledger.Restore | INV4/pallet-inv4/src/inv4_core.rs:42-109 | Rolling back puts every ledger map and the event log back to the snapshot. |
| CoreAssets.Ledger.TotalIssuance | pallet-core-assets/src/lib.rs:136-140 | `total_issuance` (also lib.rs:594-596): the stored issuance, zero for a currency with no entry. |
| CoreAssets.Ledger.FreeBalance | pallet-core-assets/src/lib.rs:574-579 | `free_balance`, `balance` and `total_balance` (also lib.rs:602-611): the stored balance, zero for an account with no entry. |
| CoreAssets.Ledger.IsFrozen | pallet-core-assets/src/lib.rs:171-174 | The `Frozen` flag, true for a currency with no entry. |
| CoreAssets.Ledger.AssetExists | pallet-core-assets/src/lib.rs:639-641 | True exactly when the currency has an issuance entry. A fresh ledger has none, and a successful nonzero mint creates one (`MintInto`). |
| CoreAssets.Ledger.constructor | pallet-core-assets/src/lib.rs:136-174 | Empty storage: every currency is balanced (no holdings, zero issuance), reads as frozen and does not exist yet. |
| CoreAssets.Ledger.PositiveBalanceIsIndexed | pallet-core-assets/src/lib.rs:160-169 | Under the index invariant, an account with a positive balance is listed in `AccountsByCurrency` for that currency. |
| CoreAssets.Ledger.MinimumBalance | pallet-core-assets/src/lib.rs:598-600 | The existential deposit is zero. |
| CoreAssets.Ledger.ReducibleBalance | pallet-core-assets/src/lib.rs:613-620 | The reducible balance is the whole balance, for every preservation and fortitude. In a balanced currency it never exceeds the issuance. |
| CoreAssets.Ledger.CanDeposit | pallet-core-assets/src/lib.rs:622-629 | Deposit is possible iff zero, or the issuance and the account's balance both stay within u128. |
| CoreAssets.Ledger.CanWithdraw | pallet-core-assets/src/lib.rs:631-637 | Withdrawal is possible iff zero, or both the issuance and the account's balance cover the amount. |
| CoreAssets.Ledger.EnsureCanWithdraw | pallet-core-assets/src/lib.rs:388-402 | Ok iff zero or the balance covers the amount; otherwise `BalanceTooLow`. |
| CoreAssets.Ledger.BalanceFrozen | pallet-core-assets/src/lib.rs:647-657 | The whole issuance while the currency is frozen (by default it is), zero otherwise. |
| CoreAssets.Ledger.CanFreeze | pallet-core-assets/src/lib.rs:659-665 | Equals the currency's frozen flag, which defaults to true. |
| CoreAssets.Ledger.BalanceBelowIssuance | pallet-core-assets/src/lib.rs:136-158 | In a balanced currency no account holds more than the issuance. |
| CoreAssets.Ledger.FrozenCoversEveryHolder | pallet-core-assets/src/lib.rs:647-657 | In a balanced, frozen currency the frozen amount covers every holder's balance. |
| CoreAssets.Ledger.CommitAccount | pallet-core-assets/src/lib.rs:404-436 | The entry is stored even when zero. A new entry is indexed in `AccountsByCurrency` and announced with `Endowed`. Issuance and `Frozen` are untouched; holdings shift by new minus old, only in that currency. |
| CoreAssets.Ledger.DoTransfer | pallet-core-assets/src/lib.rs:444-487 | Zero or self transfer: Ok, no change, even when frozen. Otherwise, in order: `Frozen`, `BalanceTooLow`, `Overflow`, each with nothing changed. On success the sender loses exactly the amount and the receiver gains it; issuance, `Frozen`, every other entry and all holdings are unchanged. |
| CoreAssets.Ledger.DoWithdraw | pallet-core-assets/src/lib.rs:497-527 | Ok iff the balance covers the amount, else `BalanceTooLow` with no change. Lowers the balance by the amount and, when asked, the issuance (saturating). With the issuance changed, the accounting invariant is kept. |
| CoreAssets.Ledger.DoDeposit | pallet-core-assets/src/lib.rs:540-572 | Errors: `DeadAccount` when an existing entry is required and missing; `Overflow` when issuance + amount leaves u128. Otherwise raises the balance and, when asked, the issuance by the amount and answers the amount. With the issuance changed, the accounting invariant is kept. |
| CoreAssets.Ledger.MintInto | pallet-core-assets/src/lib.rs:701-710 | Ok iff zero or both sums fit; otherwise `Overflow` and nothing changes. On success balance and issuance both rise by exactly the amount, and for a nonzero amount the asset exists afterwards; zero is a no-op. The frozen flag is not consulted, and the accounting invariant is kept. |
| CoreAssets.Ledger.BurnFrom | pallet-core-assets/src/lib.rs:712-726 | `Underflow` if the issuance is below the amount. `FundsUnavailable` if the balance is. Otherwise balance and issuance both fall by exactly the amount. The frozen flag is not consulted, and the accounting invariant is kept. |
| CoreAssets.Ledger.MutateTransfer | pallet-core-assets/src/lib.rs:728-736 | `do_transfer` answering the amount. It succeeds exactly when `do_transfer` does, with the same `Frozen`, `BalanceTooLow` and `Overflow` errors. On success the source loses and the destination gains exactly the amount. Holdings and issuance of every currency are unchanged; a failure changes nothing. |
| CoreAssets.Ledger.SignedTransfer | pallet-core-assets/src/lib.rs:196-210 | Only a signed origin may transfer (`BadOrigin` otherwise). It succeeds exactly when `do_transfer` would, and conserves holdings and issuance. |
| CoreAssets.Ledger.TransferAll | pallet-core-assets/src/lib.rs:233-257 | Signed origin only (`BadOrigin` otherwise). Succeeds iff the sender's balance is zero, the destination is the sender, or the currency is not frozen and the destination can take the whole balance. The two errors are `Frozen` and then `Overflow`, and a failure changes nothing. On success the sender's whole balance moves to the destination, leaving the sender at zero. Holdings and issuance are conserved. |
| CoreAssets.Ledger.ForceTransfer | pallet-core-assets/src/lib.rs:270-281 | Only root may force a transfer (`BadOrigin` otherwise). It succeeds exactly when `do_transfer` would, and conserves holdings and issuance. |
| CoreAssets.Ledger.SetBalance | pallet-core-assets/src/lib.rs:293-332 | Root only. Sets the balance and shifts the issuance by exactly new minus old, up or down: `Overflow`/`Underflow` on checked arithmetic, with nothing changed. Keeps the accounting invariant. |
| CoreAssets.Ledger.Freeze | pallet-core-assets/src/lib.rs:581-583 | Afterwards `IsFrozen(c)` holds and every other currency's flag is as before. Nothing else changes. |
| CoreAssets.Ledger.Unfreeze | pallet-core-assets/src/lib.rs:585-587 | Afterwards `IsFrozen(c)` is false and every other currency's flag is as before. Nothing else changes. |
| CoreAssets.Ledger.SetFreeze | pallet-core-assets/src/lib.rs:669-678 | Freezes the whole currency, whatever account and amount are named. Afterwards the frozen balance is the whole issuance. |
| CoreAssets.Ledger.ExtendFreeze | pallet-core-assets/src/lib.rs:680-687 | Always succeeds and changes nothing. |
| CoreAssets.Ledger.Thaw | pallet-core-assets/src/lib.rs:689-697 | Unfreezes the whole currency, whatever account is named. Afterwards the frozen balance is zero. |
| CoreAssets.Ledger.WriteBalance | pallet-core-assets/src/lib.rs:744-774 | Always answers `Ok(None)`. Only the one entry changes and the issuance is untouched, so holdings move by new minus old. |
| CoreAssets.Ledger.SetTotalIssuance | pallet-core-assets/src/lib.rs:776-784 | Overwrites the issuance and no balance. |
| CoreAssets.Ledger.DecreaseBalance | pallet-core-assets/src/lib.rs:786-815 | `BestEffort` clamps the amount to the balance. `Exact` above the balance gives `FundsUnavailable` with nothing changed. Answers old minus new; only that entry changes, never the issuance. |
| Origin.EnsureSigned | INV4/pallet-inv4/src/inv4_core.rs:43 | Ok with the signer exactly for a signed system origin, `BadOrigin` otherwise. |
| Origin.EnsureRoot | pallet-core-assets/src/lib.rs:299 | Ok exactly for the root origin, `BadOrigin` otherwise. |
| Origin.NewInternal | INV4/pallet-inv4/src/origin.rs:38-40 | The internal origin built for an id carries that id. |
| Origin.AccountDependsOnlyOnId | INV4/pallet-inv4/src/origin.rs:42-44 | `ToAccountId` (`to_account_id`): internal origins with equal ids have equal accounts. |
| Origin.NewInternalAccount | INV4/pallet-inv4/src/origin.rs:38-44 | `ToAccountId` of the origin built by `new(id)` is the account derived from `id`, the account `CreateCore` stores for that Core. |
| Origin.EnsureMultisig | INV4/pallet-inv4/src/origin.rs:47-64 | Returns the internal origin exactly when the origin is `Multisig(internal)`, `BadOrigin` otherwise. |
| Origin.EnsureMemberAccountId | INV4/pallet-inv4/src/origin.rs:66-77 | Returns an account member exactly for `Signed(a)`, `BadOrigin` otherwise. |
| Origin.EnsureMemberNft | INV4/pallet-inv4/src/origin.rs:79-90 | Returns an NFT member exactly for `Nft(n)`, `BadOrigin` otherwise. |
| Origin.NewInternalRoundTrip | INV4/pallet-inv4/src/origin.rs:38-64 | `ensure_multisig` of the origin built by `new(id)` gives back the origin for `id`. |
| Origin.OriginChecksExclusive | INV4/pallet-inv4/src/origin.rs:47-90 | No origin passes two of the three checks. |
| Inv4Core.Patched | INV4/pallet-inv4/src/inv4_core.rs:125-142 | Each `Some` field replaces the stored value, each `None` keeps it, and the account never changes. |
| Inv4Core.PatchedWithNothing | INV4/pallet-inv4/src/inv4_core.rs:125-142 | All-`None` parameters leave the record as it is. |
| Inv4Core.PatchedIdempotent | INV4/pallet-inv4/src/inv4_core.rs:125-142 | Applying the same parameters twice equals applying them once. |
| Inv4Core.Inv4.IsAssetFrozen | INV4/pallet-inv4/src/inv4_core.rs:156-158 | `Some(frozen_tokens)` of a stored Core, `None` iff there is no record. |
| Inv4Core.Inv4.CreateCore | INV4/pallet-inv4/src/inv4_core.rs:33-110 | Errors, in order: `BadOrigin`, `MaxMetadataExceeded`, `NoAvailableCoreId` (counter at u32 max), the mint's `Overflow`, the fee failure. Any error leaves registry and ledger as they were. On success the new Core takes the old counter value, which was unused, and the counter rises by one. The creator is minted exactly the seed balance of that currency. The record has the derived account, the given thresholds and `frozen_tokens = true`, and `CoreByAccount` maps the account back. The registry invariant and the accounting invariant are kept. |
| Inv4Core.Inv4.SetParameters | INV4/pallet-inv4/src/inv4_core.rs:112-154 | `BadOrigin` unless a multisig origin; `CoreNotFound` without a record; `MaxMetadataExceeded` for over-long metadata. Every error changes nothing. On success only that Core's record changes, to its patched value, and `ParametersSet` is emitted. |
| CompRules.ProcessOrdered | pallet-rules/src/traits.rs:28-41 | On `Any`, `AnyOf`, `NoneOf` and `Exactly` it agrees with the default impl. |
| CompRules.ProcessDefault | pallet-rules/src/traits.rs:43-52 | Every ordering variant is refused. |
| CompRules.AnyAcceptsEverything | pallet-rules/src/traits.rs:28-52 | `Any` accepts every value in both impls. |
| CompRules.AnyOfIsMembership | pallet-rules/src/traits.rs:28-52 | `AnyOf(v)` accepts x iff x is in v, in both impls. |
| CompRules.NoneOfNegatesAnyOf | pallet-rules/src/traits.rs:28-52 | `NoneOf(v)` is the negation of `AnyOf(v)`, in both impls. |
| CompRules.ExactlyIsEquality | pallet-rules/src/traits.rs:28-52 | `Exactly(v)` accepts x iff x == v, in both impls. |
| CompRules.GreaterOrEqualSplits | pallet-rules/src/traits.rs:34-37 | For a total order, `GreaterOrEqualTo(v)` == `GreaterThan(v)` or `Exactly(v)`. |
| CompRules.LesserOrEqualSplits | pallet-rules/src/traits.rs:34-38 | For a total order, `LesserOrEqualTo(v)` == `LesserThan(v)` or `Exactly(v)`. |
| CompRules.StrictNegatesNonStrict | pallet-rules/src/traits.rs:35-38 | `LesserThan(v)` is the negation of `GreaterOrEqualTo(v)`; `GreaterThan(v)` is the negation of `LesserOrEqualTo(v)`. |
| CompRules.Trichotomy | pallet-rules/src/traits.rs:34-36 | For a total order exactly one of `LesserThan(v)`, `Exactly(v)`, `GreaterThan(v)` accepts. |
| CompRules.GreaterThanIsUpwardClosed | pallet-rules/src/traits.rs:35 | For a total order, a value above one that passes `GreaterThan(v)` passes it too. |
| Primitives.Stream | primitives/src/lib.rs:75-84 | The first n bytes of the input: the slice's bytes where it has them, zeros after its end, always n of them. |
| Primitives.StreamSplit | primitives/src/lib.rs:75-84 | Reading a bytes and then b more gives what one read of a + b gives. |
| Primitives.StreamOfLongInput | primitives/src/lib.rs:75-84 | A read no longer than the slice yields the slice's prefix and no padding. |
| Primitives.TrailingZeroInput.constructor | primitives/src/lib.rs:65-67 | The input starts at the whole slice. |
| Primitives.TrailingZeroInput.RemainingLen | primitives/src/lib.rs:71-73 | Always `Ok(None)`: the length is unknown. |
| Primitives.TrailingZeroInput.Read | primitives/src/lib.rs:75-84 | Always Ok. The array ends up holding the input's next `into.len` bytes: the first `min(into.len, slice.len)` bytes of the slice, then zeros. The slice loses exactly the copied prefix. |
| Primitives.Preimage | primitives/src/lib.rs:94-98 | The hashed bytes are the 16-byte prefix `modlpy/utilisuba` and the id's encoding, followed by the caller's encoding exactly when there is a caller. |
| Primitives.PreimageSeparatesCallers | primitives/src/lib.rs:94-98 | For one id, two callers give the same preimage only if their encodings agree. |
| Primitives.CallerExtendsPreimage | primitives/src/lib.rs:94-98 | With a caller, the preimage strictly extends the caller-free one. |
| Primitives.MultiAccountIdDependsOnEncoding | primitives/src/lib.rs:87-102 | `MultiAccountId` (`multi_account_id`): with a caller, the derived account is determined by the id and the caller's encoding. |
| Primitives.MultiAccountIdWithoutCallerDependsOnId | primitives/src/lib.rs:87-102 | `MultiAccountId` without a caller is a deterministic function of the id's encoding alone. |
| Primitives.MultiAccountIdReadsHashOnly | primitives/src/lib.rs:100-101 | When the hash is at least one account wide, the account is decoded from the hash's prefix and no padding is read. |

## Left out

- The creation fee is an opaque possibly-failing effect. Withdrawing it in TNKR (`Currency::withdraw`) or KSM (`Tokens::withdraw`) and handing it to `FeeCharger::handle_creation_fee` become the `feeCharge` parameter of `CreateCore`. Which asset pays, and the fee amounts, are not modelled.
- `derive_core_account` is not part of this model; it is an uninterpreted function fixed when the registry is built.
- `blake2_256`, SCALE `encode`/`decode` and the account decoder of `multi_account_id` are uninterpreted functions. Nothing about collision resistance is claimed. The `expect` on decoding is taken never to fire, because the decoder is total here.
- The multisig engine (proposals, votes, `multisig.rs`, `util.rs`) and the cross-chain NFT origins pallet are not part of this model. `RuntimeOrigin` only distinguishes the origin kinds the checks look at.
- `pallet-rules/src/lib.rs` (`new_rule`) and `pallet-rules/src/macros.rs` are not modelled.
- `Lookup` account resolution is the identity. Weights, benchmarks, `handle_dust` (a no-op) and `Preservation`/`Fortitude`/`Provenance` arguments (ignored by the source) are left out.
- Events are recorded as a log of constructors with their fields; their encoding is not modelled.
- CoreAssets.Ledger.MutateTransfer: states the effect on the two balances, on holdings and on issuance rather than the whole new state; `DoTransfer`, which it calls, states the whole new state.
- CoreAssets.Ledger.SignedTransfer: states success, holdings and issuance rather than the whole new state, which `DoTransfer` states.
- CoreAssets.Ledger.TransferAll: states the success condition, the errors, the two balances, holdings and issuance rather than the whole new state, which `DoTransfer` states.
- CoreAssets.Ledger.ForceTransfer: states success, holdings and issuance rather than the whole new state, which `DoTransfer` states.
- Inv4Core.Inv4.CreateCore: does not take the `FeeAsset` argument, because its only effect is which fee pallet is charged, and the outcome of that charge is the `feeCharge` parameter; the fee pallets' own storage is out of scope.
- `Balance` is fixed at `u128` and `CoreId` at `u32`, the widths used by the runtime; the pallets are generic over both.
