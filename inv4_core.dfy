/**
 * The Core registry of `pallet-inv4`.
 *
 * Creating a Core allocates the next id from a checked counter, derives the
 * Core's keyless account from that id, mints the configured seed balance of
 * the Core's own share currency to the creator, charges a creation fee and
 * stores the Core's record. A Core changes its own parameters only through
 * its multisig origin. Every failure of a call leaves the storage as it was,
 * as the runtime runs each call in a storage transaction.
 */
module Inv4Core {
  import opened Common
  import opened Origin
  import CoreAssets

  /** `CoreInfo`: the stored record of a Core. */
  datatype CoreInfo = CoreInfo(
    account: AccountId,
    metadata: Bytes,
    minimumSupport: Perbill,
    requiredApproval: Perbill,
    frozenTokens: bool)

  /** The optional arguments of `set_parameters`: `None` keeps the stored value. */
  datatype Parameters = Parameters(
    metadata: Option<Bytes>,
    minimumSupport: Option<Perbill>,
    requiredApproval: Option<Perbill>,
    frozenTokens: Option<bool>)

  datatype Event =
    | CoreCreated(coreAccount: AccountId, metadata: Bytes, coreId: CoreId, minimumSupport: Perbill, requiredApproval: Perbill)
    | ParametersSet(coreId: CoreId, parameters: Parameters)

  /** `Some(x)` replaces the current value, `None` keeps it. */
  function Replace<T>(update: Option<T>, current: T): T
  {
    if update.Some? then update.value else current
  }

  /**
   * The record `set_parameters` stores: every field given as `Some` is
   * replaced, every `None` field is kept, and the account never changes.
   */
  function Patched(info: CoreInfo, p: Parameters): (r: CoreInfo)
    ensures r.account == info.account
    ensures r.metadata == (if p.metadata.Some? then p.metadata.value else info.metadata)
    ensures r.minimumSupport == (if p.minimumSupport.Some? then p.minimumSupport.value else info.minimumSupport)
    ensures r.requiredApproval == (if p.requiredApproval.Some? then p.requiredApproval.value else info.requiredApproval)
    ensures r.frozenTokens == (if p.frozenTokens.Some? then p.frozenTokens.value else info.frozenTokens)
  {
    CoreInfo(
      info.account,
      Replace(p.metadata, info.metadata),
      Replace(p.minimumSupport, info.minimumSupport),
      Replace(p.requiredApproval, info.requiredApproval),
      Replace(p.frozenTokens, info.frozenTokens))
  }

  /** A call that names no field leaves the record as it is. */
  lemma PatchedWithNothing(info: CoreInfo)
    ensures Patched(info, Parameters(None, None, None, None)) == info
  {
  }

  /** Setting the same parameters twice has the effect of setting them once. */
  lemma PatchedIdempotent(info: CoreInfo, p: Parameters)
    ensures Patched(Patched(info, p), p) == Patched(info, p)
  {
  }

  class Inv4 {
    /** `MaxMetadata`: the longest metadata a Core may carry. */
    const maxMetadata: nat
    /** `CoreSeedBalance`: the shares minted to a Core's creator. */
    const coreSeedBalance: Balance
    /** `derive_core_account`, which is not part of this model: an uninterpreted function of the id. */
    const deriveCoreAccount: CoreId -> AccountId
    /** The share ledger (`AssetsProvider`). */
    const assets: CoreAssets.Ledger

    /** `NextCoreId`. */
    var nextCoreId: CoreId
    /** `CoreStorage`. */
    var coreStorage: map<CoreId, CoreInfo>
    /** `CoreByAccount`. */
    var coreByAccount: map<AccountId, CoreId>
    /** The events deposited so far. */
    var events: seq<Event>

    /**
     * Every stored Core has an id below the counter, the account derived from
     * its id and metadata within the bound; `CoreByAccount` points only at
     * Cores whose account it is keyed by.
     */
    ghost predicate Valid()
      reads this, assets
    {
      && assets.Valid()
      && (forall id :: id in coreStorage ==> id < nextCoreId)
      && (forall id :: id in coreStorage ==>
            coreStorage[id].account == deriveCoreAccount(id) && |coreStorage[id].metadata| <= maxMetadata)
      && (forall a :: a in coreByAccount ==>
            coreByAccount[a] in coreStorage && coreStorage[coreByAccount[a]].account == a)
    }

    constructor (maxMetadata: nat, coreSeedBalance: Balance, deriveCoreAccount: CoreId -> AccountId, assets: CoreAssets.Ledger)
      requires assets.Valid()
      ensures Valid()
      ensures this.maxMetadata == maxMetadata && this.coreSeedBalance == coreSeedBalance
      ensures this.deriveCoreAccount == deriveCoreAccount && this.assets == assets
      ensures nextCoreId == 0 && coreStorage == map[] && coreByAccount == map[] && events == []
    {
      this.maxMetadata := maxMetadata;
      this.coreSeedBalance := coreSeedBalance;
      this.deriveCoreAccount := deriveCoreAccount;
      this.assets := assets;
      nextCoreId := 0;
      coreStorage := map[];
      coreByAccount := map[];
      events := [];
    }

    /** `is_asset_frozen`: the frozen flag of a stored Core, `None` for an unknown id. */
    function IsAssetFrozen(id: CoreId): (r: Option<bool>)
      reads this
      ensures r.Some? <==> id in coreStorage
      ensures r.Some? ==> r.value == coreStorage[id].frozenTokens
    {
      if id in coreStorage then Some(coreStorage[id].frozenTokens) else None
    }

    /**
     * `inner_create_core`. The outcome of withdrawing the creation fee from
     * the creator (in the fee asset the creator chose) is `feeCharge`; the
     * fee handler that receives it is not part of this model. When the fee
     * cannot be withdrawn, the seed balance already minted is rolled back
     * together with everything else.
     */
    method CreateCore(origin: RuntimeOrigin, metadata: Bytes, minimumSupport: Perbill, requiredApproval: Perbill,
                      feeCharge: Result<(), DispatchError>)
      returns (r: Result<(), DispatchError>)
      requires Valid()
      modifies this, assets
      ensures Valid()
      ensures EnsureSigned(origin).Err? ==> r == Err(BadOrigin)
      ensures (EnsureSigned(origin).Ok? && |metadata| > maxMetadata) ==> r == Err(Inv4Pallet(MaxMetadataExceeded))
      ensures (EnsureSigned(origin).Ok? && |metadata| <= maxMetadata && old(nextCoreId) == MAX_CORE_ID) ==>
        r == Err(Inv4Pallet(NoAvailableCoreId))
      ensures (EnsureSigned(origin).Ok? && |metadata| <= maxMetadata && old(nextCoreId) < MAX_CORE_ID &&
               old(assets.CanDeposit(nextCoreId, origin.raw.who, coreSeedBalance)) != CoreAssets.CanDepositAll) ==>
        r == Err(Arithmetic(Overflow))
      ensures (EnsureSigned(origin).Ok? && |metadata| <= maxMetadata && old(nextCoreId) < MAX_CORE_ID &&
               old(assets.CanDeposit(nextCoreId, origin.raw.who, coreSeedBalance)) == CoreAssets.CanDepositAll &&
               feeCharge.Err?) ==>
        r == Err(feeCharge.error)
      ensures r.Ok? <==>
        (EnsureSigned(origin).Ok? && |metadata| <= maxMetadata && old(nextCoreId) < MAX_CORE_ID &&
         old(assets.CanDeposit(nextCoreId, origin.raw.who, coreSeedBalance)) == CoreAssets.CanDepositAll &&
         feeCharge.Ok?)
      ensures r.Err? ==> unchanged(this) && assets.State() == old(assets.State())
      ensures r.Ok? ==>
        && old(nextCoreId) !in old(coreStorage)
        && nextCoreId == old(nextCoreId) + 1
        && coreStorage == old(coreStorage)[old(nextCoreId) := CoreInfo(deriveCoreAccount(old(nextCoreId)), metadata,
                                                                      minimumSupport, requiredApproval, true)]
        && coreByAccount == old(coreByAccount)[deriveCoreAccount(old(nextCoreId)) := old(nextCoreId)]
        && events == old(events) + [CoreCreated(deriveCoreAccount(old(nextCoreId)), metadata, old(nextCoreId),
                                                minimumSupport, requiredApproval)]
        && assets.MintedInto(old(nextCoreId), origin.raw.who, coreSeedBalance)
        && IsAssetFrozen(old(nextCoreId)) == Some(true)
      ensures forall c :: old(assets.Balanced(c)) ==> assets.Balanced(c)
    {
      var creator := EnsureSigned(origin);
      if creator.Err? {
        return Err(creator.error);
      }
      if |metadata| > maxMetadata {
        return Err(Inv4Pallet(MaxMetadataExceeded));
      }
      var currentId := nextCoreId;
      if currentId == MAX_CORE_ID {
        // `checked_add(1)` on the `u32` counter fails.
        return Err(Inv4Pallet(NoAvailableCoreId));
      }
      var coreAccount := deriveCoreAccount(currentId);
      var snapshot := assets.State();
      var minted := assets.MintInto(currentId, creator.value, coreSeedBalance);
      if minted.Err? {
        return Err(minted.error);
      }
      var info := CoreInfo(coreAccount, metadata, minimumSupport, requiredApproval, true);
      if feeCharge.Err? {
        assets.Restore(snapshot);
        return Err(feeCharge.error);
      }
      coreStorage := coreStorage[currentId := info];
      coreByAccount := coreByAccount[coreAccount := currentId];
      nextCoreId := currentId + 1;
      events := events + [CoreCreated(coreAccount, metadata, currentId, minimumSupport, requiredApproval)];
      r := Ok(());
    }

    /**
     * `inner_set_parameters`: only a Core's multisig origin may call it, and it
     * patches that Core's own record. Over-long metadata is refused and the
     * record stays as it was.
     */
    method SetParameters(origin: RuntimeOrigin, p: Parameters) returns (r: Result<(), DispatchError>)
      requires Valid()
      modifies this
      ensures Valid()
      ensures !origin.Inv4? ==> r == Err(BadOrigin)
      ensures (origin.Inv4? && origin.inv4.internal.id !in old(coreStorage)) ==> r == Err(Inv4Pallet(CoreNotFound))
      ensures (origin.Inv4? && origin.inv4.internal.id in old(coreStorage) &&
               p.metadata.Some? && |p.metadata.value| > maxMetadata) ==> r == Err(Inv4Pallet(MaxMetadataExceeded))
      ensures r.Ok? <==>
        (origin.Inv4? && origin.inv4.internal.id in old(coreStorage) &&
         (p.metadata.None? || |p.metadata.value| <= maxMetadata))
      ensures r.Err? ==> unchanged(this)
      ensures r.Ok? ==>
        && coreStorage == old(coreStorage)[origin.inv4.internal.id :=
                                             Patched(old(coreStorage)[origin.inv4.internal.id], p)]
        && nextCoreId == old(nextCoreId) && coreByAccount == old(coreByAccount)
        && events == old(events) + [ParametersSet(origin.inv4.internal.id, p)]
      ensures r.Ok? && p.frozenTokens.Some? ==> IsAssetFrozen(origin.inv4.internal.id) == p.frozenTokens
    {
      var coreOrigin := EnsureMultisig(origin);
      if coreOrigin.Err? {
        return Err(coreOrigin.error);
      }
      var id := coreOrigin.value.id;
      if id !in coreStorage {
        return Err(Inv4Pallet(CoreNotFound));
      }
      var c := coreStorage[id];
      if p.minimumSupport.Some? {
        c := c.(minimumSupport := p.minimumSupport.value);
      }
      if p.requiredApproval.Some? {
        c := c.(requiredApproval := p.requiredApproval.value);
      }
      if p.metadata.Some? {
        if |p.metadata.value| > maxMetadata {
          return Err(Inv4Pallet(MaxMetadataExceeded));
        }
        c := c.(metadata := p.metadata.value);
      }
      if p.frozenTokens.Some? {
        c := c.(frozenTokens := p.frozenTokens.value);
      }
      coreStorage := coreStorage[id := c];
      events := events + [ParametersSet(id, p)];
      r := Ok(());
    }
  }
}
