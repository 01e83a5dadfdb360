/**
 * Origins of the runtime and the checks that `pallet-inv4` applies to them.
 *
 * An origin says on whose behalf a call runs. The runtime's origin is a
 * union of the origins of its pallets: the system origins (root, a signed
 * account, none), the Core multisig origin of `pallet-inv4` (a call the
 * multisig engine dispatches as Core `id`) and the NFT origin of
 * `pallet-nft-origins`. Each check picks out one variant and rejects every
 * other one with `BadOrigin`.
 */
module Origin {
  import opened Common

  /** `frame_system::RawOrigin`; `Unsigned` stands for its `None` variant. */
  datatype RawOrigin = Root | Signed(who: AccountId) | Unsigned

  /** The identity of a Core acting through its multisig. */
  datatype MultisigInternalOrigin = MultisigInternalOrigin(id: CoreId)

  /** The origin type of `pallet-inv4`, which has a single variant. */
  datatype Inv4Origin = Multisig(internal: MultisigInternalOrigin)

  /** An NFT location is kept as an opaque identifier. */
  type NftLocation = nat

  /** The origin of `pallet-nft-origins`: a call made on behalf of an NFT. */
  datatype NftOrigin = Nft(location: NftLocation)

  /** The runtime origin, one variant per pallet that declares an origin. */
  datatype RuntimeOrigin =
    | System(raw: RawOrigin)
    | Inv4(inv4: Inv4Origin)
    | NftOrigins(nft: NftOrigin)

  /** A member of a Core's multisig: an account, or an NFT acting through its origin. */
  datatype MultisigMember = AccountMember(account: AccountId) | NftMember(location: NftLocation)

  /** `ensure_signed`: the signing account, or `BadOrigin`. */
  function EnsureSigned(o: RuntimeOrigin): (r: Result<AccountId, DispatchError>)
    ensures r.Ok? <==> o.System? && o.raw.Signed?
    ensures r.Ok? ==> o == System(Signed(r.value))
    ensures r.Err? ==> r.error == BadOrigin
  {
    match o
    case System(Signed(who)) => Ok(who)
    case _ => Err(BadOrigin)
  }

  /** `ensure_root`: succeeds on the root origin only. */
  function EnsureRoot(o: RuntimeOrigin): (r: Result<(), DispatchError>)
    ensures r.Ok? <==> o == System(Root)
    ensures r.Err? ==> r.error == BadOrigin
  {
    if o == System(Root) then Ok(()) else Err(BadOrigin)
  }

  /** `MultisigInternalOrigin::new`. */
  function NewInternal(id: CoreId): (o: MultisigInternalOrigin)
    ensures o.id == id
  {
    MultisigInternalOrigin(id)
  }

  /**
   * `MultisigInternalOrigin::to_account_id`: the account of the Core the
   * origin speaks for. The derivation `derive_core_account` is not part of
   * this model and is passed in as an uninterpreted function.
   */
  function ToAccountId(o: MultisigInternalOrigin, deriveCoreAccount: CoreId -> AccountId): AccountId
  {
    deriveCoreAccount(o.id)
  }

  /** `ensure_multisig`: the internal origin when the call comes from a Core's multisig. */
  function EnsureMultisig(o: RuntimeOrigin): (r: Result<MultisigInternalOrigin, DispatchError>)
    ensures r.Ok? <==> o.Inv4?
    ensures r.Ok? ==> o == Inv4(Multisig(r.value))
    ensures r.Err? ==> r.error == BadOrigin
  {
    match o
    case Inv4(Multisig(internal)) => Ok(internal)
    case _ => Err(BadOrigin)
  }

  /** `ensure_multisig_member_account_id`: a member identified by a signing account. */
  function EnsureMemberAccountId(o: RuntimeOrigin): (r: Result<MultisigMember, DispatchError>)
    ensures r.Ok? <==> o.System? && o.raw.Signed?
    ensures r.Ok? ==> r.value.AccountMember? && o == System(Signed(r.value.account))
    ensures r.Err? ==> r.error == BadOrigin
  {
    if o.System? && o.raw.Signed? then Ok(AccountMember(o.raw.who)) else Err(BadOrigin)
  }

  /** `ensure_multisig_member_nft`: a member identified by an NFT origin. */
  function EnsureMemberNft(o: RuntimeOrigin): (r: Result<MultisigMember, DispatchError>)
    ensures r.Ok? <==> o.NftOrigins?
    ensures r.Ok? ==> r.value.NftMember? && o == NftOrigins(Nft(r.value.location))
    ensures r.Err? ==> r.error == BadOrigin
  {
    if o.NftOrigins? then Ok(NftMember(o.nft.location)) else Err(BadOrigin)
  }

  /** The internal origin built for a Core is the one that names that Core. */
  lemma NewInternalRoundTrip(id: CoreId)
    ensures EnsureMultisig(Inv4(Multisig(NewInternal(id)))) == Ok(MultisigInternalOrigin(id))
    ensures NewInternal(id).id == id
  {
  }

  /** The origin built for Core `id` speaks for the account derived from `id`. */
  lemma NewInternalAccount(id: CoreId, deriveCoreAccount: CoreId -> AccountId)
    ensures ToAccountId(NewInternal(id), deriveCoreAccount) == deriveCoreAccount(id)
  {
  }

  /** The account of an internal origin depends on nothing but the Core id it carries. */
  lemma AccountDependsOnlyOnId(a: MultisigInternalOrigin, b: MultisigInternalOrigin, deriveCoreAccount: CoreId -> AccountId)
    requires a.id == b.id
    ensures ToAccountId(a, deriveCoreAccount) == ToAccountId(b, deriveCoreAccount)
  {
  }

  /**
   * The three origin checks are mutually exclusive: no origin is accepted
   * both as a Core and as a member, or as both kinds of member.
   */
  lemma OriginChecksExclusive(o: RuntimeOrigin)
    ensures !(EnsureMultisig(o).Ok? && EnsureMemberAccountId(o).Ok?)
    ensures !(EnsureMultisig(o).Ok? && EnsureMemberNft(o).Ok?)
    ensures !(EnsureMemberAccountId(o).Ok? && EnsureMemberNft(o).Ok?)
  {
  }
}
