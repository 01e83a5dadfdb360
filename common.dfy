/**
 * Types shared by the pallets of the model: the runtime's bounded integer
 * types, byte strings, the Option/Result wrappers and the dispatch errors
 * that the modelled operations return.
 */
module Common {

  /** Largest value of the runtime's `Balance` type (`u128`). */
  const MAX_BALANCE: nat := 0xFFFF_FFFF_FFFF_FFFF_FFFF_FFFF_FFFF_FFFF

  /** Largest value of the runtime's `CoreId` type (`u32`). */
  const MAX_CORE_ID: nat := 0xFFFF_FFFF

  /** One part in a billion is the unit of `Perbill`. */
  const PERBILL_ONE: nat := 1_000_000_000

  type Balance = b: nat | b <= MAX_BALANCE
  type CoreId = n: nat | n <= MAX_CORE_ID
  type Perbill = p: nat | p <= PERBILL_ONE

  /** Accounts are opaque identifiers; only equality is used. */
  type AccountId = nat

  type Byte = bv8
  type Bytes = seq<Byte>

  datatype Option<T> = None | Some(value: T)

  datatype Result<T, E> = Ok(value: T) | Err(error: E)

  datatype ArithmeticError = Overflow | Underflow

  datatype TokenError = FundsUnavailable | Frozen

  /** Errors declared by the share-ledger pallet (`pallet-core-assets`). */
  datatype AssetsError =
    | BalanceTooLow
    | AmountIntoBalanceFailed
    | LiquidityRestrictions
    | KeepAlive
    | DeadAccount

  /** Errors of the Core registry (`pallet-inv4`) that the model raises. */
  datatype Inv4Error = MaxMetadataExceeded | NoAvailableCoreId | CoreNotFound

  datatype DispatchError =
    | BadOrigin
    | Arithmetic(arithmetic: ArithmeticError)
    | Token(token: TokenError)
    | AssetsPallet(assets: AssetsError)
    | Inv4Pallet(inv4: Inv4Error)
      /** A failure reported by a collaborator outside the model (a fee withdrawal). */
    | External(code: nat)

  /** `checked_add` on `Balance`: `None` exactly when the sum leaves the type. */
  function CheckedAdd(a: Balance, b: Balance): (r: Option<Balance>)
    ensures r.None? <==> a + b > MAX_BALANCE
    ensures r.Some? ==> r.value == a + b
  {
    if a + b <= MAX_BALANCE then Some(a + b) else None
  }

  /** `checked_sub` on `Balance`: `None` exactly when the difference is negative. */
  function CheckedSub(a: Balance, b: Balance): (r: Option<Balance>)
    ensures r.None? <==> a < b
    ensures r.Some? ==> r.value + b == a
  {
    if b <= a then Some(a - b) else None
  }

  /** `saturating_add` on `Balance`: clamps at the maximum instead of failing. */
  function SaturatingAdd(a: Balance, b: Balance): (r: Balance)
    ensures a <= r && b <= r
    ensures a + b <= MAX_BALANCE ==> r == a + b
    ensures a + b > MAX_BALANCE ==> r == MAX_BALANCE
  {
    if a + b <= MAX_BALANCE then a + b else MAX_BALANCE
  }

  /** `saturating_sub` on `Balance`: clamps at zero instead of failing. */
  function SaturatingSub(a: Balance, b: Balance): (r: Balance)
    ensures r <= a
    ensures b <= a ==> r + b == a
    ensures a < b ==> r == 0
  {
    if b <= a then a - b else 0
  }

  function Min(a: nat, b: nat): (r: nat)
    ensures r <= a && r <= b && (r == a || r == b)
  {
    if a <= b then a else b
  }
}
