/**
 * `primitives::utils`: an input that yields the bytes of a slice followed by
 * an endless run of zeros, and the derivation of a multi-account id from a
 * hash of an id and an optional caller, decoded from such an input.
 */
module Primitives {
  import opened Common

  /** `codec::Error`; neither operation below ever produces it. */
  datatype CodecError = CodecError

  /** `n` zero bytes. */
  function Zeros(n: nat): (r: Bytes)
    ensures |r| == n
    ensures forall i :: 0 <= i < n ==> r[i] == 0
  {
    seq(n, _ => 0)
  }

  /**
   * The `n` bytes a trailing-zero input over `d` yields first: the first
   * `min(n, |d|)` bytes of `d`, then zeros.
   */
  function Stream(d: Bytes, n: nat): (r: Bytes)
    ensures |r| == n
    ensures forall i :: 0 <= i < n && i < |d| ==> r[i] == d[i]
    ensures forall i :: |d| <= i < n ==> r[i] == 0
  {
    d[..Min(n, |d|)] + Zeros(n - Min(n, |d|))
  }

  /**
   * The input is endless: reading `a` bytes and then `b` more yields what a
   * single read of `a + b` bytes yields.
   */
  lemma StreamSplit(d: Bytes, a: nat, b: nat)
    ensures Stream(d, a + b) == Stream(d, a) + Stream(d[Min(a, |d|)..], b)
  {
  }

  /** Over an input of at least `n` bytes, a read of `n` bytes yields the first `n` bytes. */
  lemma StreamOfLongInput(d: Bytes, n: nat)
    requires n <= |d|
    ensures Stream(d, n) == d[..n]
  {
  }

  /** `TrailingZeroInput`: the slice that is still to be read. */
  class TrailingZeroInput {
    var data: Bytes

    /** `TrailingZeroInput::new`. */
    constructor (data: Bytes)
      ensures this.data == data
    {
      this.data := data;
    }

    /** `remaining_len`: the input does not know its length, as it never ends. */
    method RemainingLen() returns (r: Result<Option<nat>, CodecError>)
      ensures r == Ok(None)
    {
      r := Ok(None);
    }

    /**
     * `read`: fills `into` with the next bytes of the slice and zeros after
     * them, and drops the bytes it used from the slice. It never fails.
     */
    method Read(into: array<Byte>) returns (r: Result<(), CodecError>)
      modifies this, into
      ensures r.Ok?
      ensures into[..] == Stream(old(data), into.Length)
      ensures data == old(data)[Min(into.Length, |old(data)|)..]
    {
      var input := data;
      var k := Min(into.Length, |input|);
      forall i | 0 <= i < k {
        into[i] := input[i];
      }
      for i := k to into.Length
        invariant into[..k] == input[..k]
        invariant forall j :: k <= j < i ==> into[j] == 0
      {
        into[i] := 0;
      }
      assert into[..] == Stream(input, into.Length);
      data := input[k..];
      r := Ok(());
    }
  }

  /** The 16 bytes of `b"modlpy/utilisuba"`. */
  const MULTI_ACCOUNT_PREFIX: Bytes :=
    [0x6d, 0x6f, 0x64, 0x6c, 0x70, 0x79, 0x2f, 0x75, 0x74, 0x69, 0x6c, 0x69, 0x73, 0x75, 0x62, 0x61]

  /**
   * The collaborators of `multi_account_id`, which are not part of this model:
   * SCALE encoding of the id and of an account, `blake2_256`, and decoding an
   * account of `accountWidth` bytes from the input.
   */
  datatype Hashing = Hashing(
    encodeId: nat -> Bytes,
    encodeAccount: AccountId -> Bytes,
    hash: Bytes -> Bytes,
    accountWidth: nat,
    decodeAccount: Bytes -> AccountId)

  /**
   * The encoded tuple that is hashed: the prefix, the id, and the caller only
   * when there is one (a tuple encodes as its fields one after another, and a
   * byte array with no length prefix).
   */
  function Preimage(h: Hashing, id: nat, caller: Option<AccountId>): (r: Bytes)
    ensures caller.None? ==> r == MULTI_ACCOUNT_PREFIX + h.encodeId(id)
    ensures caller.Some? ==> r == MULTI_ACCOUNT_PREFIX + h.encodeId(id) + h.encodeAccount(caller.value)
    ensures |r| >= |MULTI_ACCOUNT_PREFIX| && r[..|MULTI_ACCOUNT_PREFIX|] == MULTI_ACCOUNT_PREFIX
  {
    match caller
    case None => MULTI_ACCOUNT_PREFIX + h.encodeId(id)
    case Some(who) => MULTI_ACCOUNT_PREFIX + h.encodeId(id) + h.encodeAccount(who)
  }

  /**
   * `multi_account_id`: the account decoded from the endless input over the
   * hash of the preimage.
   */
  function MultiAccountId(h: Hashing, id: nat, caller: Option<AccountId>): AccountId
  {
    h.decodeAccount(Stream(h.hash(Preimage(h, id, caller)), h.accountWidth))
  }

  /**
   * Two callers of the same id hash the same preimage only when their
   * encodings agree: the caller is part of what is hashed.
   */
  lemma {:induction false} PreimageSeparatesCallers(h: Hashing, id: nat, a: AccountId, b: AccountId)
    requires Preimage(h, id, Some(a)) == Preimage(h, id, Some(b))
    ensures h.encodeAccount(a) == h.encodeAccount(b)
  {
    var head := MULTI_ACCOUNT_PREFIX + h.encodeId(id);
    var pa := Preimage(h, id, Some(a));
    var pb := Preimage(h, id, Some(b));
    assert pa[|head|..] == h.encodeAccount(a);
    assert pb[|head|..] == h.encodeAccount(b);
  }

  /**
   * Without a caller the preimage is the prefix and the id alone; with a
   * caller whose encoding is not empty it is strictly longer.
   */
  lemma CallerExtendsPreimage(h: Hashing, id: nat, who: AccountId)
    requires |h.encodeAccount(who)| > 0
    ensures Preimage(h, id, Some(who)) != Preimage(h, id, None)
    ensures Preimage(h, id, None) <= Preimage(h, id, Some(who))
  {
  }

  /**
   * The derived account is a function of the id and of the caller's encoding
   * alone: callers that encode alike get the same account.
   */
  lemma MultiAccountIdDependsOnEncoding(h: Hashing, id: nat, a: AccountId, b: AccountId)
    requires h.encodeAccount(a) == h.encodeAccount(b)
    ensures MultiAccountId(h, id, Some(a)) == MultiAccountId(h, id, Some(b))
  {
  }

  /**
   * Without a caller the derived account is a function of the id's encoding
   * alone: ids that encode alike get the same account.
   */
  lemma MultiAccountIdWithoutCallerDependsOnId(h: Hashing, i: nat, j: nat)
    requires h.encodeId(i) == h.encodeId(j)
    ensures MultiAccountId(h, i, None) == MultiAccountId(h, j, None)
  {
  }

  /**
   * When the hash is at least one account wide, the account is decoded from
   * the hash itself and no padding is read.
   */
  lemma MultiAccountIdReadsHashOnly(h: Hashing, id: nat, caller: Option<AccountId>)
    requires h.accountWidth <= |h.hash(Preimage(h, id, caller))|
    ensures MultiAccountId(h, id, caller) == h.decodeAccount(h.hash(Preimage(h, id, caller))[..h.accountWidth])
  {
    StreamOfLongInput(h.hash(Preimage(h, id, caller)), h.accountWidth);
  }
}
