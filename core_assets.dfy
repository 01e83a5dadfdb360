/**
 * The per-Core share ledger (`pallet-core-assets`).
 *
 * A multi-currency fungible ledger: one currency per Core, balances keyed by
 * (account, currency), a total issuance per currency and a frozen flag per
 * currency. All arithmetic on balances is checked against the bound of the
 * `Balance` type. The ledger keeps the accounting invariant
 * `Holdings(c) == TotalIssuance(c)` (the balances held in `c` add up to its
 * issuance) through every balanced operation -- transfer, mint, burn and
 * the root `set_balance` -- while the `Unbalanced` hooks (`write_balance`,
 * `set_total_issuance`, `decrease_balance`) deliberately write one side only.
 */
module CoreAssets {
  import opened Common
  import opened Origin
  import Supply

  /** The ledger's currencies are the Cores' ids. */
  type CurrencyId = CoreId

  datatype Event =
    | Endowed(currencyId: CurrencyId, who: AccountId, amount: Balance)
    | Transferred(currencyId: CurrencyId, from: AccountId, to: AccountId, amount: Balance)
    | BalanceSet(currencyId: CurrencyId, who: AccountId, balance: Balance)
    | TotalIssuanceSet(currencyId: CurrencyId, amount: Balance)
    | Withdrawn(currencyId: CurrencyId, who: AccountId, amount: Balance)
    | Deposited(currencyId: CurrencyId, who: AccountId, amount: Balance)

  /** The outcomes of `deposit_consequence` (the only two it produces). */
  datatype DepositConsequence = CanDepositAll | DepositOverflow

  /** The outcomes of `withdraw_consequence` (the only three it produces). */
  datatype WithdrawConsequence = CanWithdrawAll | WithdrawUnderflow | BalanceLow

  /** Whether a withdrawal is exact or may be reduced to what is available. */
  datatype Precision = Exact | BestEffort

  /**
   * `deposit_consequence`: whether `amount` can be added to an account holding
   * `balance` of a currency whose issuance is `issuance`. Zero always can;
   * otherwise both the issuance and the balance must stay within the bound.
   */
  function DepositConsequenceOf(issuance: Balance, amount: Balance, balance: Balance): (r: DepositConsequence)
    ensures r == CanDepositAll <==> amount == 0 || (issuance + amount <= MAX_BALANCE && balance + amount <= MAX_BALANCE)
  {
    if amount == 0 then CanDepositAll
    else if CheckedAdd(issuance, amount).None? then DepositOverflow
    else if CheckedAdd(balance, amount).None? then DepositOverflow
    else CanDepositAll
  }

  /** `DepositConsequence::into_result`. */
  function DepositIntoResult(d: DepositConsequence): (r: Result<(), DispatchError>)
    ensures r.Ok? <==> d == CanDepositAll
    ensures r.Err? ==> r.error == Arithmetic(Overflow)
  {
    match d
    case CanDepositAll => Ok(())
    case DepositOverflow => Err(Arithmetic(Overflow))
  }

  /**
   * `withdraw_consequence`: whether `amount` can be taken from an account
   * holding `balance` of a currency whose issuance is `issuance`. The
   * issuance is checked before the balance.
   */
  function WithdrawConsequenceOf(issuance: Balance, amount: Balance, balance: Balance): (r: WithdrawConsequence)
    ensures r == CanWithdrawAll <==> amount == 0 || (amount <= issuance && amount <= balance)
    ensures r == WithdrawUnderflow <==> amount > 0 && issuance < amount
    ensures r == BalanceLow <==> amount > 0 && amount <= issuance && balance < amount
  {
    if amount == 0 then CanWithdrawAll
    else if CheckedSub(issuance, amount).None? then WithdrawUnderflow
    else if CheckedSub(balance, amount).None? then BalanceLow
    else CanWithdrawAll
  }

  /** `WithdrawConsequence::into_result`: on success, the extra amount to take (always zero here). */
  function WithdrawIntoResult(w: WithdrawConsequence): (r: Result<Balance, DispatchError>)
    ensures r.Ok? <==> w == CanWithdrawAll
    ensures r.Ok? ==> r.value == 0
    ensures w == WithdrawUnderflow ==> r == Err(Arithmetic(Underflow))
    ensures w == BalanceLow ==> r == Err(Token(FundsUnavailable))
  {
    match w
    case CanWithdrawAll => Ok(0)
    case WithdrawUnderflow => Err(Arithmetic(Underflow))
    case BalanceLow => Err(Token(FundsUnavailable))
  }

  /** Minting only ever becomes impossible by overflow, so a successful mint can always be burnt again. */
  lemma MintedCanBeBurnt(issuance: Balance, amount: Balance, balance: Balance)
    requires DepositConsequenceOf(issuance, amount, balance) == CanDepositAll
    ensures issuance + amount <= MAX_BALANCE && balance + amount <= MAX_BALANCE
    ensures WithdrawConsequenceOf(issuance + amount, amount, balance + amount) == CanWithdrawAll
  {
  }

  /** The `AccountsByCurrency` index holds exactly the (currency, account) pairs that have an `Accounts` entry. */
  ghost predicate IndexConsistent(accounts: Supply.Table, accountsByCurrency: set<(CurrencyId, AccountId)>)
  {
    forall c: CurrencyId, who: AccountId :: (c, who) in accountsByCurrency <==> (who, c) in accounts
  }

  /** The ledger's whole storage, used to roll back a failed enclosing call. */
  datatype LedgerState = LedgerState(
    totalIssuance: map<CurrencyId, Balance>,
    accounts: Supply.Table,
    accountsByCurrency: set<(CurrencyId, AccountId)>,
    frozen: map<CurrencyId, bool>,
    events: seq<Event>)

  class Ledger {
    /** `TotalIssuance`: absent means zero. */
    var totalIssuance: map<CurrencyId, Balance>
    /** `Accounts`, keyed by (account, currency): absent means zero. */
    var accounts: Supply.Table
    /** `AccountsByCurrency`: the accounts that have an entry, per currency. */
    var accountsByCurrency: set<(CurrencyId, AccountId)>
    /** `Frozen`: absent means frozen. */
    var frozen: map<CurrencyId, bool>
    /** The events deposited so far. */
    var events: seq<Event>

    ghost predicate Valid()
      reads this
    {
      IndexConsistent(accounts, accountsByCurrency)
    }

    constructor ()
      ensures Valid()
      ensures totalIssuance == map[] && accounts == map[] && accountsByCurrency == {}
      ensures frozen == map[] && events == []
      ensures forall c :: Balanced(c) && IsFrozen(c) && !AssetExists(c)
    {
      totalIssuance := map[];
      accounts := map[];
      accountsByCurrency := {};
      frozen := map[];
      events := [];
    }

    function State(): LedgerState
      reads this
    {
      LedgerState(totalIssuance, accounts, accountsByCurrency, frozen, events)
    }

    /** Puts back a state taken earlier with `State()`. */
    method Restore(s: LedgerState)
      modifies this
      ensures State() == s
      ensures totalIssuance == s.totalIssuance && accounts == s.accounts
      ensures accountsByCurrency == s.accountsByCurrency && frozen == s.frozen && events == s.events
    {
      totalIssuance, accounts, accountsByCurrency, frozen, events :=
        s.totalIssuance, s.accounts, s.accountsByCurrency, s.frozen, s.events;
    }

    /** `total_issuance`. */
    function TotalIssuance(c: CurrencyId): (r: Balance)
      reads this`totalIssuance
      ensures c !in totalIssuance ==> r == 0
      ensures c in totalIssuance ==> r == totalIssuance[c]
    {
      if c in totalIssuance then totalIssuance[c] else 0
    }

    /** `free_balance`, also `balance`, `total_balance` and the `accounts` getter. */
    function FreeBalance(c: CurrencyId, who: AccountId): (r: Balance)
      reads this`accounts
      ensures (who, c) !in accounts ==> r == 0
      ensures (who, c) in accounts ==> r == accounts[(who, c)]
    {
      if (who, c) in accounts then accounts[(who, c)] else 0
    }

    /** `is_frozen`: a currency never frozen nor thawed counts as frozen. */
    function IsFrozen(c: CurrencyId): (r: bool)
      reads this`frozen
      ensures c !in frozen ==> r
      ensures c in frozen ==> r == frozen[c]
    {
      if c in frozen then frozen[c] else true
    }

    /** Everything held in `c`, summed over all accounts. */
    ghost function Holdings(c: CurrencyId): nat
      reads this`accounts
    {
      Supply.Holdings(accounts, c)
    }

    /** The accounting invariant for currency `c`. */
    ghost predicate Balanced(c: CurrencyId)
      reads this`accounts, this`totalIssuance
    {
      Holdings(c) == TotalIssuance(c)
    }

    /** `minimum_balance`: the ledger has no existential deposit. */
    function MinimumBalance(c: CurrencyId): (r: Balance)
      ensures r == 0
    {
      0
    }

    /**
     * `reducible_balance`: everything an account holds may be withdrawn,
     * whatever the preservation and fortitude requested.
     */
    function ReducibleBalance(c: CurrencyId, who: AccountId): (r: Balance)
      reads this
      ensures r == FreeBalance(c, who)
      ensures Balanced(c) ==> r <= TotalIssuance(c)
    {
      BalanceBelowIssuance(c, who);
      FreeBalance(c, who)
    }

    /** `asset_exists`: the currency has an issuance entry. */
    function AssetExists(c: CurrencyId): (r: bool)
      reads this
      ensures r <==> c in totalIssuance
    {
      c in totalIssuance
    }

    /** `can_deposit`. */
    function CanDeposit(c: CurrencyId, who: AccountId, amount: Balance): (r: DepositConsequence)
      reads this
      ensures r == CanDepositAll <==>
        amount == 0 || (TotalIssuance(c) + amount <= MAX_BALANCE && FreeBalance(c, who) + amount <= MAX_BALANCE)
    {
      DepositConsequenceOf(TotalIssuance(c), amount, FreeBalance(c, who))
    }

    /** `can_withdraw`. */
    function CanWithdraw(c: CurrencyId, who: AccountId, amount: Balance): (r: WithdrawConsequence)
      reads this
      ensures r == CanWithdrawAll <==> amount == 0 || (amount <= TotalIssuance(c) && amount <= FreeBalance(c, who))
    {
      WithdrawConsequenceOf(TotalIssuance(c), amount, FreeBalance(c, who))
    }

    /** `ensure_can_withdraw`: the account holds at least `amount`; zero always passes. */
    function EnsureCanWithdraw(c: CurrencyId, who: AccountId, amount: Balance): (r: Result<(), DispatchError>)
      reads this
      ensures r.Ok? <==> amount == 0 || amount <= FreeBalance(c, who)
      ensures r.Err? ==> r.error == AssetsPallet(BalanceTooLow)
    {
      if amount == 0 then Ok(())
      else if CheckedSub(FreeBalance(c, who), amount).None? then Err(AssetsPallet(BalanceTooLow))
      else Ok(())
    }

    /** `balance_frozen`: while frozen, the whole issuance counts as frozen. */
    function BalanceFrozen(c: CurrencyId): (r: Balance)
      reads this
      ensures IsFrozen(c) ==> r == TotalIssuance(c)
      ensures !IsFrozen(c) ==> r == 0
    {
      if IsFrozen(c) then TotalIssuance(c) else 0
    }

    /** `can_freeze`. */
    function CanFreeze(c: CurrencyId): (r: bool)
      reads this
      ensures r == IsFrozen(c)
    {
      IsFrozen(c)
    }

    /** In a balanced currency no account holds more than the issuance. */
    lemma BalanceBelowIssuance(c: CurrencyId, who: AccountId)
      ensures Balanced(c) ==> FreeBalance(c, who) <= TotalIssuance(c)
    {
      if (who, c) in accounts {
        Supply.BalanceWithinHoldings(accounts, (who, c));
      }
    }

    /** An account with a positive balance is listed in `AccountsByCurrency`. */
    lemma PositiveBalanceIsIndexed(c: CurrencyId, who: AccountId)
      requires Valid()
      ensures FreeBalance(c, who) > 0 ==> (c, who) in accountsByCurrency
    {
    }

    /** While a balanced currency is frozen, the frozen amount covers every holder's balance. */
    lemma FrozenCoversEveryHolder(c: CurrencyId, who: AccountId)
      requires Balanced(c) && IsFrozen(c)
      ensures FreeBalance(c, who) <= BalanceFrozen(c)
    {
      BalanceBelowIssuance(c, who);
    }

    /**
     * The commit step of `try_mutate_account`: stores the balance the closure
     * computed (an entry is stored even for zero), indexes a newly created
     * entry in `AccountsByCurrency` and announces it with `Endowed`.
     */
    method CommitAccount(c: CurrencyId, who: AccountId, balance: Balance)
      requires Valid()
      modifies this
      ensures Valid()
      ensures accounts == old(accounts)[(who, c) := balance]
      ensures accountsByCurrency == old(accountsByCurrency) + {(c, who)}
      ensures events == old(events) + (if (who, c) in old(accounts) then [] else [Endowed(c, who, balance)])
      ensures totalIssuance == old(totalIssuance) && frozen == old(frozen)
      ensures Holdings(c) + old(FreeBalance(c, who)) == old(Holdings(c)) + balance
      ensures forall c' :: c' != c ==> Holdings(c') == old(Holdings(c'))
    {
      ghost var before := accounts;
      var existed := (who, c) in accounts;
      accounts := accounts[(who, c) := balance];
      if !existed {
        accountsByCurrency := accountsByCurrency + {(c, who)};
        events := events + [Endowed(c, who, balance)];
      }
      Supply.UpdateHoldings(before, (who, c), balance, c);
      forall c' | c' != c
        ensures Holdings(c') == old(Holdings(c'))
      {
        Supply.UpdateHoldings(before, (who, c), balance, c');
      }
    }

    /**
     * `do_transfer`: moves `amount` of `c` from `from` to `to`. A zero amount or
     * a transfer to oneself succeeds without looking at anything else, so it
     * succeeds even on a frozen currency; otherwise a frozen currency, a
     * sender holding less than `amount` and a receiver that would overflow
     * are refused, in that order.
     */
    method DoTransfer(c: CurrencyId, from: AccountId, to: AccountId, amount: Balance) returns (r: Result<(), DispatchError>)
      requires Valid()
      modifies this
      ensures Valid()
      ensures r.Ok? <==> (amount == 0 || from == to ||
        (!old(IsFrozen(c)) && amount <= old(FreeBalance(c, from)) && old(FreeBalance(c, to)) + amount <= MAX_BALANCE))
      ensures amount > 0 && from != to && old(IsFrozen(c)) ==> r == Err(Token(Frozen))
      ensures amount > 0 && from != to && !old(IsFrozen(c)) && old(FreeBalance(c, from)) < amount ==>
        r == Err(AssetsPallet(BalanceTooLow))
      ensures (amount > 0 && from != to && !old(IsFrozen(c)) && amount <= old(FreeBalance(c, from)) &&
        old(FreeBalance(c, to)) + amount > MAX_BALANCE) ==> r == Err(Arithmetic(Overflow))
      ensures r.Err? || amount == 0 || from == to ==> unchanged(this)
      ensures r.Ok? && amount > 0 && from != to ==>
        && amount <= old(FreeBalance(c, from)) && old(FreeBalance(c, to)) + amount <= MAX_BALANCE
        && accounts == old(accounts)[(from, c) := old(FreeBalance(c, from)) - amount]
                                    [(to, c) := old(FreeBalance(c, to)) + amount]
        && accountsByCurrency == old(accountsByCurrency) + {(c, to)}
        && totalIssuance == old(totalIssuance) && frozen == old(frozen)
        && events == old(events) + (if (to, c) in old(accounts) then [] else [Endowed(c, to, amount)])
                                 + [Transferred(c, from, to, amount)]
      ensures forall c' :: Holdings(c') == old(Holdings(c'))
      ensures forall c' :: old(Balanced(c')) ==> Balanced(c')
    {
      if amount == 0 || from == to {
        return Ok(());
      }
      if IsFrozen(c) {
        return Err(Token(Frozen));
      }
      var toBalance := FreeBalance(c, to);
      var fromBalance := FreeBalance(c, from);
      var fromNew := CheckedSub(fromBalance, amount);
      if fromNew.None? {
        return Err(AssetsPallet(BalanceTooLow));
      }
      var toNew := CheckedAdd(toBalance, amount);
      if toNew.None? {
        return Err(Arithmetic(Overflow));
      }
      // `ensure_can_withdraw` runs next in the source; it reads the sender's
      // stored balance, which is not yet written, so it repeats the check above.
      // The inner `try_mutate_account` (the sender's) commits first.
      CommitAccount(c, from, fromNew.value);
      CommitAccount(c, to, toNew.value);
      events := events + [Transferred(c, from, to, amount)];
      r := Ok(());
    }

    /**
     * `do_withdraw`: takes `amount` from `who`, and from the issuance too when
     * `changeTotalIssuance` is set (saturating at zero). Zero is a no-op.
     */
    method DoWithdraw(c: CurrencyId, who: AccountId, amount: Balance, changeTotalIssuance: bool)
      returns (r: Result<(), DispatchError>)
      requires Valid()
      modifies this
      ensures Valid()
      ensures r.Ok? <==> amount <= old(FreeBalance(c, who))
      ensures r.Err? ==> r.error == AssetsPallet(BalanceTooLow)
      ensures r.Err? || amount == 0 ==> unchanged(this)
      ensures r.Ok? && amount > 0 ==>
        && accounts == old(accounts)[(who, c) := old(FreeBalance(c, who)) - amount]
        && totalIssuance == (if changeTotalIssuance
                             then old(totalIssuance)[c := SaturatingSub(old(TotalIssuance(c)), amount)]
                             else old(totalIssuance))
        && accountsByCurrency == old(accountsByCurrency) && frozen == old(frozen)
        && events == old(events) + [Withdrawn(c, who, amount)]
      ensures changeTotalIssuance ==> forall c' :: old(Balanced(c')) ==> Balanced(c')
    {
      if amount == 0 {
        return Ok(());
      }
      var balance := FreeBalance(c, who);
      r := EnsureCanWithdraw(c, who, amount);
      if r.Err? {
        return;
      }
      BalanceBelowIssuance(c, who);
      if changeTotalIssuance {
        totalIssuance := totalIssuance[c := SaturatingSub(TotalIssuance(c), amount)];
      }
      events := events + [Withdrawn(c, who, amount)];
      CommitAccount(c, who, SaturatingSub(balance, amount));
    }

    /**
     * `do_deposit`: adds `amount` to `who` (saturating), and to the issuance
     * when `changeTotalIssuance` is set. Zero is a no-op. With
     * `requireExisted` the account must already have an entry. The issuance
     * sum is checked for overflow even when the issuance is left alone.
     */
    method DoDeposit(c: CurrencyId, who: AccountId, amount: Balance, requireExisted: bool, changeTotalIssuance: bool)
      returns (r: Result<Balance, DispatchError>)
      requires Valid()
      modifies this
      ensures Valid()
      ensures r.Ok? <==> (amount == 0 ||
        ((!requireExisted || (who, c) in old(accounts)) && old(TotalIssuance(c)) + amount <= MAX_BALANCE))
      ensures amount > 0 && requireExisted && (who, c) !in old(accounts) ==> r == Err(AssetsPallet(DeadAccount))
      ensures (amount > 0 && (!requireExisted || (who, c) in old(accounts)) &&
        old(TotalIssuance(c)) + amount > MAX_BALANCE) ==> r == Err(Arithmetic(Overflow))
      ensures r.Ok? ==> r.value == amount
      ensures r.Err? || amount == 0 ==> unchanged(this)
      ensures r.Ok? && amount > 0 ==>
        && old(TotalIssuance(c)) + amount <= MAX_BALANCE
        && accounts == old(accounts)[(who, c) := SaturatingAdd(old(FreeBalance(c, who)), amount)]
        && totalIssuance == (if changeTotalIssuance
                             then old(totalIssuance)[c := old(TotalIssuance(c)) + amount]
                             else old(totalIssuance))
        && accountsByCurrency == old(accountsByCurrency) + {(c, who)} && frozen == old(frozen)
        && events == old(events) + (if (who, c) in old(accounts) then [] else [Endowed(c, who, amount)])
                                 + [Deposited(c, who, amount)]
      ensures changeTotalIssuance ==> forall c' :: old(Balanced(c')) ==> Balanced(c')
    {
      if amount == 0 {
        return Ok(amount);
      }
      var existed := (who, c) in accounts;
      if requireExisted && !existed {
        return Err(AssetsPallet(DeadAccount));
      }
      var newIssuance := CheckedAdd(TotalIssuance(c), amount);
      if newIssuance.None? {
        return Err(Arithmetic(Overflow));
      }
      BalanceBelowIssuance(c, who);
      if changeTotalIssuance {
        totalIssuance := totalIssuance[c := newIssuance.value];
      }
      CommitAccount(c, who, SaturatingAdd(FreeBalance(c, who), amount));
      events := events + [Deposited(c, who, amount)];
      r := Ok(amount);
    }

    /** The whole effect of a successful `mint_into` of `amount` into `who`. */
    twostate predicate MintedInto(c: CurrencyId, who: AccountId, amount: Balance)
      reads this
    {
      if amount == 0 then unchanged(this)
      else
        && old(TotalIssuance(c)) + amount <= MAX_BALANCE
        && old(FreeBalance(c, who)) + amount <= MAX_BALANCE
        && totalIssuance == old(totalIssuance)[c := old(TotalIssuance(c)) + amount]
        && accounts == old(accounts)[(who, c) := old(FreeBalance(c, who)) + amount]
        && accountsByCurrency == old(accountsByCurrency) + {(c, who)}
        && frozen == old(frozen)
        && events == old(events) + (if (who, c) in old(accounts) then [] else [Endowed(c, who, amount)])
                                 + [Deposited(c, who, amount)]
    }

    /**
     * `mint_into`: raises both the balance of `who` and the issuance by
     * `amount`, or fails with `Overflow` if either would leave the bound.
     * Zero succeeds and changes nothing. The frozen flag is not consulted.
     */
    method MintInto(c: CurrencyId, who: AccountId, amount: Balance) returns (r: Result<Balance, DispatchError>)
      requires Valid()
      modifies this
      ensures Valid()
      ensures r.Ok? <==> (amount == 0 ||
        (old(TotalIssuance(c)) + amount <= MAX_BALANCE && old(FreeBalance(c, who)) + amount <= MAX_BALANCE))
      ensures r.Err? ==> r.error == Arithmetic(Overflow) && unchanged(this)
      ensures r.Ok? ==> r.value == amount && MintedInto(c, who, amount)
      ensures r.Ok? && amount > 0 ==> AssetExists(c) && TotalIssuance(c) >= amount && FreeBalance(c, who) >= amount
      ensures forall c' :: old(Balanced(c')) ==> Balanced(c')
    {
      var check := DepositIntoResult(DepositConsequenceOf(TotalIssuance(c), amount, FreeBalance(c, who)));
      if check.Err? {
        return Err(check.error);
      }
      r := DoDeposit(c, who, amount, false, true);
    }

    /**
     * `burn_from`: lowers both the balance of `who` and the issuance by
     * exactly `amount`; an issuance below `amount` gives `Underflow`, a balance
     * below it `FundsUnavailable`. Zero succeeds and changes nothing. The
     * frozen flag is not consulted.
     */
    method BurnFrom(c: CurrencyId, who: AccountId, amount: Balance) returns (r: Result<Balance, DispatchError>)
      requires Valid()
      modifies this
      ensures Valid()
      ensures r.Ok? <==> amount == 0 || (amount <= old(TotalIssuance(c)) && amount <= old(FreeBalance(c, who)))
      ensures amount > 0 && old(TotalIssuance(c)) < amount ==> r == Err(Arithmetic(Underflow))
      ensures (amount > 0 && amount <= old(TotalIssuance(c)) && old(FreeBalance(c, who)) < amount) ==>
        r == Err(Token(FundsUnavailable))
      ensures r.Err? || amount == 0 ==> unchanged(this)
      ensures r.Ok? ==> r.value == amount
      ensures r.Ok? && amount > 0 ==>
        && amount <= old(TotalIssuance(c)) && amount <= old(FreeBalance(c, who))
        && totalIssuance == old(totalIssuance)[c := old(TotalIssuance(c)) - amount]
        && accounts == old(accounts)[(who, c) := old(FreeBalance(c, who)) - amount]
        && accountsByCurrency == old(accountsByCurrency) && frozen == old(frozen)
        && events == old(events) + [Withdrawn(c, who, amount)]
      ensures forall c' :: old(Balanced(c')) ==> Balanced(c')
    {
      var extra := WithdrawIntoResult(WithdrawConsequenceOf(TotalIssuance(c), amount, FreeBalance(c, who)));
      if extra.Err? {
        return Err(extra.error);
      }
      var actual := SaturatingAdd(amount, extra.value);
      var withdrawn := DoWithdraw(c, who, actual, true);
      match withdrawn {
        case Ok(_) => r := Ok(actual);
        case Err(e) => r := Err(e);
      }
    }

    /** `fungibles::Mutate::transfer`: `do_transfer`, answering the amount moved. */
    method MutateTransfer(c: CurrencyId, source: AccountId, dest: AccountId, amount: Balance)
      returns (r: Result<Balance, DispatchError>)
      requires Valid()
      modifies this
      ensures Valid()
      ensures r.Ok? <==> (amount == 0 || source == dest ||
        (!old(IsFrozen(c)) && amount <= old(FreeBalance(c, source)) && old(FreeBalance(c, dest)) + amount <= MAX_BALANCE))
      ensures amount > 0 && source != dest && old(IsFrozen(c)) ==> r == Err(Token(Frozen))
      ensures amount > 0 && source != dest && !old(IsFrozen(c)) && old(FreeBalance(c, source)) < amount ==>
        r == Err(AssetsPallet(BalanceTooLow))
      ensures (amount > 0 && source != dest && !old(IsFrozen(c)) && amount <= old(FreeBalance(c, source)) &&
        old(FreeBalance(c, dest)) + amount > MAX_BALANCE) ==> r == Err(Arithmetic(Overflow))
      ensures r.Ok? ==> r.value == amount
      ensures r.Ok? && source != dest ==>
        FreeBalance(c, source) + amount == old(FreeBalance(c, source)) &&
        FreeBalance(c, dest) == old(FreeBalance(c, dest)) + amount
      ensures r.Err? ==> unchanged(this)
      ensures forall c' :: Holdings(c') == old(Holdings(c')) && TotalIssuance(c') == old(TotalIssuance(c'))
    {
      var moved := DoTransfer(c, source, dest, amount);
      match moved {
        case Ok(_) => r := Ok(amount);
        case Err(e) => r := Err(e);
      }
    }

    /** The `transfer` call: a signed account sends `amount` of `c` to `dest`. */
    method SignedTransfer(origin: RuntimeOrigin, dest: AccountId, c: CurrencyId, amount: Balance)
      returns (r: Result<(), DispatchError>)
      requires Valid()
      modifies this
      ensures Valid()
      ensures !origin.System? || !origin.raw.Signed? ==> r == Err(BadOrigin) && unchanged(this)
      ensures origin.System? && origin.raw.Signed? ==>
        (r.Ok? <==> (amount == 0 || origin.raw.who == dest ||
          (!old(IsFrozen(c)) && amount <= old(FreeBalance(c, origin.raw.who)) &&
           old(FreeBalance(c, dest)) + amount <= MAX_BALANCE)))
      ensures r.Err? ==> unchanged(this)
      ensures forall c' :: Holdings(c') == old(Holdings(c')) && TotalIssuance(c') == old(TotalIssuance(c'))
    {
      var from := EnsureSigned(origin);
      if from.Err? {
        return Err(from.error);
      }
      r := DoTransfer(c, from.value, dest, amount);
    }

    /**
     * The `transfer_all` call: a signed account sends its whole reducible
     * balance of `c` to `dest`.
     */
    method TransferAll(origin: RuntimeOrigin, dest: AccountId, c: CurrencyId) returns (r: Result<(), DispatchError>)
      requires Valid()
      modifies this
      ensures Valid()
      ensures !origin.System? || !origin.raw.Signed? ==> r == Err(BadOrigin) && unchanged(this)
      ensures origin.System? && origin.raw.Signed? ==>
        (r.Ok? <==> (old(FreeBalance(c, origin.raw.who)) == 0 || origin.raw.who == dest ||
          (!old(IsFrozen(c)) && old(FreeBalance(c, dest)) + old(FreeBalance(c, origin.raw.who)) <= MAX_BALANCE)))
      ensures (origin.System? && origin.raw.Signed? && origin.raw.who != dest &&
        old(FreeBalance(c, origin.raw.who)) > 0 && old(IsFrozen(c))) ==> r == Err(Token(Frozen))
      ensures (origin.System? && origin.raw.Signed? && origin.raw.who != dest &&
        old(FreeBalance(c, origin.raw.who)) > 0 && !old(IsFrozen(c)) &&
        old(FreeBalance(c, dest)) + old(FreeBalance(c, origin.raw.who)) > MAX_BALANCE) ==> r == Err(Arithmetic(Overflow))
      ensures r.Err? ==> unchanged(this)
      ensures r.Ok? && origin.System? && origin.raw.Signed? && origin.raw.who != dest ==>
        FreeBalance(c, origin.raw.who) == 0 &&
        FreeBalance(c, dest) == old(FreeBalance(c, dest)) + old(FreeBalance(c, origin.raw.who))
      ensures forall c' :: Holdings(c') == old(Holdings(c')) && TotalIssuance(c') == old(TotalIssuance(c'))
    {
      var from := EnsureSigned(origin);
      if from.Err? {
        return Err(from.error);
      }
      var reducible := ReducibleBalance(c, from.value);
      var moved := MutateTransfer(c, from.value, dest, reducible);
      match moved {
        case Ok(_) => r := Ok(());
        case Err(e) => r := Err(e);
      }
    }

    /** The `force_transfer` call: root moves `amount` of `c` from `source` to `dest`. */
    method ForceTransfer(origin: RuntimeOrigin, source: AccountId, dest: AccountId, c: CurrencyId, amount: Balance)
      returns (r: Result<(), DispatchError>)
      requires Valid()
      modifies this
      ensures Valid()
      ensures origin != System(Root) ==> r == Err(BadOrigin) && unchanged(this)
      ensures origin == System(Root) ==>
        (r.Ok? <==> (amount == 0 || source == dest ||
          (!old(IsFrozen(c)) && amount <= old(FreeBalance(c, source)) && old(FreeBalance(c, dest)) + amount <= MAX_BALANCE)))
      ensures r.Err? ==> unchanged(this)
      ensures forall c' :: Holdings(c') == old(Holdings(c')) && TotalIssuance(c') == old(TotalIssuance(c'))
    {
      var root := EnsureRoot(origin);
      if root.Err? {
        return Err(root.error);
      }
      r := DoTransfer(c, source, dest, amount);
    }

    /**
     * The `set_balance` call (root only): sets the balance of `who` to
     * `newBalance` and shifts the issuance by the same difference, up or
     * down, with checked arithmetic.
     */
    method SetBalance(origin: RuntimeOrigin, who: AccountId, c: CurrencyId, newBalance: Balance)
      returns (r: Result<(), DispatchError>)
      requires Valid()
      modifies this
      ensures Valid()
      ensures r.Ok? <==> (origin == System(Root) &&
        0 <= old(TotalIssuance(c)) + newBalance - old(FreeBalance(c, who)) <= MAX_BALANCE)
      ensures origin != System(Root) ==> r == Err(BadOrigin)
      ensures (origin == System(Root) && newBalance > old(FreeBalance(c, who)) &&
        old(TotalIssuance(c)) + (newBalance - old(FreeBalance(c, who))) > MAX_BALANCE) ==> r == Err(Arithmetic(Overflow))
      ensures (origin == System(Root) && newBalance < old(FreeBalance(c, who)) &&
        old(TotalIssuance(c)) < old(FreeBalance(c, who)) - newBalance) ==> r == Err(Arithmetic(Underflow))
      ensures r.Err? ==> unchanged(this)
      ensures r.Ok? ==>
        && accounts == old(accounts)[(who, c) := newBalance]
        && TotalIssuance(c) + old(FreeBalance(c, who)) == old(TotalIssuance(c)) + newBalance
        && totalIssuance == (if newBalance == old(FreeBalance(c, who)) then old(totalIssuance)
                             else old(totalIssuance)[c := TotalIssuance(c)])
        && accountsByCurrency == old(accountsByCurrency) + {(c, who)} && frozen == old(frozen)
        && events == old(events) + [BalanceSet(c, who, newBalance)]
                                 + (if (who, c) in old(accounts) then [] else [Endowed(c, who, newBalance)])
      ensures forall c' :: old(Balanced(c')) ==> Balanced(c')
    {
      var root := EnsureRoot(origin);
      if root.Err? {
        return Err(root.error);
      }
      var oldBalance := FreeBalance(c, who);
      if newBalance > oldBalance {
        var t := CheckedAdd(TotalIssuance(c), SaturatingSub(newBalance, oldBalance));
        if t.None? {
          return Err(Arithmetic(Overflow));
        }
        totalIssuance := totalIssuance[c := t.value];
      } else if newBalance < oldBalance {
        var t := CheckedSub(TotalIssuance(c), SaturatingSub(oldBalance, newBalance));
        if t.None? {
          return Err(Arithmetic(Underflow));
        }
        totalIssuance := totalIssuance[c := t.value];
      }
      events := events + [BalanceSet(c, who, newBalance)];
      CommitAccount(c, who, newBalance);
      r := Ok(());
    }

    /** `freeze_currency`. */
    method Freeze(c: CurrencyId)
      modifies this
      ensures frozen == old(frozen)[c := true]
      ensures IsFrozen(c) && forall c' :: c' != c ==> IsFrozen(c') == old(IsFrozen(c'))
      ensures totalIssuance == old(totalIssuance) && accounts == old(accounts)
      ensures accountsByCurrency == old(accountsByCurrency) && events == old(events)
    {
      frozen := frozen[c := true];
    }

    /** `unfreeze_currency`. */
    method Unfreeze(c: CurrencyId)
      modifies this
      ensures frozen == old(frozen)[c := false]
      ensures !IsFrozen(c) && forall c' :: c' != c ==> IsFrozen(c') == old(IsFrozen(c'))
      ensures totalIssuance == old(totalIssuance) && accounts == old(accounts)
      ensures accountsByCurrency == old(accountsByCurrency) && events == old(events)
    {
      frozen := frozen[c := false];
    }

    /** `set_freeze`: freezes the whole currency, whatever account and amount are named. */
    method SetFreeze(c: CurrencyId, who: AccountId, amount: Balance) returns (r: Result<(), DispatchError>)
      modifies this
      ensures r.Ok? && IsFrozen(c) && BalanceFrozen(c) == TotalIssuance(c)
      ensures frozen == old(frozen)[c := true]
      ensures totalIssuance == old(totalIssuance) && accounts == old(accounts)
      ensures accountsByCurrency == old(accountsByCurrency) && events == old(events)
    {
      Freeze(c);
      r := Ok(());
    }

    /** `extend_freeze`: does nothing. */
    method ExtendFreeze(c: CurrencyId, who: AccountId, amount: Balance) returns (r: Result<(), DispatchError>)
      ensures r.Ok?
    {
      r := Ok(());
    }

    /** `thaw`: unfreezes the whole currency, whatever account is named. */
    method Thaw(c: CurrencyId, who: AccountId) returns (r: Result<(), DispatchError>)
      modifies this
      ensures r.Ok? && !IsFrozen(c) && BalanceFrozen(c) == 0
      ensures frozen == old(frozen)[c := false]
      ensures totalIssuance == old(totalIssuance) && accounts == old(accounts)
      ensures accountsByCurrency == old(accountsByCurrency) && events == old(events)
    {
      Unfreeze(c);
      r := Ok(());
    }

    /**
     * `write_balance`: overwrites the balance of `who` without touching the
     * issuance. Its guard bounds the reduction by the reducible balance, which
     * is the whole balance, so it never fails.
     */
    method WriteBalance(c: CurrencyId, who: AccountId, amount: Balance) returns (r: Result<Option<Balance>, DispatchError>)
      requires Valid()
      modifies this
      ensures Valid()
      ensures r == Ok(None)
      ensures accounts == old(accounts)[(who, c) := amount]
      ensures totalIssuance == old(totalIssuance) && frozen == old(frozen)
      ensures accountsByCurrency == old(accountsByCurrency) + {(c, who)}
      ensures events == old(events) + [BalanceSet(c, who, amount)]
                                    + (if (who, c) in old(accounts) then [] else [Endowed(c, who, amount)])
      ensures Holdings(c) + old(FreeBalance(c, who)) == old(Holdings(c)) + amount
    {
      var maxReduction := ReducibleBalance(c, who);
      var reduction := SaturatingSub(FreeBalance(c, who), amount);
      if reduction > maxReduction {
        return Err(AssetsPallet(BalanceTooLow));
      }
      events := events + [BalanceSet(c, who, amount)];
      CommitAccount(c, who, amount);
      r := Ok(None);
    }

    /** `set_total_issuance`: overwrites the issuance without touching any balance. */
    method SetTotalIssuance(c: CurrencyId, amount: Balance)
      modifies this
      ensures totalIssuance == old(totalIssuance)[c := amount]
      ensures accounts == old(accounts) && accountsByCurrency == old(accountsByCurrency) && frozen == old(frozen)
      ensures events == old(events) + [TotalIssuanceSet(c, amount)]
    {
      totalIssuance := totalIssuance[c := amount];
      events := events + [TotalIssuanceSet(c, amount)];
    }

    /**
     * `decrease_balance`: lowers the balance of `who` by `amount` through
     * `write_balance`, never touching the issuance. With `BestEffort` the
     * amount is first clamped to the whole balance; an `Exact` amount above the
     * balance fails with `FundsUnavailable`. Answers the decrease, old - new.
     */
    method DecreaseBalance(c: CurrencyId, who: AccountId, amount: Balance, precision: Precision)
      returns (r: Result<Balance, DispatchError>)
      requires Valid()
      modifies this
      ensures Valid()
      ensures r.Ok? <==> precision == BestEffort || amount <= old(FreeBalance(c, who))
      ensures r.Err? ==> r.error == Token(FundsUnavailable) && unchanged(this)
      ensures r.Ok? ==>
        && r.value == (if precision == BestEffort then Min(amount, old(FreeBalance(c, who))) else amount)
        && r.value <= old(FreeBalance(c, who))
        && accounts == old(accounts)[(who, c) := old(FreeBalance(c, who)) - r.value]
        && totalIssuance == old(totalIssuance) && frozen == old(frozen)
        && accountsByCurrency == old(accountsByCurrency) + {(c, who)}
        && events == old(events) + [BalanceSet(c, who, old(FreeBalance(c, who)) - r.value)]
                                 + (if (who, c) in old(accounts) then []
                                    else [Endowed(c, who, old(FreeBalance(c, who)) - r.value)])
    {
      var oldBalance := FreeBalance(c, who);
      var free := ReducibleBalance(c, who);
      var decrease := if precision == BestEffort then Min(amount, free) else amount;
      var newBalance := CheckedSub(oldBalance, decrease);
      if newBalance.None? {
        return Err(Token(FundsUnavailable));
      }
      var written := WriteBalance(c, who, newBalance.value);
      match written {
        case Ok(_) => r := Ok(SaturatingSub(oldBalance, newBalance.value));
        case Err(e) => r := Err(e);
      }
    }
  }
}
