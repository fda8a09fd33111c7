/**
 * The legacy payment helpers as calls on the ledger's objects: a loop of
 * deposits, a reduce, then withdrawals. Each is proved to do what the function of
 * the same name in LegacyPayments.dfy does.
 */
module LegacyHelpers {
  import opened Wrappers
  import opened AmountMath
  import opened PaymentLedger
  import M = LedgerModel
  import L = LegacyPayments

  method Claim(kit: IssuerKit, recoveryPurse: Purse, srcPayment: Payment, optAmountShape: Amount -> bool)
    returns (r: Result<Payment, LedgerError>)
    requires kit.Valid() && recoveryPurse in kit.purses
    modifies kit, kit.purses
    ensures kit.Valid() && kit.purses == old(kit.purses)
    ensures var c := L.Claim(old(kit.Abs()), recoveryPurse.id, srcPayment, optAmountShape);
            kit.Abs() == c.ledger && r == c.result
  {
    hide M.Inv, M.Deposit, M.WithdrawCoerced, PurseStates, OwnerIds, M.RecoverySetsInRange, M.Fresh;
    var deposited := kit.Deposit(recoveryPurse, srcPayment, optAmountShape);
    if deposited.Err? { return Err(deposited.error); }
    r := Withdraw(kit, recoveryPurse, deposited.value);
  }

  /** E(recoveryPurse).withdraw of an amount the ledger itself handed out. */
  method Withdraw(kit: IssuerKit, purse: Purse, amount: Amount) returns (r: Result<Payment, LedgerError>)
    requires kit.Valid() && purse in kit.purses
    modifies kit, kit.purses
    ensures kit.Valid() && kit.purses == old(kit.purses)
    ensures M.Fresh(old(kit.Abs()))
    ensures var w := M.WithdrawCoerced(old(kit.Abs()), purse.id, amount); kit.Abs() == w.ledger && r == w.result
  {
    L.WithdrawCoercedInv(kit.Abs(), purse.id, amount);
    hide M.Inv, M.WithdrawCoerced, M.Fresh, PurseStates, OwnerIds;
    r := kit.WithdrawCoerced(purse, amount);
  }

  method Combine(kit: IssuerKit, recoveryPurse: Purse, srcPayments: seq<Payment>, optTotalAmount: Amount -> bool)
    returns (r: Result<Payment, LedgerError>)
    requires kit.Valid() && recoveryPurse in kit.purses
    modifies kit, kit.purses
    ensures kit.Valid() && kit.purses == old(kit.purses)
    ensures var c := L.Combine(old(kit.Abs()), recoveryPurse.id, srcPayments, optTotalAmount);
            kit.Abs() == c.ledger && r == c.result
  {
    hide M.Inv, L.DepositAll, M.WithdrawCoerced, PurseStates, OwnerIds, M.RecoverySetsInRange, M.Fresh;
    var amounts := DepositAll(kit, recoveryPurse, srcPayments);
    if amounts.Err? { return Err(amounts.error); }
    var total := Reduce(AmountMath.MakeEmpty(kit.brand, kit.assetKind), amounts.value, kit.brand);
    if total.Err? { return Err(M.MathFailed(total.error)); }
    if !optTotalAmount(total.value) { return Err(M.ShapeMismatch); }
    r := Withdraw(kit, recoveryPurse, total.value);
  }

  /** amounts.reduce((x, y) => AmountMath.add(x, y, brand), empty) */
  method Reduce(empty: Amount, amounts: seq<Amount>, brand: Brand) returns (r: Result<Amount, MathError>)
    ensures r == L.Reduce(empty, amounts, brand)
  {
    hide AmountMath.Add;
    var acc := empty;
    assert amounts[0..] == amounts;
    for k := 0 to |amounts|
      invariant L.Reduce(empty, amounts, brand) == L.Reduce(acc, amounts[k..], brand)
    {
      assert amounts[k..][0] == amounts[k] && amounts[k..][1..] == amounts[k + 1..];
      var sum := Add(acc, amounts[k], Some(brand));
      if sum.Err? { return Err(sum.error); }
      acc := sum.value;
    }
    return Ok(acc);
  }

  /** Prepends what the turns so far have produced to what the rest of the calls produce. */
  ghost function Continue<T>(failed: Option<LedgerError>, done: seq<T>, rest: Result<seq<T>, LedgerError>): Result<seq<T>, LedgerError> {
    if failed.Some? then Err(failed.value)
    else if rest.Err? then rest
    else Ok(done + rest.value)
  }

  /** srcPayments.map(deposit), all started before any is awaited. */
  method DepositAll(kit: IssuerKit, purse: Purse, srcPayments: seq<Payment>) returns (r: Result<seq<Amount>, LedgerError>)
    requires kit.Valid() && purse in kit.purses
    modifies kit, kit.purses
    ensures kit.Valid() && kit.purses == old(kit.purses)
    ensures var d := L.DepositAll(old(kit.Abs()), purse.id, srcPayments); kit.Abs() == d.ledger && r == d.result
  {
    hide M.Inv, M.Deposit, PurseStates, OwnerIds, M.RecoverySetsInRange;
    var failed: Option<LedgerError> := None;
    var amounts: seq<Amount> := [];
    assert srcPayments[0..] == srcPayments;
    ghost var all := L.DepositAll(kit.Abs(), purse.id, srcPayments);
    assert all.result.Ok? ==> [] + all.result.value == all.result.value;
    for k := 0 to |srcPayments|
      invariant kit.Valid() && kit.purses == old(kit.purses)
      invariant all.ledger == L.DepositAll(kit.Abs(), purse.id, srcPayments[k..]).ledger
      invariant all.result == Continue(failed, amounts, L.DepositAll(kit.Abs(), purse.id, srcPayments[k..]).result)
    {
      assert srcPayments[k..][0] == srcPayments[k] && srcPayments[k..][1..] == srcPayments[k + 1..];
      ghost var rest := L.DepositAll(kit.Abs(), purse.id, srcPayments[k..]);
      var amount := kit.Deposit(purse, srcPayments[k], M.AnyAmount);
      ghost var tail := L.DepositAll(kit.Abs(), purse.id, srcPayments[k + 1..]);
      if amount.Err? {
        if failed.None? { failed := Some(amount.error); }
      } else {
        assert tail.result.Ok? ==> amounts + ([amount.value] + tail.result.value) == (amounts + [amount.value]) + tail.result.value;
        amounts := amounts + [amount.value];
      }
    }
    assert amounts + [] == amounts;
    return if failed.Some? then Err(failed.value) else Ok(amounts);
  }

  method Split(kit: IssuerKit, recoveryPurse: Purse, srcPayment: Payment, paymentAmountA: AllegedAmount)
    returns (r: Result<seq<Payment>, LedgerError>)
    requires kit.Valid() && recoveryPurse in kit.purses
    modifies kit, kit.purses
    ensures kit.Valid() && kit.purses == old(kit.purses)
    ensures var s := L.Split(old(kit.Abs()), recoveryPurse.id, srcPayment, paymentAmountA);
            kit.Abs() == s.ledger && r == s.result
  {
    hide M.Inv, M.Deposit, L.WithdrawAll, PurseStates, OwnerIds, M.RecoverySetsInRange, AmountMath.Subtract, AmountMath.Coerce;
    var deposited := kit.Deposit(recoveryPurse, srcPayment, M.AnyAmount);
    if deposited.Err? { return Err(deposited.error); }
    var a := Coerce(kit.brand, paymentAmountA);
    if a.Err? { return Err(M.MathFailed(a.error)); }
    var b := Subtract(deposited.value, a.value);
    if b.Err? { return Err(M.MathFailed(b.error)); }
    r := WithdrawAll(kit, recoveryPurse, [a.value, b.value]);
  }

  method SplitMany(kit: IssuerKit, recoveryPurse: Purse, srcPayment: Payment, amounts: seq<AllegedAmount>)
    returns (r: Result<seq<Payment>, LedgerError>)
    requires kit.Valid() && recoveryPurse in kit.purses
    modifies kit, kit.purses
    ensures kit.Valid() && kit.purses == old(kit.purses)
    ensures var s := L.SplitMany(old(kit.Abs()), recoveryPurse.id, srcPayment, amounts);
            kit.Abs() == s.ledger && r == s.result
  {
    hide M.Inv, M.Deposit, L.WithdrawAll, PurseStates, OwnerIds, M.RecoverySetsInRange, L.CoerceEach, L.Reduce;
    var deposited := kit.Deposit(recoveryPurse, srcPayment, M.AnyAmount);
    if deposited.Err? { return Err(deposited.error); }
    var each := L.CoerceEach(kit.brand, amounts);
    if each.Err? { return Err(M.MathFailed(each.error)); }
    var total := Reduce(MakeEmptyFromAmount(deposited.value), each.value, kit.brand);
    if total.Err? { return Err(M.MathFailed(total.error)); }
    if IsEqual(deposited.value, total.value) != Ok(true) { return Err(M.RightsNotConserved); }
    r := WithdrawAll(kit, recoveryPurse, each.value);
  }

  /** amounts.map(withdraw), all started before any is awaited. */
  method WithdrawAll(kit: IssuerKit, purse: Purse, amounts: seq<Amount>) returns (r: Result<seq<Payment>, LedgerError>)
    requires kit.Valid() && purse in kit.purses
    modifies kit, kit.purses
    ensures kit.Valid() && kit.purses == old(kit.purses)
    ensures var w := L.WithdrawAll(old(kit.Abs()), purse.id, amounts); kit.Abs() == w.ledger && r == w.result
  {
    hide M.Inv, M.WithdrawCoerced, PurseStates, OwnerIds, M.RecoverySetsInRange, M.Fresh;
    var failed: Option<LedgerError> := None;
    var made: seq<Payment> := [];
    assert amounts[0..] == amounts;
    ghost var all := L.WithdrawAll(kit.Abs(), purse.id, amounts);
    assert all.result.Ok? ==> [] + all.result.value == all.result.value;
    for k := 0 to |amounts|
      invariant kit.Valid() && kit.purses == old(kit.purses)
      invariant all.ledger == L.WithdrawAll(kit.Abs(), purse.id, amounts[k..]).ledger
      invariant all.result == Continue(failed, made, L.WithdrawAll(kit.Abs(), purse.id, amounts[k..]).result)
    {
      assert amounts[k..][0] == amounts[k] && amounts[k..][1..] == amounts[k + 1..];
      ghost var rest := L.WithdrawAll(kit.Abs(), purse.id, amounts[k..]);
      var payment := Withdraw(kit, purse, amounts[k]);
      ghost var tail := L.WithdrawAll(kit.Abs(), purse.id, amounts[k + 1..]);
      if payment.Err? {
        if failed.None? { failed := Some(payment.error); }
      } else {
        assert tail.result.Ok? ==> made + ([payment.value] + tail.result.value) == (made + [payment.value]) + tail.result.value;
        made := made + [payment.value];
      }
    }
    assert made + [] == made;
    return if failed.Some? then Err(failed.value) else Ok(made);
  }
}
