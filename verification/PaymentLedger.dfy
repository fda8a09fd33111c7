/**
 * The payment ledger and its purses as the objects they are: stores initialised
 * and deleted from in place, purses whose balance is assigned and whose recovery
 * set grows and shrinks. Every method is proved to do to the whole ledger what
 * the function of the same name in LedgerModel.dfy or MintAndRecover.dfy says.
 */
module PaymentLedger {
  import opened Wrappers
  import opened AmountMath
  import M = LedgerModel
  import R = MintAndRecover
  import Runs = LedgerRuns

  type Payment = M.Payment
  type LedgerError = M.LedgerError

  /** The state record of a purse. The recovery set is the purse's own, so the purse also stands for it. */
  class Purse {
    const id: nat
    var currentBalance: Amount
    var recoverySet: set<Payment>

    constructor (id: nat, empty: Amount)
      ensures this.id == id && currentBalance == empty && recoverySet == {}
    {
      this.id := id;
      currentBalance, recoverySet := empty, {};
    }

    // makeAmountStore(state, 'currentBalance')

    method Increment(delta: Amount) returns (r: Result<(), MathError>)
      modifies this`currentBalance
      ensures match Add(old(currentBalance), delta)
              case Ok(sum) => r == Ok(()) && currentBalance == sum
              case Err(why) => r == Err(why) && currentBalance == old(currentBalance)
    {
      var sum := Add(currentBalance, delta);
      if sum.Err? { return Err(sum.error); }
      currentBalance := sum.value;
      return Ok(());
    }

    /** Either takes delta out and says true, or leaves the balance alone. */
    method Decrement(delta: Amount) returns (r: Result<bool, MathError>)
      modifies this`currentBalance
      ensures r == IsGTE(old(currentBalance), delta)
      ensures r == Ok(true) ==> Add(currentBalance, delta) == Ok(old(currentBalance))
                                && Subtract(old(currentBalance), delta) == Ok(currentBalance)
      ensures r != Ok(true) ==> currentBalance == old(currentBalance)
    {
      var covered := IsGTE(currentBalance, delta);
      if covered == Ok(true) {
        SubtractThenAdd(currentBalance, delta);
        currentBalance := Subtract(currentBalance, delta).value;
      }
      return covered;
    }
  }

  ghost function PurseStates(purses: seq<Purse>): (s: seq<M.PurseState>)
    reads purses
    ensures |s| == |purses|
    ensures forall i :: 0 <= i < |purses| ==> s[i] == M.PurseState(purses[i].currentBalance, purses[i].recoverySet)
  {
    seq(|purses|, i requires 0 <= i < |purses| reads purses => M.PurseState(purses[i].currentBalance, purses[i].recoverySet))
  }

  /** The purse each recoverable payment belongs to, by its number. */
  ghost function OwnerIds(sets: map<Payment, Purse>): map<Payment, nat> {
    map p | p in sets :: sets[p].id
  }

  lemma OwnerIdsChange(sets: map<Payment, Purse>, payment: Payment, purse: Purse)
    ensures OwnerIds(sets[payment := purse]) == OwnerIds(sets)[payment := purse.id]
    ensures OwnerIds(sets - {payment}) == OwnerIds(sets) - {payment}
  {
  }

  /** Changing the state of one purse changes one element of the abstract sequence. */
  lemma OnePurseChanged(before: seq<M.PurseState>, purses: seq<Purse>, purse: Purse)
    requires |before| == |purses| && purse in purses
    requires forall i :: 0 <= i < |purses| ==> purses[i].id == i
    requires forall i :: 0 <= i < |purses| && purses[i] != purse ==> before[i] == PurseStates(purses)[i]
    ensures 0 <= purse.id < |purses|
    ensures PurseStates(purses) == before[purse.id := M.PurseState(purse.currentBalance, purse.recoverySet)]
  {
  }

  class IssuerKit {
    const brand: Brand
    const assetKind: AssetKind
    const baggage: Option<M.RecoverySetsOption>
    const mintRecoveryPurse: Purse

    var recoverySetsState: M.RecoverySetsOption
    var purses: seq<Purse>
    var paymentLedger: map<Payment, Amount>
    var paymentRecoverySets: map<Payment, Purse>
    var nextPayment: nat
    ghost var history: M.History

    /** Purses are numbered as created, and recovery sets belong to purses of this issuer. */
    ghost predicate Linked()
      reads this
    {
      && |purses| > 0 && purses[0] == mintRecoveryPurse
      && (forall i :: 0 <= i < |purses| ==> purses[i].id == i)
      && (forall p :: p in paymentRecoverySets ==> paymentRecoverySets[p] in purses)
    }

    ghost function Abs(): M.Ledger
      reads this, purses
    {
      M.Ledger(brand, assetKind, baggage, recoverySetsState, PurseStates(purses), paymentLedger,
               OwnerIds(paymentRecoverySets), nextPayment, history)
    }

    ghost predicate Valid()
      reads this, purses
    {
      Linked() && M.Inv(Abs())
    }

    /** makeDurableIssuerKit */
    constructor (brand: Brand, assetKind: AssetKind, recoverySetsOption: Option<M.RecoverySetsOption>)
      ensures Valid() && fresh(purses)
      ensures Abs() == M.MakeIssuer(brand, assetKind, Some(if recoverySetsOption.Some? then recoverySetsOption.value else M.HasRecoverySets))
    {
      hide M.Inv;
      var state := if recoverySetsOption.Some? then recoverySetsOption.value else M.HasRecoverySets;
      var purse := new Purse(0, AmountMath.MakeEmpty(brand, assetKind));
      this.brand, this.assetKind, this.baggage := brand, assetKind, Some(state);
      mintRecoveryPurse, recoverySetsState, purses := purse, state, [purse];
      paymentLedger, paymentRecoverySets, nextPayment := map[], map[], 0;
      history := M.EmptyHistory(state);
      new;
      M.MakeIssuerInv(brand, assetKind, Some(state));
      assert PurseStates(purses) == [M.PurseState(AmountMath.MakeEmpty(brand, assetKind), {})];
    }

    /** upgradeIssuerKit: the same stores, seen by the next incarnation. */
    method UpgradeIssuerKit(recoverySetsOption: Option<M.RecoverySetsOption>) returns (r: Result<(), LedgerError>)
      requires Valid()
      modifies this`recoverySetsState, this`history
      ensures Valid()
      ensures var u := M.Upgrade(old(Abs()), recoverySetsOption); Abs() == u.ledger && r == u.result
    {
      hide M.Inv, PurseStates;
      M.UpgradeInv(Abs(), recoverySetsOption);
      var oldRecoverySetsState := if baggage.Some? then baggage.value else M.HasRecoverySets;
      if oldRecoverySetsState == M.NoRecoverySets && recoverySetsOption == Some(M.HasRecoverySets) {
        return Err(M.CannotUpgrade);
      }
      recoverySetsState := if recoverySetsOption.Some? then recoverySetsOption.value else oldRecoverySetsState;
      history := history.(alwaysHad := history.alwaysHad && recoverySetsState.HasRecoverySets?);
      return Ok(());
    }

    method MakeEmptyPurse() returns (purse: Purse)
      requires Valid()
      modifies this`purses
      ensures Valid() && fresh(purse) && purses == old(purses) + [purse]
      ensures Abs() == M.MakeEmptyPurse(old(Abs())).ledger && purse.id == |old(purses)|
    {
      hide M.Inv;
      M.MakeEmptyPurseInv(Abs());
      purse := new Purse(|purses|, AmountMath.MakeEmpty(brand, assetKind));
      purses := purses + [purse];
      assert PurseStates(purses) == old(PurseStates(purses)) + [M.PurseState(purse.currentBalance, {})];
    }

    // ------------------------------------------------ internal bookkeeping

    method InitPayment(payment: Payment, amount: Amount, optRecoverySet: Option<Purse>) returns (r: Result<(), LedgerError>)
      requires Linked() && payment !in paymentLedger && payment !in paymentRecoverySets
      requires optRecoverySet.Some? ==> optRecoverySet.value in purses
      modifies this`paymentLedger, this`paymentRecoverySets, purses
      ensures Linked()
      ensures var set_ := if optRecoverySet.Some? then Some(optRecoverySet.value.id) else None;
              var i := M.InitPayment(old(Abs()), payment, amount, set_);
              Abs() == i.ledger && r == i.result
    {
      if recoverySetsState == M.NoRecoverySets && optRecoverySet.Some? {
        return Err(M.RecoverySetGiven);
      }
      if optRecoverySet.Some? && !IsEmpty(amount) {
        var purse := optRecoverySet.value;
        purse.recoverySet := purse.recoverySet + {payment};
        paymentRecoverySets := paymentRecoverySets[payment := purse];
        OwnerIdsChange(old(paymentRecoverySets), payment, purse);
        OnePurseChanged(old(PurseStates(purses)), purses, purse);
      }
      paymentLedger := paymentLedger[payment := amount];
      return Ok(());
    }

    method DeletePayment(payment: Payment)
      requires Linked() && payment in paymentLedger
      modifies this`paymentLedger, this`paymentRecoverySets, purses
      ensures Linked()
      ensures M.RecoverySetsInRange(old(Abs())) && Abs() == M.DeletePayment(old(Abs()), payment)
    {
      assert payment in OwnerIds(paymentRecoverySets) <==> payment in paymentRecoverySets;
      assert payment in paymentRecoverySets ==> OwnerIds(paymentRecoverySets)[payment] == paymentRecoverySets[payment].id;
      assert M.RecoverySetsInRange(Abs());
      paymentLedger := paymentLedger - {payment};
      if payment in paymentRecoverySets {
        var purse := paymentRecoverySets[payment];
        paymentRecoverySets := paymentRecoverySets - {payment};
        purse.recoverySet := purse.recoverySet - {payment};
        OwnerIdsChange(old(paymentRecoverySets), payment, purse);
        OnePurseChanged(old(PurseStates(purses)), purses, purse);
      }
    }

    method MaybeRecoverySet(purse: Purse) returns (r: Result<Option<Purse>, LedgerError>)
      requires Linked() && purse in purses
      ensures match M.MaybeRecoverySet(Abs(), purse.id)
              case Err(why) => r == Err(why)
              case Ok(None) => r == Ok(None)
              case Ok(Some(_)) => r == Ok(Some(purse))
    {
      if recoverySetsState == M.HasRecoverySets { return Ok(Some(purse)); }
      if purse.recoverySet != {} { return Err(M.LeftoverRecoverySet); }
      return Ok(None);
    }

    // -------------------------------------------------------- purse methods

    method Deposit(purse: Purse, srcPayment: Payment, optAmountShape: Amount -> bool) returns (r: Result<Amount, LedgerError>)
      requires Linked() && purse in purses
      modifies this`paymentLedger, this`paymentRecoverySets, this`history, purses
      ensures Linked()
      ensures M.RecoverySetsInRange(old(Abs()))
      ensures var d := M.Deposit(old(Abs()), purse.id, srcPayment, optAmountShape); Abs() == d.ledger && r == d.result
      ensures old(M.Inv(Abs())) ==> Valid()
    {
      if M.Inv(Abs()) { M.DepositInv(Abs(), purse.id, srcPayment, optAmountShape); }
      hide M.Inv, M.Deposit, M.RecoverySetsInRange, PurseStates, OwnerIds;
      r := DepositInternal(purse, srcPayment, optAmountShape);
    }

    method DepositInternal(purse: Purse, srcPayment: Payment, optAmountShape: Amount -> bool) returns (r: Result<Amount, LedgerError>)
      requires Linked() && purse in purses
      modifies this`paymentLedger, this`paymentRecoverySets, this`history, purses
      ensures Linked()
      ensures M.RecoverySetsInRange(old(Abs()))
      ensures var d := M.Deposit(old(Abs()), purse.id, srcPayment, optAmountShape); Abs() == d.ledger && r == d.result
    {
      if srcPayment !in paymentLedger { return Err(M.NotLive); }
      var srcPaymentBalance := paymentLedger[srcPayment];
      if !optAmountShape(srcPaymentBalance) { return Err(M.ShapeMismatch); }
      // COMMIT POINT
      DeletePayment(srcPayment);
      hide M.DeletePayment, AmountMath.Add, Holdings, OwnerIds;
      ghost var before := PurseStates(purses);
      var added := purse.Increment(srcPaymentBalance);
      OnePurseChanged(before, purses, purse);
      if added.Err? {
        history := history.(lost := history.lost + Holdings(srcPaymentBalance.value));
        return Err(M.CommitFailed(added.error));
      }
      return Ok(srcPaymentBalance);
    }

    /** The first half of withdrawInternal: a new payment, and its amount out of the purse if the purse covers it. */
    method Debit(purse: Purse, amount: Amount) returns (payment: Payment, covered: Result<bool, MathError>)
      requires Linked() && purse in purses && M.Fresh(Abs())
      modifies this`nextPayment, this`history, purse`currentBalance
      ensures Linked() && payment == old(nextPayment)
      ensures covered == IsGTE(old(purse.currentBalance), amount)
      ensures covered == Ok(true) ==>
                && Subtract(old(purse.currentBalance), amount).Ok?
                && Abs() == M.Debited(old(Abs()), purse.id, Subtract(old(purse.currentBalance), amount).value)
      ensures covered != Ok(true) ==> Abs() == old(Abs()).(nextPayment := payment + 1)
      ensures payment !in paymentLedger && payment !in paymentRecoverySets
    {
      payment := nextPayment;
      assert payment !in Abs().live && payment !in Abs().recoverySets;
      hide AmountMath.Add, AmountMath.Subtract, AmountMath.IsGTE;
      nextPayment := nextPayment + 1;
      // COMMIT POINT
      covered := purse.Decrement(amount);
      OnePurseChanged(old(PurseStates(purses)), purses, purse);
      if covered == Ok(true) {
        history := history.(origin := history.origin[payment := purse.id]);
      }
    }

    method WithdrawInternal(purse: Purse, amount: Amount, recoverySet: Option<Purse>) returns (r: Result<Payment, LedgerError>)
      requires Linked() && purse in purses && M.Fresh(Abs())
      requires recoverySet.Some? ==> recoverySet.value in purses
      modifies this`paymentLedger, this`paymentRecoverySets, this`nextPayment, this`history, purses
      ensures Linked()
      ensures var set_ := if recoverySet.Some? then Some(recoverySet.value.id) else None;
              var w := M.WithdrawInternal(old(Abs()), purse.id, amount, set_);
              Abs() == w.ledger && r == w.result
    {
      hide AmountMath.Subtract, AmountMath.IsGTE, M.InitPayment, M.Fresh;
      var payment, covered := Debit(purse, amount);
      if covered.Err? { return Err(M.MathFailed(covered.error)); }
      if !covered.value { return Err(M.Insufficient); }
      var done := InitPayment(payment, amount, recoverySet);
      return if done.Ok? then Ok(payment) else Err(done.error);
    }

    method Withdraw(purse: Purse, amount: AllegedAmount) returns (r: Result<Payment, LedgerError>)
      requires Valid() && purse in purses
      modifies this`paymentLedger, this`paymentRecoverySets, this`nextPayment, this`history, purses
      ensures Valid() && M.Fresh(old(Abs()))
      ensures var w := M.Withdraw(old(Abs()), purse.id, amount); Abs() == w.ledger && r == w.result
    {
      hide M.Inv, M.Evolves, M.Fresh, M.WithdrawInternal, PurseStates;
      Runs.WithdrawInv(Abs(), purse.id, amount);
      var optRecoverySet := MaybeRecoverySet(purse);
      if optRecoverySet.Err? { return Err(optRecoverySet.error); }
      var coerced := Coerce(brand, amount);
      if coerced.Err? { return Err(M.MathFailed(coerced.error)); }
      r := WithdrawInternal(purse, coerced.value, optRecoverySet.value);
    }

    method GetCurrentAmount(purse: Purse) returns (amount: Amount)
      requires Linked() && purse in purses
      ensures amount == Abs().purses[purse.id].balance
    {
      amount := purse.currentBalance;
    }

    method GetRecoverySet(purse: Purse) returns (r: Result<set<Payment>, LedgerError>)
      requires Linked() && purse in purses
      ensures r == M.GetRecoverySet(Abs(), purse.id).result
    {
      var optRecoverySet := MaybeRecoverySet(purse);
      if optRecoverySet.Err? { return Err(optRecoverySet.error); }
      if optRecoverySet.value.None? { return Ok({}); }
      return Ok(purse.recoverySet);
    }

    /** `order` is what the loop visited. */
    method RecoverAll(purse: Purse) returns (r: Result<Amount, LedgerError>, ghost order: seq<Payment>)
      requires Valid() && purse in purses
      modifies this`paymentLedger, this`paymentRecoverySets, this`history, purses
      ensures Valid() && M.RecoverySetsInRange(old(Abs()))
      ensures old(recoverySetsState) == M.HasRecoverySets ==>
                M.Iterates(old(Abs()), purse.id, {}, order, AmountMath.MakeEmpty(brand, assetKind))
      ensures var w := M.RecoverAll(old(Abs()), purse.id, order); Abs() == w.ledger && r == w.result
    {
      M.SoundOf(Abs());
      order := [];
      ghost var before := Abs();
      R.RecoverAllCases(before, purse.id, order);
      hide M.Inv, M.Sound, M.Fresh, M.Conserved, M.Evolves, M.RecoverySetsInRange, M.Iterates, M.RecoverFrom, M.RecoverAll,
        M.MaybeRecoverySet, OwnerIds;
      var optRecoverySet := MaybeRecoverySet(purse);
      if optRecoverySet.Err? { return Err(optRecoverySet.error), []; }
      if optRecoverySet.value.None? { return Ok(AmountMath.MakeEmpty(brand, assetKind)), []; }
      r, order := DepositEach(purse);
      Runs.RecoverAllInv(before, purse.id, order);
      R.RecoverAllCases(before, purse.id, order);
      if r.Ok? && purse.recoverySet != {} { r := Err(M.Unrecovered); }
    }

    /**
     * The loop of recoverAll over the keys of the purse's recovery set, which each
     * turn's deposit deletes from: the next key is one that is in the set by then.
     */
    method DepositEach(purse: Purse) returns (r: Result<Amount, LedgerError>, ghost order: seq<Payment>)
      requires Linked() && purse in purses && M.RecoverySetsInRange(Abs())
      modifies this`paymentLedger, this`paymentRecoverySets, this`history, purses
      ensures Linked()
      ensures M.Iterates(old(Abs()), purse.id, {}, order, AmountMath.MakeEmpty(brand, assetKind))
      ensures var w := M.RecoverFrom(old(Abs()), purse.id, order, AmountMath.MakeEmpty(brand, assetKind));
              Abs() == w.ledger && r == w.result
    {
      hide M.Inv, M.Deposit, M.RecoverySetsInRange, M.RecoverFrom, M.Iterates, OwnerIds, AmountMath.Add, R.Reached;
      ghost var start := R.Loop(Abs(), {}, AmountMath.MakeEmpty(brand, assetKind));
      var amount := AmountMath.MakeEmpty(brand, assetKind);
      var visited: set<Payment> := {};
      order := [];
      R.ReachedStart(start, purse.id);
      while exists key :: key in purse.recoverySet && key !in visited
        invariant Linked() && M.RecoverySetsInRange(Abs())
        invariant R.Reached(start, purse.id, order, R.Loop(Abs(), visited, amount))
        decreases purse.recoverySet - visited
      {
        var key :| key in purse.recoverySet && key !in visited;
        ghost var turn := R.Loop(Abs(), visited, amount);
        R.DepositShrinksSet(Abs(), purse.id, key, purse.id);
        var delta := Deposit(purse, key, M.AnyAmount);
        if delta.Err? {
          R.ReachedThrow(start, purse.id, order, turn, key);
          return Err(delta.error), order + [key];
        }
        var sum := Add(amount, delta.value, Some(brand));
        if sum.Err? {
          R.ReachedThrow(start, purse.id, order, turn, key);
          return Err(M.MathFailed(sum.error)), order + [key];
        }
        R.ReachedTurn(start, purse.id, order, turn, key);
        amount, visited, order := sum.value, visited + {key}, order + [key];
      }
      R.ReachedEnd(start, purse.id, order, R.Loop(Abs(), visited, amount));
      return Ok(amount), order;
    }

    // ------------------------------------------------------ issuer and mint

    method IsLive(payment: Payment) returns (live: bool)
      requires Valid()
      ensures live <==> payment in Abs().live
    {
      live := payment in paymentLedger;
    }

    method GetAmountOf(payment: Payment) returns (r: Result<Amount, LedgerError>)
      requires Valid()
      ensures r == if payment in Abs().live then Ok(Abs().live[payment]) else Err(M.NotLive)
    {
      if payment !in paymentLedger { return Err(M.NotLive); }
      return Ok(paymentLedger[payment]);
    }

    method Burn(payment: Payment, optAmountShape: Amount -> bool) returns (r: Result<Amount, LedgerError>)
      requires Valid()
      modifies this`paymentLedger, this`paymentRecoverySets, this`history, purses
      ensures Valid() && M.RecoverySetsInRange(old(Abs()))
      ensures var b := M.Burn(old(Abs()), payment, optAmountShape); Abs() == b.ledger && r == b.result
    {
      M.SoundOf(Abs());
      M.BurnInv(Abs(), payment, optAmountShape);
      hide M.Inv, M.Sound, M.DeletePayment, M.RecoverySetsInRange, Holdings, PurseStates, OwnerIds;
      if payment !in paymentLedger { return Err(M.NotLive); }
      var paymentBalance := paymentLedger[payment];
      if !optAmountShape(paymentBalance) { return Err(M.ShapeMismatch); }
      // COMMIT POINT
      DeletePayment(payment);
      history := history.(burned := history.burned + Holdings(paymentBalance.value));
      assert Abs() == M.Burn(old(Abs()), payment, optAmountShape).ledger;
      return Ok(paymentBalance);
    }

    method MintPayment(newAmount: AllegedAmount, elementShape: Amount -> bool) returns (r: Result<Payment, LedgerError>)
      requires Valid()
      modifies this`paymentLedger, this`paymentRecoverySets, this`nextPayment, this`history, purses
      ensures Valid() && M.RecoverySetsInRange(old(Abs())) && M.Fresh(old(Abs()))
      ensures var m := M.MintPayment(old(Abs()), newAmount, elementShape); Abs() == m.ledger && r == m.result
    {
      M.SoundOf(Abs());
      R.MintPaymentInv(Abs(), newAmount, elementShape);
      hide M.Inv, M.Sound, M.Fresh, M.RecoverySetsInRange, M.MintCoerced, PurseStates;
      var coerced := Coerce(brand, newAmount);
      if coerced.Err? { return Err(M.MathFailed(coerced.error)); }
      if KindOf(coerced.value.value) != assetKind || !elementShape(coerced.value) { return Err(M.ShapeMismatch); }
      r := MintCoerced(coerced.value);
    }

    method MintCoerced(amount: Amount) returns (r: Result<Payment, LedgerError>)
      requires Linked() && M.Sound(Abs())
      modifies this`paymentLedger, this`paymentRecoverySets, this`nextPayment, this`history, purses
      ensures Linked() && M.RecoverySetsInRange(old(Abs())) && M.Fresh(old(Abs()))
      ensures var m := M.MintCoerced(old(Abs()), amount); Abs() == m.ledger && r == m.result
    {
      R.MintDepositedFresh(Abs(), amount);
      hide M.Inv, M.Sound, M.Fresh, M.RecoverySetsInRange, M.Deposit, M.WithdrawCoerced, M.MintCoerced, M.MintRaw, M.Exactly,
        PurseStates, OwnerIds;
      ghost var before := Abs();
      var rawPayment := MintRaw(amount);
      var mintRecoveryPurseBefore := GetCurrentAmount(mintRecoveryPurse);
      var deposited := Deposit(mintRecoveryPurse, rawPayment, M.Exactly(amount));
      R.MintAfterDeposit(before, amount, M.Outcome(Abs(), deposited));
      if deposited.Err? { return Err(deposited.error); }
      r := WithdrawCoerced(mintRecoveryPurse, amount);
      if r.Err? { return; }
      var mintRecoveryPurseAfter := GetCurrentAmount(mintRecoveryPurse);
      if mintRecoveryPurseAfter != mintRecoveryPurseBefore { return Err(M.MintPurseChanged); }
    }

    /** The payment that mintPayment deposits at once. */
    method MintRaw(amount: Amount) returns (rawPayment: Payment)
      requires Linked() && M.Fresh(Abs())
      modifies this`paymentLedger, this`paymentRecoverySets, this`nextPayment, this`history, purses
      ensures Linked() && rawPayment == old(nextPayment) && Abs() == M.MintRaw(old(Abs()), amount)
    {
      rawPayment := nextPayment;
      assert rawPayment !in Abs().live && rawPayment !in Abs().recoverySets;
      nextPayment := nextPayment + 1;
      history := history.(minted := history.minted + Holdings(amount.value));
      var _ := InitPayment(rawPayment, amount, None);
    }

    /** Withdraw, for an amount that is already coerced. */
    method WithdrawCoerced(purse: Purse, amount: Amount) returns (r: Result<Payment, LedgerError>)
      requires Linked() && purse in purses && M.Fresh(Abs())
      modifies this`paymentLedger, this`paymentRecoverySets, this`nextPayment, this`history, purses
      ensures Linked()
      ensures var w := M.WithdrawCoerced(old(Abs()), purse.id, amount); Abs() == w.ledger && r == w.result
    {
      hide M.Fresh, M.WithdrawInternal, PurseStates;
      var optRecoverySet := MaybeRecoverySet(purse);
      if optRecoverySet.Err? { return Err(optRecoverySet.error); }
      if amount.brand != brand { return Err(M.MathFailed(BrandMismatch)); }
      r := WithdrawInternal(purse, amount, optRecoverySet.value);
    }
  }
}
