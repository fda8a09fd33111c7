/**
 * The two operations built out of others: mintPayment, which deposits a raw
 * payment and withdraws it again, and recoverAll, which deposits every payment
 * of a recovery set while each deposit deletes from that set.
 */
module MintAndRecover {
  import opened Wrappers
  import opened AmountMath
  import opened LedgerModel

  // ------------------------------------------------------------ mintPayment

  /** What the raw payment leaves behind once it is deposited: a used payment number and the minted rights. */
  ghost function Minted(s: Ledger, amount: Amount): Ledger {
    s.(nextPayment := s.nextPayment + 1,
       history := s.history.(minted := s.history.minted + Holdings(amount.value)))
  }

  lemma RawPaymentIsUsedUp(s: Ledger, amount: Amount)
    requires Sound(s)
    ensures RecoverySetsInRange(MintRaw(s, amount)) && MINT_PURSE < |s.purses| && Fresh(s)
    ensures DeletePayment(MintRaw(s, amount), s.nextPayment) == Minted(s, amount)
    ensures var sum := Add(s.purses[MINT_PURSE].balance, amount);
            Deposit(MintRaw(s, amount), MINT_PURSE, s.nextPayment, Exactly(amount))
            == if sum.Ok? then Outcome(SetBalance(Minted(s, amount), MINT_PURSE, sum.value), Ok(amount))
               else Outcome(Minted(s, amount).(history := Minted(s, amount).history.(lost := s.history.lost + Holdings(amount.value))),
                            Err(CommitFailed(sum.error)))
  {
  }

  lemma MintedSound(s: Ledger, amount: Amount)
    requires Sound(s)
    ensures Sound(Minted(s, amount)) && Total(Minted(s, amount)) == Total(s)
  {
  }

  /** When mintPayment succeeds, and what each way of failing leaves behind. */
  ghost predicate MintEffect(s: Ledger, amount: Amount, t: Ledger, result: Result<Payment, LedgerError>)
    requires MINT_PURSE < |s.purses| && Fresh(s)
  {
    var sum := Add(s.purses[MINT_PURSE].balance, amount);
    var payment := s.nextPayment + 1;
    if sum.Err? then
      // set-like assets that the mint recovery purse already holds are minted and lost
      && result == Err(CommitFailed(sum.error))
      && t == Minted(s, amount).(history := t.history)
      && t.history == Minted(s, amount).history.(lost := s.history.lost + Holdings(amount.value))
    else if MaybeRecoverySet(s, MINT_PURSE).Err? then
      // without recovery sets, but with leftovers: minted into the mint recovery purse, then thrown
      && result == Err(LeftoverRecoverySet)
      && t == SetBalance(Minted(s, amount), MINT_PURSE, sum.value)
    else
      && result == Ok(payment)
      && t.brand == s.brand && t.kind == s.kind && t.baggage == s.baggage && t.mode == s.mode
      && t.live == s.live[payment := amount]
      && t.nextPayment == payment + 1
      && |t.purses| == |s.purses|
      && (forall i :: 0 <= i < |s.purses| ==> t.purses[i].balance == s.purses[i].balance)
      && t.recoverySets == (if s.mode.HasRecoverySets? && !IsEmpty(amount) then s.recoverySets[payment := MINT_PURSE] else s.recoverySets)
      && t.history == s.history.(minted := s.history.minted + Holdings(amount.value),
                                 origin := s.history.origin[payment := MINT_PURSE])
  }

  /** The element shape is asked of the coerced amount. */
  ghost predicate Mintable(s: Ledger, alleged: AllegedAmount, shape: Amount -> bool) {
    Coerce(s.brand, alleged).Ok? && KindOf(Coerce(s.brand, alleged).value.value) == s.kind
    && shape(Coerce(s.brand, alleged).value)
  }

  lemma MintPaymentCases(s: Ledger, alleged: AllegedAmount, shape: Amount -> bool)
    requires Sound(s)
    ensures RecoverySetsInRange(s) && MINT_PURSE < |s.purses| && Fresh(s)
    ensures var m := MintPayment(s, alleged, shape);
            && (!Mintable(s, alleged, shape) ==> m.result.Err? && m.ledger == s)
            && (Mintable(s, alleged, shape) ==> MintEffect(s, Coerce(s.brand, alleged).value, m.ledger, m.result))
  {
    assert RecoverySetsInRange(s) && Fresh(s);
    if Mintable(s, alleged, shape) {
      CoerceIs(s.brand, alleged);
      MintCoercedEffect(s, Coerce(s.brand, alleged).value);
    }
    hide Sound, Fresh, RecoverySetsInRange, MintCoerced, MintEffect, AmountMath.Coerce;
  }

  /**
   * mintPayment, in terms of what was asked for: it is refused without a trace
   * unless the amount is well formed, of the issuer's brand and kind and of the
   * element shape; then either it fails as stated above or the new payment holds
   * exactly the rights asked for, which are all that was minted.
   */
  lemma MintPaymentEffect(s: Ledger, alleged: AllegedAmount, shape: Amount -> bool)
    requires Sound(s)
    ensures RecoverySetsInRange(s) && MINT_PURSE < |s.purses| && Fresh(s)
    ensures var m := MintPayment(s, alleged, shape);
            var asked := RightsAsked(alleged.value);
            var purse := s.purses[MINT_PURSE];
            var accepted := alleged.brand == s.brand && KindAsked(alleged.value, s.kind)
                            && exists a :: AsksFor(alleged, a) && shape(a);
            && (!accepted ==> m.ledger == s && m.result == Err(RefusedBecause(s, alleged)))
            && (accepted ==> forall a :: AsksFor(alleged, a) ==> MintEffect(s, a, m.ledger, m.result))
            && (accepted ==> m.ledger.history.minted == s.history.minted + asked)
            && (m.result.Ok? <==>
                  && accepted && Fits(s.kind, Holdings(purse.balance.value) + asked)
                  && (s.mode.HasRecoverySets? || purse.recoverySet == {}))
            && (m.result.Ok? ==>
                  && m.result.value !in s.live && m.result.value in m.ledger.live
                  && AsksFor(alleged, m.ledger.live[m.result.value])
                  && (m.result.value in m.ledger.recoverySets <==> s.mode.HasRecoverySets? && asked != multiset{}))
  {
    MintPaymentCases(s, alleged, shape);
    CoerceIs(s.brand, alleged);
    MintKind(s);
    assert RecoverySetsInRange(s) && Fresh(s);
    if Mintable(s, alleged, shape) {
      var a := Coerce(s.brand, alleged).value;
      assert AsksFor(alleged, a);
      AddFits(s.purses[MINT_PURSE].balance, a);
      EmptyHoldsNothing(a);
      var balance := s.purses[MINT_PURSE].balance;
    } else {
      forall a | alleged.brand == s.brand && KindAsked(alleged.value, s.kind) && AsksFor(alleged, a) ensures !shape(a) {
        assert Coerce(s.brand, alleged) == Ok(a);
      }
    }
    hide Sound, RecoverySetsInRange, Holdings, RightsAsked, AmountMath.Add, AmountMath.Coerce, MintCoerced, Fits, IsEmpty, Fresh;
  }

  /** Why an amount is not minted: its brand, its form, or its kind or shape. */
  ghost function RefusedBecause(s: Ledger, alleged: AllegedAmount): LedgerError {
    if alleged.brand != s.brand then MathFailed(BrandMismatch)
    else if !WellFormed(alleged.value) then MathFailed(BadValue)
    else ShapeMismatch
  }

  lemma MintKind(s: Ledger)
    requires Sound(s)
    ensures MINT_PURSE < |s.purses|
    ensures s.purses[MINT_PURSE].balance.brand == s.brand && KindOf(s.purses[MINT_PURSE].balance.value) == s.kind
    ensures s.nextPayment + 1 !in s.live && s.nextPayment + 1 !in s.recoverySets
  {
  }

  lemma MintCoercedEffect(s: Ledger, amount: Amount)
    requires Sound(s) && amount.brand == s.brand && KindOf(amount.value) == s.kind
    ensures RecoverySetsInRange(s) && MINT_PURSE < |s.purses| && Fresh(s)
    ensures MintEffect(s, amount, MintCoerced(s, amount).ledger, MintCoerced(s, amount).result)
  {
    RawPaymentIsUsedUp(s, amount);
    var balance := s.purses[MINT_PURSE].balance;
    var sum := Add(balance, amount);
    if sum.Ok? { MintedWithdrawn(s, amount, sum.value); }
    hide Sound, Fresh, RecoverySetsInRange, Deposit, WithdrawCoerced, MintRaw, Holdings, AmountMath.Add;
  }

  /** Withdrawing what was just deposited: all balances are as before, unless leftovers block the purse. */
  lemma MintedWithdrawn(s: Ledger, amount: Amount, sum: Amount)
    requires Sound(s) && Add(s.purses[MINT_PURSE].balance, amount) == Ok(sum)
    ensures MINT_PURSE < |s.purses| && Fresh(s) && Fresh(SetBalance(Minted(s, amount), MINT_PURSE, sum))
    ensures var s2 := SetBalance(Minted(s, amount), MINT_PURSE, sum);
            var w := WithdrawCoerced(s2, MINT_PURSE, amount);
            if MaybeRecoverySet(s, MINT_PURSE).Err? then w == Outcome(s2, Err(LeftoverRecoverySet))
            else
              && w.result.Ok? && |w.ledger.purses| == |s.purses|
              && w.ledger.purses[MINT_PURSE].balance == s.purses[MINT_PURSE].balance
              && MintEffect(s, amount, w.ledger, w.result)
  {
    assert Fresh(s);
    AddThenSubtract(s.purses[MINT_PURSE].balance, amount);
    SubtractConserves(sum, amount);
    var s2 := SetBalance(Minted(s, amount), MINT_PURSE, sum);
    assert MaybeRecoverySet(s2, MINT_PURSE) == MaybeRecoverySet(s, MINT_PURSE);
    hide Sound, Holdings, IsEmpty, InitPayment, MintEffect, MaybeRecoverySet, AmountMath.Add, AmountMath.Subtract, AmountMath.IsGTE;
    if MaybeRecoverySet(s, MINT_PURSE).Ok? {
      RestoredBalance(Minted(s, amount), MINT_PURSE, sum);
      MintedAgain(s, amount);
    }
  }

  lemma RestoredBalance(s: Ledger, i: PurseId, sum: Amount)
    requires i < |s.purses|
    ensures forall n, history :: SetBalance(SetBalance(s, i, sum).(nextPayment := n, history := history), i, s.purses[i].balance)
                                 == s.(nextPayment := n, history := history)
  {
  }

  /** The withdrawn payment is recorded, with the balance as it was. */
  lemma MintedAgain(s: Ledger, amount: Amount)
    requires Sound(s) && MaybeRecoverySet(s, MINT_PURSE).Ok? && Add(s.purses[MINT_PURSE].balance, amount).Ok?
    ensures MINT_PURSE < |s.purses| && Fresh(s)
    ensures var payment := s.nextPayment + 1;
            var u := Minted(s, amount).(nextPayment := payment + 1,
                                        history := Minted(s, amount).history.(origin := s.history.origin[payment := MINT_PURSE]));
            var done := InitPayment(u, payment, amount, MaybeRecoverySet(s, MINT_PURSE).value);
            && done.result.Ok? && |done.ledger.purses| == |s.purses|
            && done.ledger.purses[MINT_PURSE].balance == s.purses[MINT_PURSE].balance
            && MintEffect(s, amount, done.ledger, Ok(payment))
  {
    assert Fresh(s);
    hide Sound, Holdings, IsEmpty, AmountMath.Add;
  }

  /** The assertion that the mint recovery purse ends as it began never fails. */
  lemma MintPurseUnchanged(s: Ledger, alleged: AllegedAmount, shape: Amount -> bool)
    requires Sound(s)
    ensures RecoverySetsInRange(s) && MINT_PURSE < |s.purses| && Fresh(s)
    ensures MintPayment(s, alleged, shape).result != Err(MintPurseChanged)
    ensures MintPayment(s, alleged, shape).result.Ok? ==>
              && Mintable(s, alleged, shape)
              && MINT_PURSE < |MintPayment(s, alleged, shape).ledger.purses|
              && MintPayment(s, alleged, shape).ledger.purses[MINT_PURSE].balance == s.purses[MINT_PURSE].balance
  {
    MintPaymentCases(s, alleged, shape);
  }

  lemma MintPaymentInv(s: Ledger, alleged: AllegedAmount, shape: Amount -> bool)
    requires Inv(s)
    ensures RecoverySetsInRange(s) && MINT_PURSE < |s.purses| && Fresh(s)
    ensures Inv(MintPayment(s, alleged, shape).ledger)
  {
    if Mintable(s, alleged, shape) {
      var amount := Coerce(s.brand, alleged).value;
      var balance := s.purses[MINT_PURSE].balance;
      assert amount.brand == s.brand;
      RawPaymentIsUsedUp(s, amount);
      MintedSound(s, amount);
      hide Sound, Total, Holdings, Deposit, MintRaw, Fresh, RecoverySetsInRange;
      var s1 := Minted(s, amount);
      DepositCommit(s1, MINT_PURSE, amount);
      if Add(balance, amount).Ok? {
        var s2 := SetBalance(s1, MINT_PURSE, Add(balance, amount).value);
        assert Conserved(s2);
        if MaybeRecoverySet(s2, MINT_PURSE).Ok? {
          WithdrawInternalInv(s2, MINT_PURSE, amount);
          WithdrawInternalResult(s2, MINT_PURSE, amount);
        }
      } else {
        HistorySound(s1, s1.history.(lost := s1.history.lost + Holdings(amount.value)));
      }
    }
  }

  lemma MintPaymentEvolves(s: Ledger, alleged: AllegedAmount, shape: Amount -> bool)
    requires Inv(s)
    ensures RecoverySetsInRange(s) && MINT_PURSE < |s.purses| && Fresh(s)
    ensures Evolves(s, MintPayment(s, alleged, shape).ledger)
  {
    assert RecoverySetsInRange(s);
    hide MintPayment, Holdings, WellKinded, ModeInv, AmountMath.Add, Conserved, AmountMath.Coerce, RecoveryInv, SetBalance, MaybeRecoverySet;
    MintPaymentCases(s, alleged, shape);
    if Mintable(s, alleged, shape) {
      MintEffectEvolves(s, Coerce(s.brand, alleged).value, MintPayment(s, alleged, shape).ledger, MintPayment(s, alleged, shape).result);
    }
  }

  lemma MintEffectEvolves(s: Ledger, amount: Amount, t: Ledger, result: Result<Payment, LedgerError>)
    requires Sound(s)
    requires MintEffect(s, amount, t, result)
    ensures Evolves(s, t)
  {
  }

  /** Between its deposit and its withdrawal, mintPayment works on tables that are sound again. */
  lemma MintDepositedFresh(s: Ledger, amount: Amount)
    requires Sound(s)
    ensures RecoverySetsInRange(s) && Fresh(s) && RecoverySetsInRange(MintRaw(s, amount)) && MINT_PURSE < |s.purses|
    ensures Fresh(Deposit(MintRaw(s, amount), MINT_PURSE, s.nextPayment, Exactly(amount)).ledger)
  {
    RawPaymentIsUsedUp(s, amount);
    hide AmountMath.Add, Deposit;
  }

  /** mintPayment once the raw payment is deposited or refused. */
  lemma MintAfterDeposit(s: Ledger, amount: Amount, d: Outcome<Amount>)
    requires MINT_PURSE < |s.purses| && RecoverySetsInRange(s) && Fresh(s) && RecoverySetsInRange(MintRaw(s, amount))
    requires d == Deposit(MintRaw(s, amount), MINT_PURSE, s.nextPayment, Exactly(amount)) && Fresh(d.ledger)
    ensures MintCoerced(s, amount)
            == if d.result.Err? then Outcome(d.ledger, Err(d.result.error))
               else MintAfterWithdrawal(MintRaw(s, amount), WithdrawCoerced(d.ledger, MINT_PURSE, amount))
  {
    hide WithdrawCoerced, Deposit, MintRaw, Fresh, RecoverySetsInRange;
  }

  function MintAfterWithdrawal(s: Ledger, w: Outcome<Payment>): Outcome<Payment>
    requires MINT_PURSE < |s.purses| && MINT_PURSE < |w.ledger.purses|
  {
    if w.result.Ok? && w.ledger.purses[MINT_PURSE].balance != s.purses[MINT_PURSE].balance
    then Outcome(w.ledger, Err(MintPurseChanged)) else w
  }

  // -------------------------------------------------------------- recoverAll

  ghost function SumOver(live: map<Payment, Amount>, payments: seq<Payment>): multiset<Key>
    requires forall p :: p in payments ==> p in live
  {
    if payments == [] then multiset{}
    else Holdings(live[payments[0]].value) + SumOver(live, payments[1..])
  }

  ghost function AsSet(payments: seq<Payment>): set<Payment> {
    set p | p in payments
  }

  ghost predicate PairwiseDistinct(payments: seq<Payment>) {
    forall a, b :: 0 <= a < b < |payments| ==> payments[a] != payments[b]
  }

  lemma {:induction false} SumOverSame(live: map<Payment, Amount>, other: map<Payment, Amount>, payments: seq<Payment>)
    requires forall p :: p in payments ==> p in live && p in other && live[p] == other[p]
    ensures SumOver(live, payments) == SumOver(other, payments)
  {
    if payments != [] { SumOverSame(live, other, payments[1..]); }
  }

  /**
   * The purse and the ledger after the loop of recoverAll has deposited `done`.
   * A failed loop has used up one more payment, whose rights are lost.
   */
  ghost predicate Recovered(s: Ledger, i: PurseId, done: seq<Payment>, t: Ledger)
    requires i < |s.purses| && forall p :: p in done ==> p in s.live
  {
    && t.live == s.live - AsSet(done)
    && t.recoverySets == s.recoverySets - AsSet(done)
    && |t.purses| == |s.purses|
    && (forall j :: 0 <= j < |s.purses| && j != i ==> t.purses[j] == s.purses[j])
    && t.purses[i].recoverySet == s.purses[i].recoverySet - AsSet(done)
    && t.brand == s.brand && t.kind == s.kind && t.baggage == s.baggage && t.mode == s.mode && t.nextPayment == s.nextPayment
  }

  ghost predicate RecoverFromEffect(s: Ledger, i: PurseId, order: seq<Payment>, amount: Amount, r: Outcome<Amount>)
    requires i < |s.purses| && forall p :: p in order ==> p in s.live
  {
    && (r.result.Ok? ==>
          && Recovered(s, i, order, r.ledger)
          && r.result.value.brand == amount.brand && KindOf(r.result.value.value) == KindOf(amount.value)
          && Holdings(r.result.value.value) == Holdings(amount.value) + SumOver(s.live, order)
          && Holdings(r.ledger.purses[i].balance.value) == Holdings(s.purses[i].balance.value) + SumOver(s.live, order)
          && r.ledger.history == s.history)
    && (r.result.Err? ==>
          && r.result == Err(CommitFailed(Overlap))
          && !AddIsTotal(s.kind)
          && exists k :: StoppedAt(s, i, order, k, r.ledger))
  }

  ghost predicate StoppedAt(s: Ledger, i: PurseId, order: seq<Payment>, k: int, t: Ledger)
    requires i < |s.purses| && forall p :: p in order ==> p in s.live
  {
    && 0 <= k < |order|
    && Recovered(s, i, order[..k + 1], t)
    && Holdings(t.purses[i].balance.value) == Holdings(s.purses[i].balance.value) + SumOver(s.live, order[..k])
    && t.history == s.history.(lost := s.history.lost + Holdings(s.live[order[k]].value))
  }

  /** One turn of the loop: a deposit of a payment of the purse's own recovery set. */
  ghost predicate RecoveredOne(s: Ledger, i: PurseId, p: Payment, d: Outcome<Amount>)
    requires i < |s.purses| && p in s.live
  {
    var sum := Add(s.purses[i].balance, s.live[p]);
    && Recovered(s, i, [p], d.ledger)
    && (d.result.Ok? <==> sum.Ok?)
    && (d.result.Ok? ==>
          d.result.value == s.live[p] && d.ledger.history == s.history && d.ledger.purses[i].balance == sum.value)
    && (d.result.Err? ==>
          && d.result == Err(CommitFailed(sum.error))
          && d.ledger.purses[i].balance == s.purses[i].balance
          && d.ledger.history == s.history.(lost := s.history.lost + Holdings(s.live[p].value)))
  }

  lemma RecoverOne(s: Ledger, i: PurseId, p: Payment)
    requires Inv(s) && i < |s.purses| && p in s.purses[i].recoverySet
    ensures RecoverySetsInRange(s) && Inv(Deposit(s, i, p, AnyAmount).ledger)
    ensures p in s.live && Compatible(s.purses[i].balance, s.live[p])
    ensures s.purses[i].balance.brand == s.brand && KindOf(s.purses[i].balance.value) == s.kind
    ensures RecoveredOne(s, i, p, Deposit(s, i, p, AnyAmount))
  {
    DepositInv(s, i, p, AnyAmount);
    OwnPayment(s, i, p);
    hide Inv, RecoveredOne;
    DepositOwn(s, i, p);
  }

  lemma OwnPayment(s: Ledger, i: PurseId, p: Payment)
    requires Inv(s) && i < |s.purses| && p in s.purses[i].recoverySet
    ensures RecoverySetsInRange(s) && p in s.recoverySets && s.recoverySets[p] == i
    ensures p in s.live && Compatible(s.purses[i].balance, s.live[p])
    ensures s.purses[i].balance.brand == s.brand && KindOf(s.purses[i].balance.value) == s.kind
  {
  }

  lemma DepositOwn(s: Ledger, i: PurseId, p: Payment)
    requires i < |s.purses| && RecoverySetsInRange(s)
    requires p in s.live && p in s.recoverySets && s.recoverySets[p] == i
    ensures RecoveredOne(s, i, p, Deposit(s, i, p, AnyAmount))
  {
    hide Holdings, AmountMath.Add;
    assert AsSet([p]) == {p};
  }

  /** The balance and the running total grow together, so the total can always be added to when the balance can. */
  lemma RunningTotal(balance: Amount, amount: Amount, delta: Amount)
    requires Compatible(balance, amount) && Compatible(balance, delta)
    requires Holdings(amount.value) <= Holdings(balance.value)
    ensures Add(balance, delta).Ok? ==>
              && Add(amount, delta, Some(balance.brand)).Ok?
              && var sum := Add(amount, delta, Some(balance.brand)).value;
                 && Compatible(sum, balance)
                 && Holdings(sum.value) == Holdings(amount.value) + Holdings(delta.value)
                 && Holdings(Add(balance, delta).value.value) == Holdings(balance.value) + Holdings(delta.value)
                 && Holdings(sum.value) <= Holdings(Add(balance, delta).value.value)
    ensures Add(balance, delta).Err? ==> Add(balance, delta).error == Overlap && !AddIsTotal(KindOf(balance.value))
  {
    AddConserves(balance, delta);
    AddConserves(amount, delta);
    AddFits(balance, delta);
    AddFits(amount, delta);
    assert Add(amount, delta, Some(balance.brand)) == Add(amount, delta);
    hide Holdings, AmountMath.Add;
    if Add(balance, delta).Ok? {
      FitsPart(KindOf(balance.value), Holdings(amount.value) + Holdings(delta.value), Holdings(balance.value) + Holdings(delta.value));
    }
  }

  /** The first turn of a loop that visits keys of the set, each once, and what it leaves for the other turns. */
  lemma RecoverFirst(s: Ledger, i: PurseId, order: seq<Payment>, amount: Amount)
    requires Inv(s) && i < |s.purses| && order != [] && PairwiseDistinct(order)
    requires forall p :: p in order ==> p in s.purses[i].recoverySet
    requires amount.brand == s.brand && KindOf(amount.value) == s.kind
    requires Holdings(amount.value) <= Holdings(s.purses[i].balance.value)
    ensures RecoverySetsInRange(s) && Inv(Deposit(s, i, order[0], AnyAmount).ledger) && order[0] in s.live
    ensures var d := Deposit(s, i, order[0], AnyAmount);
            var t := d.ledger;
            var h := Holdings(s.live[order[0]].value);
            && RecoveredOne(s, i, order[0], d) && |t.purses| == |s.purses|
            && t.brand == s.brand && t.kind == s.kind
            && (d.result.Ok? <==> Fits(s.kind, Holdings(s.purses[i].balance.value) + h))
            && (d.result.Ok? ==>
                  && d.result.value == s.live[order[0]]
                  && Add(amount, d.result.value, Some(s.brand)).Ok?
                  && var sum := Add(amount, d.result.value, Some(s.brand)).value;
                     && PairwiseDistinct(order[1..]) && (forall p :: p in order[1..] ==> p in t.purses[i].recoverySet)
                     && sum.brand == s.brand && KindOf(sum.value) == s.kind
                     && Holdings(sum.value) == Holdings(amount.value) + h
                     && Holdings(t.purses[i].balance.value) == Holdings(s.purses[i].balance.value) + h
                     && Holdings(sum.value) <= Holdings(t.purses[i].balance.value))
            && (d.result.Err? ==> d.result == Err(CommitFailed(Overlap)) && !AddIsTotal(s.kind))
  {
    RecoverOne(s, i, order[0]);
    RunningTotal(s.purses[i].balance, amount, s.live[order[0]]);
    AddFits(s.purses[i].balance, s.live[order[0]]);
    hide Inv, Deposit, Holdings, AmountMath.Add, RecoverySetsInRange, Fits;
  }

  lemma {:induction false} RecoverFromCorrect(s: Ledger, i: PurseId, order: seq<Payment>, amount: Amount)
    requires Inv(s) && i < |s.purses| && RecoverySetsInRange(s)
    requires forall p :: p in order ==> p in s.purses[i].recoverySet
    requires PairwiseDistinct(order)
    requires amount.brand == s.brand && KindOf(amount.value) == s.kind
    requires Holdings(amount.value) <= Holdings(s.purses[i].balance.value)
    ensures forall p :: p in order ==> p in s.live
    ensures RecoverFromEffect(s, i, order, amount, RecoverFrom(s, i, order, amount))
    ensures RecoverFrom(s, i, order, amount).result.Ok? <==>
            Fits(s.kind, Holdings(s.purses[i].balance.value) + SumOver(s.live, order))
    ensures Inv(RecoverFrom(s, i, order, amount).ledger)
    decreases |order|
  {
    RecoverySetIsLive(s, i);
    if order == [] {
      NothingToRecover(s, i, amount);
    } else {
      RecoverFirst(s, i, order, amount);
      var d := Deposit(s, i, order[0], AnyAmount);
      hide Inv, Deposit, RecoverySetsInRange, Holdings, AmountMath.Add, Fits, RecoverFromEffect, RecoveredOne, PairwiseDistinct;
      if d.result.Ok? {
        var sum := Add(amount, d.result.value, Some(s.brand)).value;
        RangeOf(d.ledger);
        RecoverFromCorrect(d.ledger, i, order[1..], sum);
        RecoverFromCompose(s, i, order, amount, d.ledger, sum, RecoverFrom(s, i, order, amount));
      } else {
        StoppedAtOnce(s, i, order, amount, d);
      }
    }
  }

  lemma RangeOf(s: Ledger)
    requires Inv(s)
    ensures RecoverySetsInRange(s)
  {
  }

  lemma NothingToRecover(s: Ledger, i: PurseId, amount: Amount)
    requires Inv(s) && i < |s.purses| && RecoverySetsInRange(s)
    ensures RecoverFromEffect(s, i, [], amount, RecoverFrom(s, i, [], amount))
    ensures Fits(s.kind, Holdings(s.purses[i].balance.value) + SumOver(s.live, []))
  {
    assert s.live - AsSet([]) == s.live;
    AddFits(s.purses[i].balance, s.purses[i].balance);
    assert Holdings(s.purses[i].balance.value) + SumOver(s.live, []) == Holdings(s.purses[i].balance.value);
  }

  lemma RecoverySetIsLive(s: Ledger, i: PurseId)
    requires Inv(s) && i < |s.purses|
    ensures forall p :: p in s.purses[i].recoverySet ==> p in s.live
  {
  }

  lemma StoppedAtOnce(s: Ledger, i: PurseId, order: seq<Payment>, amount: Amount, d: Outcome<Amount>)
    requires i < |s.purses| && order != [] && forall p :: p in order ==> p in s.live
    requires RecoveredOne(s, i, order[0], d) && d.result == Err(CommitFailed(Overlap)) && !AddIsTotal(s.kind)
    requires !Fits(s.kind, Holdings(s.purses[i].balance.value) + Holdings(s.live[order[0]].value))
    ensures RecoverFromEffect(s, i, order, amount, d)
    ensures !Fits(s.kind, Holdings(s.purses[i].balance.value) + SumOver(s.live, order))
  {
    hide Holdings, AmountMath.Add;
    assert order[..1] == [order[0]] && order[..0] == [];
    assert StoppedAt(s, i, order, 0, d.ledger);
    var balance, h := Holdings(s.purses[i].balance.value), Holdings(s.live[order[0]].value);
    if Fits(s.kind, balance + SumOver(s.live, order)) {
      FitsPart(s.kind, balance + h, balance + SumOver(s.live, order));
    }
  }

  /** One deposit followed by the rest of the loop is the loop. */
  lemma RecoverFromCompose(s: Ledger, i: PurseId, order: seq<Payment>, amount: Amount,
                           t: Ledger, sum: Amount, r: Outcome<Amount>)
    requires i < |s.purses| && order != [] && forall p :: p in order ==> p in s.live
    requires PairwiseDistinct(order)
    requires Recovered(s, i, [order[0]], t) && t.history == s.history
    requires Holdings(t.purses[i].balance.value) == Holdings(s.purses[i].balance.value) + Holdings(s.live[order[0]].value)
    requires sum.brand == amount.brand && KindOf(sum.value) == KindOf(amount.value)
    requires Holdings(sum.value) == Holdings(amount.value) + Holdings(s.live[order[0]].value)
    requires forall p :: p in order[1..] ==> p in t.live
    requires RecoverFromEffect(t, i, order[1..], sum, r)
    ensures RecoverFromEffect(s, i, order, amount, r)
    ensures Holdings(t.purses[i].balance.value) + SumOver(t.live, order[1..])
            == Holdings(s.purses[i].balance.value) + SumOver(s.live, order)
  {
    SumOverTail(s, t, i, order);
    assert |t.purses| == |s.purses| && t.kind == s.kind;
    hide Holdings, Recovered;
    if r.result.Ok? {
      RecoveredCompose(s, i, order, t, r.ledger);
    } else {
      var k :| StoppedAt(t, i, order[1..], k, r.ledger);
      StoppedLater(s, i, order, t, k, r.ledger);
    }
  }

  lemma SumOverTail(s: Ledger, t: Ledger, i: PurseId, order: seq<Payment>)
    requires i < |s.purses| && order != [] && forall p :: p in order ==> p in s.live
    requires Recovered(s, i, [order[0]], t) && PairwiseDistinct(order)
    ensures forall p :: p in order[1..] ==> p in t.live && t.live[p] == s.live[p]
    ensures SumOver(s.live, order) == Holdings(s.live[order[0]].value) + SumOver(t.live, order[1..])
  {
    hide Holdings;
    SumOverSame(s.live, t.live, order[1..]);
  }

  lemma StoppedLater(s: Ledger, i: PurseId, order: seq<Payment>, t: Ledger, k: int, u: Ledger)
    requires i < |s.purses| && order != [] && PairwiseDistinct(order) && forall p :: p in order ==> p in s.live
    requires Recovered(s, i, [order[0]], t) && t.history == s.history
    requires Holdings(t.purses[i].balance.value) == Holdings(s.purses[i].balance.value) + Holdings(s.live[order[0]].value)
    requires forall p :: p in order[1..] ==> p in t.live && t.live[p] == s.live[p]
    requires StoppedAt(t, i, order[1..], k, u)
    ensures StoppedAt(s, i, order, k + 1, u)
  {
    var done := order[..k + 2];
    assert order[1..][..k + 1] == done[1..] && order[1..][..k] == order[..k + 1][1..];
    RecoveredCompose(s, i, done, t, u);
    hide Holdings, Recovered;
    SumOverSame(s.live, t.live, order[1..][..k]);
  }

  lemma RecoveredCompose(s: Ledger, i: PurseId, done: seq<Payment>, t: Ledger, u: Ledger)
    requires i < |s.purses| && done != [] && forall p :: p in done ==> p in s.live
    requires Recovered(s, i, [done[0]], t)
    requires forall p :: p in done[1..] ==> p in t.live
    requires Recovered(t, i, done[1..], u)
    ensures Recovered(s, i, done, u)
  {
    assert AsSet(done) == AsSet([done[0]]) + AsSet(done[1..]);
  }

  /**
   * Iterating over the set that the deposits delete from: what is visited is in
   * the set at the start, each key at most once, and when no turn throws it is the
   * whole set.
   */
  lemma {:induction false} IterationVisitsEachOnce(s: Ledger, i: PurseId, visited: set<Payment>, order: seq<Payment>, amount: Amount)
    requires Inv(s) && i < |s.purses| && RecoverySetsInRange(s) && s.purses[i].recoverySet !! visited
    requires Iterates(s, i, visited, order, amount)
    ensures forall p :: p in order ==> p in s.purses[i].recoverySet
    ensures PairwiseDistinct(order)
    ensures RecoverFrom(s, i, order, amount).result.Ok? ==> Enumerates(order, s.purses[i].recoverySet)
    decreases |order|
  {
    hide Inv, Deposit, RecoverySetsInRange, AmountMath.Add, Holdings, PairwiseDistinct, Enumerates;
    if order != [] {
      var p := order[0];
      LeavesSet(s, i, p);
      IterateOnce(s, i, visited, order, amount);
      hide Iterates, RecoverFrom;
      var d := Deposit(s, i, p, AnyAmount);
      if |order| > 1 || RecoverFrom(s, i, order, amount).result.Ok? {
        IterationVisitsEachOnce(d.ledger, i, visited + {p}, order[1..], Add(amount, d.result.value, Some(s.brand)).value);
        PrependDistinct(p, order[1..], s.purses[i].recoverySet);
        assert [p] + order[1..] == order;
      } else {
        OneIsDistinct(order);
      }
    } else {
      OneIsDistinct(order);
      NothingLeft(s.purses[i].recoverySet, visited);
    }
  }

  /** One turn of the iteration: either it throws and is the last, or the rest iterates over what is left. */
  lemma IterateOnce(s: Ledger, i: PurseId, visited: set<Payment>, order: seq<Payment>, amount: Amount)
    requires i < |s.purses| && RecoverySetsInRange(s) && order != [] && Iterates(s, i, visited, order, amount)
    ensures order[0] in s.purses[i].recoverySet && order[0] !in visited
    ensures var d := Deposit(s, i, order[0], AnyAmount);
            var r := RecoverFrom(s, i, order, amount);
            if |order| > 1 || r.result.Ok? then
              && d.result.Ok? && Add(amount, d.result.value, Some(s.brand)).Ok?
              && var sum := Add(amount, d.result.value, Some(s.brand)).value;
                 Iterates(d.ledger, i, visited + {order[0]}, order[1..], sum) && r == RecoverFrom(d.ledger, i, order[1..], sum)
            else |order| == 1 && r.result.Err?
  {
    hide Deposit, RecoverySetsInRange, AmountMath.Add;
  }

  lemma LeavesSet(s: Ledger, i: PurseId, p: Payment)
    requires Inv(s) && i < |s.purses| && p in s.purses[i].recoverySet
    ensures RecoverySetsInRange(s)
    ensures var t := Deposit(s, i, p, AnyAmount).ledger;
            Inv(t) && |t.purses| == |s.purses| && t.purses[i].recoverySet == s.purses[i].recoverySet - {p}
  {
    RecoverOne(s, i, p);
    assert AsSet([p]) == {p};
    hide Inv, Deposit, RecoverySetsInRange;
  }

  lemma OneIsDistinct(order: seq<Payment>)
    requires |order| <= 1
    ensures PairwiseDistinct(order)
  {
  }

  lemma NothingLeft(elements: set<Payment>, visited: set<Payment>)
    requires elements !! visited
    ensures elements <= visited ==> Enumerates([], elements)
  {
  }

  lemma PrependDistinct(p: Payment, rest: seq<Payment>, elements: set<Payment>)
    requires p in elements && (forall q :: q in rest ==> q in elements - {p}) && PairwiseDistinct(rest)
    ensures PairwiseDistinct([p] + rest) && forall q :: q in [p] + rest ==> q in elements
    ensures Enumerates(rest, elements - {p}) ==> Enumerates([p] + rest, elements)
  {
    var all := [p] + rest;
    forall a, b | 0 <= a < b < |all| ensures all[a] != all[b] {
      assert all[b] == rest[b - 1] && rest[b - 1] in rest;
      if a > 0 { assert all[a] == rest[a - 1]; }
    }
  }

  /** The three ways recoverAll can go. */
  lemma RecoverAllCases(s: Ledger, i: PurseId, order: seq<Payment>)
    requires i < |s.purses| && RecoverySetsInRange(s)
    ensures var opt := MaybeRecoverySet(s, i);
            var empty := AmountMath.MakeEmpty(s.brand, s.kind);
            var loop := RecoverFrom(s, i, order, empty);
            && i < |loop.ledger.purses| && (opt.Ok? && opt.value.Some? <==> s.mode.HasRecoverySets?)
            && RecoverAll(s, i, order)
               == if opt.Err? then Outcome(s, Err(opt.error))
                  else if opt.value.None? then Outcome(s, Ok(empty))
                  else if loop.result.Ok? && loop.ledger.purses[i].recoverySet != {} then Outcome(loop.ledger, Err(Unrecovered))
                  else loop
  {
    hide RecoverFrom, RecoverySetsInRange;
  }

  /** The loop can always be run: some order of visits exists. */
  lemma {:induction false} IterationExists(s: Ledger, i: PurseId, visited: set<Payment>, amount: Amount) returns (order: seq<Payment>)
    requires Inv(s) && i < |s.purses| && RecoverySetsInRange(s)
    ensures Iterates(s, i, visited, order, amount)
    decreases s.purses[i].recoverySet
  {
    if s.purses[i].recoverySet <= visited { return []; }
    var p :| p in s.purses[i].recoverySet && p !in visited;
    RecoverOne(s, i, p);
    var d := Deposit(s, i, p, AnyAmount);
    assert AsSet([p]) == {p};
    hide Inv, Deposit, RecoverySetsInRange, AmountMath.Add, Holdings;
    if d.result.Err? || Add(amount, d.result.value, Some(s.brand)).Err? { return [p]; }
    RangeOf(d.ledger);
    var sum := Add(amount, d.result.value, Some(s.brand)).value;
    var rest := IterationExists(d.ledger, i, visited + {p}, sum);
    order := [p] + rest;
    assert order[1..] == rest;
  }

  /**
   * recoverAll: with recovery sets on, it visits the payments of the set, each
   * once, although each deposit deletes from it. It succeeds iff the purse can
   * hold them all besides its balance, and then it has emptied the set, returns
   * exactly the sum of what was in it, has raised this purse by that sum and
   * touched nothing else. It never ends with payments left over.
   */
  lemma RecoverAllCorrect(s: Ledger, i: PurseId, order: seq<Payment>)
    requires Inv(s) && i < |s.purses| && RecoverySetsInRange(s) && s.mode.HasRecoverySets?
    requires Iterates(s, i, {}, order, AmountMath.MakeEmpty(s.brand, s.kind))
    ensures PairwiseDistinct(order) && forall p :: p in order ==> p in s.purses[i].recoverySet && p in s.live
    ensures RecoverFromEffect(s, i, order, AmountMath.MakeEmpty(s.brand, s.kind), RecoverAll(s, i, order))
    ensures RecoverAll(s, i, order).result.Ok? <==>
            Fits(s.kind, Holdings(s.purses[i].balance.value) + SumOver(s.live, order))
    ensures RecoverAll(s, i, order).result.Ok? ==>
              var t := RecoverAll(s, i, order).ledger;
              && Enumerates(order, s.purses[i].recoverySet)
              && RecoverAll(s, i, order).result.value.brand == s.brand && KindOf(RecoverAll(s, i, order).result.value.value) == s.kind
              && Holdings(RecoverAll(s, i, order).result.value.value) == SumOver(s.live, order)
              && |t.purses| == |s.purses| && t.purses[i].recoverySet == {}
    ensures Inv(RecoverAll(s, i, order).ledger)
  {
    RecoverLoop(s, i, order);
    var r := RecoverFrom(s, i, order, AmountMath.MakeEmpty(s.brand, s.kind));
    assert RecoverAll(s, i, order) == r by {
      hide RecoverFromEffect, Inv, Holdings, RecoverySetsInRange, AmountMath.MakeEmpty, RecoverFrom, SumOver, Iterates, Fits, Enumerates;
    }
    hide RecoverAll, RecoverFromEffect, Inv, Holdings, RecoverySetsInRange, AmountMath.MakeEmpty, RecoverFrom, SumOver, Iterates,
      Fits, Enumerates, PairwiseDistinct;
  }

  /** The loop of recoverAll, before the check that nothing remains. */
  lemma RecoverLoop(s: Ledger, i: PurseId, order: seq<Payment>)
    requires Inv(s) && i < |s.purses| && RecoverySetsInRange(s)
    requires Iterates(s, i, {}, order, AmountMath.MakeEmpty(s.brand, s.kind))
    ensures PairwiseDistinct(order) && forall p :: p in order ==> p in s.purses[i].recoverySet && p in s.live
    ensures var empty := AmountMath.MakeEmpty(s.brand, s.kind);
            var r := RecoverFrom(s, i, order, empty);
            && RecoverFromEffect(s, i, order, empty, r)
            && (r.result.Ok? <==> Fits(s.kind, Holdings(s.purses[i].balance.value) + SumOver(s.live, order)))
            && (r.result.Ok? ==>
                  && Enumerates(order, s.purses[i].recoverySet)
                  && r.result.value.brand == s.brand && KindOf(r.result.value.value) == s.kind
                  && Holdings(r.result.value.value) == SumOver(s.live, order)
                  && |r.ledger.purses| == |s.purses| && r.ledger.purses[i].recoverySet == {})
            && Inv(r.ledger)
  {
    var empty := AmountMath.MakeEmpty(s.brand, s.kind);
    EmptyHoldsNothing(empty);
    assert Holdings(empty.value) == multiset{} && empty.brand == s.brand && KindOf(empty.value) == s.kind;
    hide Inv, Holdings, RecoverySetsInRange, AmountMath.MakeEmpty, RecoverFrom, SumOver, Iterates, Fits, PairwiseDistinct;
    IterationVisitsEachOnce(s, i, {}, order, empty);
    RecoverFromCorrect(s, i, order, empty);
    var r := RecoverFrom(s, i, order, empty);
    if r.result.Ok? {
      assert multiset{} + SumOver(s.live, order) == SumOver(s.live, order);
      AllRecovered(s, i, order, r.ledger);
    }
    hide RecoverFromEffect, Enumerates;
  }

  lemma AllRecovered(s: Ledger, i: PurseId, order: seq<Payment>, t: Ledger)
    requires i < |s.purses| && Enumerates(order, s.purses[i].recoverySet) && forall p :: p in order ==> p in s.live
    requires Recovered(s, i, order, t)
    ensures |t.purses| == |s.purses| && t.purses[i].recoverySet == {}
  {
    assert AsSet(order) == s.purses[i].recoverySet;
  }

  /** Whatever the store hands out first: if one recoverAll succeeds then so does any other, with the same outcome. */
  lemma RecoverAllOrderIrrelevant(s: Ledger, i: PurseId, order: seq<Payment>, other: seq<Payment>)
    requires Inv(s) && i < |s.purses| && RecoverySetsInRange(s) && s.mode.HasRecoverySets?
    requires Iterates(s, i, {}, order, AmountMath.MakeEmpty(s.brand, s.kind))
    requires Iterates(s, i, {}, other, AmountMath.MakeEmpty(s.brand, s.kind))
    requires RecoverAll(s, i, order).result.Ok?
    ensures RecoverAll(s, i, other) == RecoverAll(s, i, order)
  {
    hide Inv, RecoverySetsInRange, RecoverAll, Holdings, Iterates, AmountMath.MakeEmpty, SumOver, Fits, PairwiseDistinct;
    RecoverAllCorrect(s, i, order);
    RecoverAllCorrect(s, i, other);
    SumOverPart(s.live, other, order);
    FitsPart(s.kind, Holdings(s.purses[i].balance.value) + SumOver(s.live, other),
             Holdings(s.purses[i].balance.value) + SumOver(s.live, order));
    SumOverPart(s.live, order, other);
    SameRecovery(s, i, order, other, RecoverAll(s, i, order), RecoverAll(s, i, other));
  }

  lemma SameRecovery(s: Ledger, i: PurseId, order: seq<Payment>, other: seq<Payment>, r: Outcome<Amount>, q: Outcome<Amount>)
    requires i < |s.purses| && (forall p :: p in order <==> p in other) && forall p :: p in order ==> p in s.live
    requires r.result.Ok? && q.result.Ok? && SumOver(s.live, order) == SumOver(s.live, other)
    requires RecoverFromEffect(s, i, order, AmountMath.MakeEmpty(s.brand, s.kind), r)
    requires RecoverFromEffect(s, i, other, AmountMath.MakeEmpty(s.brand, s.kind), q)
    requires Inv(r.ledger) && Inv(q.ledger)
    ensures r == q
  {
    KindOfPurse(r.ledger, i);
    KindOfPurse(q.ledger, i);
    hide Inv, Holdings, SumOver;
    HoldingsInjective(r.result.value.value, q.result.value.value);
    HoldingsInjective(r.ledger.purses[i].balance.value, q.ledger.purses[i].balance.value);
    assert AsSet(order) == AsSet(other);
    assert r.ledger.purses == q.ledger.purses;
  }

  lemma KindOfPurse(s: Ledger, i: PurseId)
    requires Inv(s) && i < |s.purses|
    ensures s.purses[i].balance.brand == s.brand && KindOf(s.purses[i].balance.value) == s.kind
  {
  }

  /** Some of the payments hold no more than all of them. */
  lemma {:induction false} SumOverPart(live: map<Payment, Amount>, part: seq<Payment>, whole: seq<Payment>)
    requires PairwiseDistinct(part) && PairwiseDistinct(whole) && forall p :: p in part ==> p in whole
    requires forall p :: p in whole ==> p in live
    ensures SumOver(live, part) <= SumOver(live, whole)
    decreases |part|
  {
    hide Holdings;
    if part != [] {
      var p := part[0];
      assert p in part;
      var k :| 0 <= k < |whole| && whole[k] == p;
      SumOverExtract(live, whole, k);
      WithoutOne(part, whole, k);
      hide PairwiseDistinct;
      SumOverPart(live, part[1..], whole[..k] + whole[k + 1..]);
    }
  }

  /** Taking the first of some payments out of all of them. */
  lemma WithoutOne(part: seq<Payment>, whole: seq<Payment>, k: nat)
    requires PairwiseDistinct(part) && PairwiseDistinct(whole) && forall p :: p in part ==> p in whole
    requires part != [] && k < |whole| && whole[k] == part[0]
    ensures var rest := whole[..k] + whole[k + 1..];
            && PairwiseDistinct(part[1..]) && PairwiseDistinct(rest)
            && (forall q :: q in part[1..] ==> q in rest) && (forall q :: q in rest ==> q in whole)
  {
    var rest := whole[..k] + whole[k + 1..];
    forall q | q in part[1..] ensures q in rest {
      assert q in part && q != part[0];
      var j :| 0 <= j < |whole| && whole[j] == q;
      assert q == if j < k then whole[..k][j] else whole[k + 1..][j - k - 1];
    }
    assert forall a, b :: 0 <= a < b < |rest| ==>
      rest[a] == whole[if a < k then a else a + 1] && rest[b] == whole[if b < k then b else b + 1];
  }

  // ------------------------------------------------ the loop, turn by turn

  /** Where the loop of recoverAll is: the ledger, the keys visited and the running sum. */
  datatype Loop = Loop(ledger: Ledger, visited: set<Payment>, amount: Amount)

  ghost predicate CanRun(at: Loop, i: PurseId) {
    i < |at.ledger.purses| && RecoverySetsInRange(at.ledger)
  }

  /** However the loop goes on from `at`, it is a loop from `start` that visited `order` first. */
  ghost predicate Reached(start: Loop, i: PurseId, order: seq<Payment>, at: Loop) {
    && CanRun(start, i) && CanRun(at, i)
    && forall rest :: Iterates(at.ledger, i, at.visited, rest, at.amount) ==>
         && Iterates(start.ledger, i, start.visited, order + rest, start.amount)
         && RecoverFrom(start.ledger, i, order + rest, start.amount) == RecoverFrom(at.ledger, i, rest, at.amount)
  }

  lemma ReachedStart(start: Loop, i: PurseId)
    requires CanRun(start, i)
    ensures Reached(start, i, [], start)
  {
    hide Iterates, RecoverFrom, RecoverySetsInRange;
    assert forall rest: seq<Payment> :: [] + rest == rest;
  }

  lemma ReachedTurn(start: Loop, i: PurseId, order: seq<Payment>, at: Loop, key: Payment)
    requires Reached(start, i, order, at) && key in at.ledger.purses[i].recoverySet && key !in at.visited
    requires var d := Deposit(at.ledger, i, key, AnyAmount);
             d.result.Ok? && Add(at.amount, d.result.value, Some(at.ledger.brand)).Ok?
    ensures var d := Deposit(at.ledger, i, key, AnyAmount);
            Reached(start, i, order + [key],
                    Loop(d.ledger, at.visited + {key}, Add(at.amount, d.result.value, Some(at.ledger.brand)).value))
  {
    hide Deposit, AmountMath.Add, RecoverySetsInRange;
    var d := Deposit(at.ledger, i, key, AnyAmount);
    var sum := Add(at.amount, d.result.value, Some(at.ledger.brand)).value;
    forall rest | Iterates(d.ledger, i, at.visited + {key}, rest, sum)
      ensures Iterates(start.ledger, i, start.visited, (order + [key]) + rest, start.amount)
      ensures RecoverFrom(start.ledger, i, (order + [key]) + rest, start.amount) == RecoverFrom(d.ledger, i, rest, sum)
    {
      var longer := [key] + rest;
      assert longer[0] == key && longer[1..] == rest;
      assert Iterates(at.ledger, i, at.visited, longer, at.amount);
      assert order + longer == (order + [key]) + rest;
    }
  }

  lemma ReachedThrow(start: Loop, i: PurseId, order: seq<Payment>, at: Loop, key: Payment)
    requires Reached(start, i, order, at) && key in at.ledger.purses[i].recoverySet && key !in at.visited
    requires var d := Deposit(at.ledger, i, key, AnyAmount);
             d.result.Err? || Add(at.amount, d.result.value, Some(at.ledger.brand)).Err?
    ensures Iterates(start.ledger, i, start.visited, order + [key], start.amount)
    ensures var d := Deposit(at.ledger, i, key, AnyAmount);
            RecoverFrom(start.ledger, i, order + [key], start.amount)
            == if d.result.Err? then d
               else Outcome(d.ledger, Err(MathFailed(Add(at.amount, d.result.value, Some(at.ledger.brand)).error)))
  {
    hide Deposit, AmountMath.Add, RecoverySetsInRange;
    assert Iterates(at.ledger, i, at.visited, [key], at.amount);
  }

  lemma ReachedEnd(start: Loop, i: PurseId, order: seq<Payment>, at: Loop)
    requires Reached(start, i, order, at) && at.ledger.purses[i].recoverySet <= at.visited
    ensures Iterates(start.ledger, i, start.visited, order, start.amount)
    ensures RecoverFrom(start.ledger, i, order, start.amount) == Outcome(at.ledger, Ok(at.amount))
  {
    hide Deposit, AmountMath.Add, RecoverySetsInRange;
    assert Iterates(at.ledger, i, at.visited, [], at.amount);
    assert order + [] == order;
  }

  /** A deposit adds to no recovery set. */
  lemma DepositShrinksSet(s: Ledger, i: PurseId, payment: Payment, j: PurseId)
    requires i < |s.purses| && j < |s.purses| && RecoverySetsInRange(s)
    ensures Deposit(s, i, payment, AnyAmount).ledger.purses[j].recoverySet <= s.purses[j].recoverySet
  {
    hide AmountMath.Add, Holdings;
  }

  lemma {:induction false} SumOverExtract(live: map<Payment, Amount>, payments: seq<Payment>, k: nat)
    requires k < |payments| && forall p :: p in payments ==> p in live
    ensures SumOver(live, payments) == Holdings(live[payments[k]].value) + SumOver(live, payments[..k] + payments[k + 1..])
  {
    hide Holdings;
    var rest := payments[..k] + payments[k + 1..];
    if k == 0 {
      assert rest == payments[1..];
    } else {
      SumOverExtract(live, payments[1..], k - 1);
      assert rest[1..] == payments[1..][..k - 1] + payments[1..][k..];
      assert rest[0] == payments[0];
    }
  }
}
