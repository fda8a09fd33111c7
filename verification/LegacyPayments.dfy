/**
 * claim, combine, split and splitMany: several calls on one recovery purse, with
 * no other use of that purse in between. Each call is one atomic step; calls that
 * the source starts together are all made even when one of them throws.
 */
module LegacyPayments {
  import opened Wrappers
  import opened AmountMath
  import opened LedgerModel
  import opened MintAndRecover

  ghost function Claim(s: Ledger, i: PurseId, payment: Payment, shape: Amount -> bool): Outcome<Payment>
    requires Inv(s) && i < |s.purses|
  {
    DepositInv(s, i, payment, shape);
    var d := Deposit(s, i, payment, shape);
    if d.result.Err? then Outcome(d.ledger, Err(d.result.error))
    else WithdrawCoerced(d.ledger, i, d.result.value)
  }

  /** Every deposit is attempted; the first error is the one reported. */
  ghost function DepositAll(s: Ledger, i: PurseId, payments: seq<Payment>): Outcome<seq<Amount>>
    requires Inv(s) && i < |s.purses|
    ensures Inv(DepositAll(s, i, payments).ledger) && |DepositAll(s, i, payments).ledger.purses| == |s.purses|
    decreases |payments|
  {
    if payments == [] then Outcome(s, Ok([]))
    else
      DepositInv(s, i, payments[0], AnyAmount);
      var d := Deposit(s, i, payments[0], AnyAmount);
      var rest := DepositAll(d.ledger, i, payments[1..]);
      Outcome(rest.ledger,
              if d.result.Err? then Err(d.result.error)
              else if rest.result.Err? then rest.result
              else Ok([d.result.value] + rest.result.value))
  }

  /** amounts.reduce((x, y) => AmountMath.add(x, y, brand), acc) */
  function Reduce(acc: Amount, amounts: seq<Amount>, brand: Brand): Result<Amount, MathError>
    decreases |amounts|
  {
    if amounts == [] then Ok(acc)
    else
      var sum :- Add(acc, amounts[0], Some(brand));
      Reduce(sum, amounts[1..], brand)
  }

  ghost function Combine(s: Ledger, i: PurseId, payments: seq<Payment>, shape: Amount -> bool): Outcome<Payment>
    requires Inv(s) && i < |s.purses|
  {
    var d := DepositAll(s, i, payments);
    if d.result.Err? then Outcome(d.ledger, Err(d.result.error))
    else
      match Reduce(AmountMath.MakeEmpty(s.brand, s.kind), d.result.value, s.brand)
      case Err(why) => Outcome(d.ledger, Err(MathFailed(why)))
      case Ok(total) =>
        if !shape(total) then Outcome(d.ledger, Err(ShapeMismatch))
        else WithdrawCoerced(d.ledger, i, total)
  }

  /** Every withdrawal is attempted; the first error is the one reported. */
  ghost function WithdrawAll(s: Ledger, i: PurseId, amounts: seq<Amount>): Outcome<seq<Payment>>
    requires Inv(s) && i < |s.purses|
    ensures Inv(WithdrawAll(s, i, amounts).ledger)
    decreases |amounts|
  {
    if amounts == [] then Outcome(s, Ok([]))
    else
      WithdrawCoercedInv(s, i, amounts[0]);
      var w := WithdrawCoerced(s, i, amounts[0]);
      var rest := WithdrawAll(w.ledger, i, amounts[1..]);
      Outcome(rest.ledger,
              if w.result.Err? then Err(w.result.error)
              else if rest.result.Err? then rest.result
              else Ok([w.result.value] + rest.result.value))
  }

  ghost function Split(s: Ledger, i: PurseId, payment: Payment, paymentAmountA: AllegedAmount): Outcome<seq<Payment>>
    requires Inv(s) && i < |s.purses|
  {
    DepositInv(s, i, payment, AnyAmount);
    var d := Deposit(s, i, payment, AnyAmount);
    if d.result.Err? then Outcome(d.ledger, Err(d.result.error))
    else
      match Coerce(s.brand, paymentAmountA)
      case Err(why) => Outcome(d.ledger, Err(MathFailed(why)))
      case Ok(a) =>
        match Subtract(d.result.value, a)
        case Err(why) => Outcome(d.ledger, Err(MathFailed(why)))
        case Ok(b) => WithdrawAll(d.ledger, i, [a, b])
  }

  function CoerceEach(brand: Brand, alleged: seq<AllegedAmount>): Result<seq<Amount>, MathError>
    decreases |alleged|
  {
    if alleged == [] then Ok([])
    else
      var first :- Coerce(brand, alleged[0]);
      var rest :- CoerceEach(brand, alleged[1..]);
      Ok([first] + rest)
  }

  ghost function SplitMany(s: Ledger, i: PurseId, payment: Payment, amounts: seq<AllegedAmount>): Outcome<seq<Payment>>
    requires Inv(s) && i < |s.purses|
  {
    DepositInv(s, i, payment, AnyAmount);
    var d := Deposit(s, i, payment, AnyAmount);
    if d.result.Err? then Outcome(d.ledger, Err(d.result.error))
    else
      match CoerceEach(s.brand, amounts)
      case Err(why) => Outcome(d.ledger, Err(MathFailed(why)))
      case Ok(each) =>
        match Reduce(MakeEmptyFromAmount(d.result.value), each, s.brand)
        case Err(why) => Outcome(d.ledger, Err(MathFailed(why)))
        case Ok(total) =>
          if IsEqual(d.result.value, total) != Ok(true) then Outcome(d.ledger, Err(RightsNotConserved))
          else WithdrawAll(d.ledger, i, each)
  }

  // -------------------------------------------------------- one withdrawal

  lemma WithdrawCoercedInv(s: Ledger, i: PurseId, amount: Amount)
    requires Inv(s) && i < |s.purses|
    ensures Fresh(s) && Inv(WithdrawCoerced(s, i, amount).ledger)
    ensures |WithdrawCoerced(s, i, amount).ledger.purses| == |s.purses|
  {
    SoundOf(s);
    hide Inv, Sound, Fresh, WithdrawInternal;
    if MaybeRecoverySet(s, i).Ok? && amount.brand == s.brand {
      WithdrawInternalInv(s, i, amount);
      SamePurses(s, i, amount);
    }
  }

  lemma SamePurses(s: Ledger, i: PurseId, amount: Amount)
    requires Sound(s) && i < |s.purses| && MaybeRecoverySet(s, i).Ok?
    ensures |WithdrawInternal(s, i, amount, MaybeRecoverySet(s, i).value).ledger.purses| == |s.purses|
  {
  }

  /** The balances of all purses but one are as they were. */
  ghost predicate OthersKeepBalance(s: Ledger, i: PurseId, t: Ledger) {
    && |t.purses| == |s.purses|
    && forall j :: 0 <= j < |s.purses| && j != i ==> t.purses[j].balance == s.purses[j].balance
  }

  /** t is s with the payments `made`, holding `amounts`, taken out of purse i. */
  ghost predicate Drawn(s: Ledger, i: PurseId, amounts: seq<Amount>, made: seq<Payment>, t: Ledger)
    requires i < |s.purses|
  {
    && |made| == |amounts|
    && (forall k :: 0 <= k < |made| ==> made[k] == s.nextPayment + k)
    && t.nextPayment == s.nextPayment + |made|
    && (forall p :: p in t.live <==> p in s.live || s.nextPayment <= p < t.nextPayment)
    && (forall p :: p in s.live ==> t.live[p] == s.live[p])
    && (forall k :: 0 <= k < |made| ==> t.live[made[k]] == amounts[k])
    && OthersKeepBalance(s, i, t)
    && t.brand == s.brand && t.kind == s.kind && t.mode == s.mode
    && t.history == s.history.(origin := t.history.origin)
    && Holdings(t.purses[i].balance.value) + SumHoldings(amounts) == Holdings(s.purses[i].balance.value)
    && MapDrawn(s, i, amounts, made, t)
  }

  /** The map of recoverable payments gained the ones made that are not empty, when recovery sets are on. */
  ghost predicate MapDrawn(s: Ledger, i: PurseId, amounts: seq<Amount>, made: seq<Payment>, t: Ledger)
    requires |made| == |amounts|
  {
    && (forall p :: p in s.recoverySets ==> p in t.recoverySets && t.recoverySets[p] == s.recoverySets[p])
    && (forall p :: p in t.recoverySets ==> p in s.recoverySets || s.nextPayment <= p < t.nextPayment)
    && (forall k :: 0 <= k < |made| ==>
          && (made[k] in t.recoverySets <==> s.mode.HasRecoverySets? && !IsEmpty(amounts[k]))
          && (made[k] in t.recoverySets ==> t.recoverySets[made[k]] == i))
  }

  ghost function SumHoldings(amounts: seq<Amount>): multiset<Key> {
    if amounts == [] then multiset{} else Holdings(amounts[0].value) + SumHoldings(amounts[1..])
  }

  lemma DrawOne(s: Ledger, i: PurseId, amount: Amount)
    requires Inv(s) && i < |s.purses| && MaybeRecoverySet(s, i).Ok?
    requires amount.brand == s.brand && KindOf(amount.value) == s.kind
    requires Holdings(amount.value) <= Holdings(s.purses[i].balance.value)
    ensures Fresh(s)
    ensures var w := WithdrawCoerced(s, i, amount);
            && w.result == Ok(s.nextPayment) && Drawn(s, i, [amount], [s.nextPayment], w.ledger)
            && MaybeRecoverySet(w.ledger, i).Ok?
  {
    CoveredIsSubtracted(s, i, amount);
    FreshOf(s);
    WithdrawShape(s, i, amount);
    hide Inv, Holdings, MaybeRecoverySet, WithdrawCoerced, AmountMath.IsGTE, AmountMath.Subtract, Fresh, MapDrawn;
    assert SumHoldings([amount]) == Holdings(amount.value) + SumHoldings([]);
  }

  lemma FreshOf(s: Ledger)
    requires Inv(s)
    ensures Fresh(s) && MINT_PURSE < |s.purses|
  {
  }

  /** A covered withdrawal, table by table. */
  lemma WithdrawShape(s: Ledger, i: PurseId, amount: Amount)
    requires Fresh(s) && i < |s.purses| && MaybeRecoverySet(s, i).Ok? && amount.brand == s.brand
    requires IsGTE(s.purses[i].balance, amount) == Ok(true) && Subtract(s.purses[i].balance, amount).Ok?
    ensures var w := WithdrawCoerced(s, i, amount);
            && w.result == Ok(s.nextPayment) && w.ledger.nextPayment == s.nextPayment + 1
            && w.ledger.live == s.live[s.nextPayment := amount] && s.nextPayment !in s.live
            && OthersKeepBalance(s, i, w.ledger)
            && w.ledger.purses[i].balance == Subtract(s.purses[i].balance, amount).value
            && w.ledger.brand == s.brand && w.ledger.kind == s.kind && w.ledger.mode == s.mode
            && w.ledger.history == s.history.(origin := w.ledger.history.origin)
            && MaybeRecoverySet(w.ledger, i).Ok?
            && MapDrawn(s, i, [amount], [s.nextPayment], w.ledger)
  {
    hide AmountMath.IsGTE, AmountMath.Subtract, IsEmpty;
  }

  lemma CoveredIsSubtracted(s: Ledger, i: PurseId, amount: Amount)
    requires Inv(s) && i < |s.purses|
    requires amount.brand == s.brand && KindOf(amount.value) == s.kind
    requires Holdings(amount.value) <= Holdings(s.purses[i].balance.value)
    ensures var balance := s.purses[i].balance;
            && IsGTE(balance, amount) == Ok(true) && Subtract(balance, amount).Ok?
            && Holdings(Subtract(balance, amount).value.value) + Holdings(amount.value) == Holdings(balance.value)
  {
    BalanceKind(s, i);
    hide Inv;
    GTEIsInclusion(s.purses[i].balance, amount);
    SubtractConserves(s.purses[i].balance, amount);
  }

  /** Withdrawals whose sum the purse covers all succeed. */
  lemma {:induction false} WithdrawAllCorrect(s: Ledger, i: PurseId, amounts: seq<Amount>)
    requires Inv(s) && i < |s.purses| && MaybeRecoverySet(s, i).Ok?
    requires forall a :: a in amounts ==> a.brand == s.brand && KindOf(a.value) == s.kind
    requires SumHoldings(amounts) <= Holdings(s.purses[i].balance.value)
    ensures WithdrawAll(s, i, amounts).result.Ok?
    ensures Drawn(s, i, amounts, WithdrawAll(s, i, amounts).result.value, WithdrawAll(s, i, amounts).ledger)
    decreases |amounts|
  {
    hide Inv, Holdings, WithdrawCoerced, Fresh, MaybeRecoverySet, MapDrawn;
    if amounts != [] {
      DrawOne(s, i, amounts[0]);
      WithdrawCoercedInv(s, i, amounts[0]);
      var w := WithdrawCoerced(s, i, amounts[0]);
      FreshOf(s);
      DrawnLeaves(s, i, amounts, w.ledger);
      WithdrawAllCorrect(w.ledger, i, amounts[1..]);
      var rest := WithdrawAll(w.ledger, i, amounts[1..]);
      DrawnCompose(s, i, amounts, w.ledger, rest.result.value, rest.ledger);
    } else {
      NothingDrawn(s, i);
    }
  }

  lemma NothingDrawn(s: Ledger, i: PurseId)
    requires i < |s.purses|
    ensures Drawn(s, i, [], [], s)
  {
    hide Holdings;
    assert Holdings(s.purses[i].balance.value) + multiset{} == Holdings(s.purses[i].balance.value);
  }

  lemma DrawnLeaves(s: Ledger, i: PurseId, amounts: seq<Amount>, t: Ledger)
    requires i < |s.purses| && amounts != [] && Drawn(s, i, [amounts[0]], [s.nextPayment], t)
    requires SumHoldings(amounts) <= Holdings(s.purses[i].balance.value)
    ensures SumHoldings(amounts[1..]) <= Holdings(t.purses[i].balance.value)
  {
    hide Holdings;
    var h, left := Holdings(amounts[0].value), Holdings(t.purses[i].balance.value);
    assert SumHoldings([amounts[0]]) == h + SumHoldings([]);
    assert left + h == Holdings(s.purses[i].balance.value);
    forall k ensures SumHoldings(amounts[1..])[k] <= left[k] {
      assert (h + SumHoldings(amounts[1..]))[k] <= (left + h)[k];
    }
  }

  lemma DrawnCompose(s: Ledger, i: PurseId, amounts: seq<Amount>, t: Ledger, made: seq<Payment>, u: Ledger)
    requires i < |s.purses| && amounts != [] && Drawn(s, i, [amounts[0]], [s.nextPayment], t)
    requires Drawn(t, i, amounts[1..], made, u)
    ensures Drawn(s, i, amounts, [s.nextPayment] + made, u)
  {
    MapDrawnCompose(s, i, amounts, t, made, u);
    hide Holdings, MapDrawn;
    assert SumHoldings([amounts[0]]) == Holdings(amounts[0].value) + SumHoldings([]);
    var all := [s.nextPayment] + made;
    forall k | 0 <= k < |all| ensures all[k] == s.nextPayment + k && u.live[all[k]] == amounts[k] {
      if k > 0 { assert all[k] == made[k - 1]; assert amounts[1..][k - 1] == amounts[k]; }
      else { assert [s.nextPayment][0] == s.nextPayment && t.live[s.nextPayment] == [amounts[0]][0]; }
    }
    assert Holdings(u.purses[i].balance.value) + SumHoldings(amounts)
           == Holdings(u.purses[i].balance.value) + SumHoldings(amounts[1..]) + Holdings(amounts[0].value);
  }

  lemma MapDrawnCompose(s: Ledger, i: PurseId, amounts: seq<Amount>, t: Ledger, made: seq<Payment>, u: Ledger)
    requires amounts != [] && |made| == |amounts| - 1 && t.nextPayment == s.nextPayment + 1 && t.mode == s.mode
    requires u.nextPayment == t.nextPayment + |made| && forall k :: 0 <= k < |made| ==> made[k] == t.nextPayment + k
    requires MapDrawn(s, i, [amounts[0]], [s.nextPayment], t) && MapDrawn(t, i, amounts[1..], made, u)
    ensures MapDrawn(s, i, amounts, [s.nextPayment] + made, u)
  {
    hide IsEmpty;
    var all := [s.nextPayment] + made;
    assert [s.nextPayment][0] == s.nextPayment && [amounts[0]][0] == amounts[0];
    forall k | 0 <= k < |all|
      ensures all[k] in u.recoverySets <==> s.mode.HasRecoverySets? && !IsEmpty(amounts[k])
      ensures all[k] in u.recoverySets ==> u.recoverySets[all[k]] == i
    {
      if k > 0 { assert all[k] == made[k - 1] && amounts[1..][k - 1] == amounts[k]; }
    }
  }

  // ------------------------------------------------------------- deposits

  /** Those of `payments` whose rights DepositAll brings into the purse, in order. */
  ghost function Banked(s: Ledger, i: PurseId, payments: seq<Payment>): seq<Payment>
    requires Inv(s) && i < |s.purses|
    decreases |payments|
  {
    if payments == [] then []
    else
      DepositInv(s, i, payments[0], AnyAmount);
      var d := Deposit(s, i, payments[0], AnyAmount);
      (if d.result.Ok? then [payments[0]] else []) + Banked(d.ledger, i, payments[1..])
  }

  /** What one deposit does, seen from outside the recovery sets. */
  lemma DepositEffect(s: Ledger, i: PurseId, payment: Payment, shape: Amount -> bool)
    requires Inv(s) && i < |s.purses|
    ensures RecoverySetsInRange(s)
    ensures var d := Deposit(s, i, payment, shape);
            var t := d.ledger;
            && OthersKeepBalance(s, i, t)
            && t.brand == s.brand && t.kind == s.kind && t.mode == s.mode && t.nextPayment == s.nextPayment
            && (d.result.Ok? ==>
                  && payment in s.live && shape(s.live[payment]) && d.result.value == s.live[payment]
                  && t.live == s.live - {payment} && t.recoverySets == s.recoverySets - {payment} && t.history == s.history
                  && Add(s.purses[i].balance, s.live[payment]) == Ok(t.purses[i].balance))
            && (d.result.Err? ==> t.purses[i].balance == s.purses[i].balance)
            && (d.result.Err? && AddIsTotal(s.kind) ==> t == s)
            && (d.result.Err? ==>
                  d.result.error == if payment !in s.live then NotLive
                                    else if !shape(s.live[payment]) then ShapeMismatch else CommitFailed(Overlap))
            && KeepsMap(s, t)
            && (d.result.Ok? <==> payment in s.live && shape(s.live[payment]) && Add(s.purses[i].balance, s.live[payment]).Ok?)
  {
    if payment in s.live {
      DeletePaymentTables(s, payment);
      AddConserves(s.purses[i].balance, s.live[payment]);
    }
    hide Holdings, ModeInv, Conserved, AmountMath.Add;
  }

  /** What is still live is as recoverable as it was, and for the same purse. */
  ghost predicate KeepsMap(s: Ledger, t: Ledger) {
    && (forall p :: p in t.recoverySets ==> p in s.recoverySets && t.recoverySets[p] == s.recoverySets[p])
    && (forall p :: p in t.live && p in s.recoverySets ==> p in t.recoverySets)
  }

  /**
   * After all deposits of a combine: the balance has grown by exactly the
   * payments that were banked. For kinds with total addition every payment that
   * was used up was banked.
   */
  lemma {:induction false} DepositAllEffect(s: Ledger, i: PurseId, payments: seq<Payment>)
    requires Inv(s) && i < |s.purses|
    ensures |DepositAll(s, i, payments).ledger.purses| == |s.purses|
    ensures forall p :: p in Banked(s, i, payments) ==> p in payments && p in s.live
    ensures var t := DepositAll(s, i, payments).ledger;
            && OthersKeepBalance(s, i, t)
            && t.brand == s.brand && t.kind == s.kind && t.mode == s.mode && t.nextPayment == s.nextPayment
            && Holdings(t.purses[i].balance.value) == Holdings(s.purses[i].balance.value) + SumOver(s.live, Banked(s, i, payments))
            && (forall p :: p in t.live ==> p in s.live && t.live[p] == s.live[p] && p !in Banked(s, i, payments))
            && (AddIsTotal(s.kind) ==> t.live == s.live - AsSet(Banked(s, i, payments)) && t.history == s.history)
            && KeepsMap(s, t)
    decreases |payments|
  {
    hide Inv, Evolves, Holdings, Deposit, RecoverySetsInRange, AmountMath.Add, KeepsMap, OthersKeepBalance;
    SameKept(s, i);
    if payments != [] {
      var p := payments[0];
      DepositInv(s, i, p, AnyAmount);
      DepositEffect(s, i, p, AnyAmount);
      var d := Deposit(s, i, p, AnyAmount);
      DepositAllEffect(d.ledger, i, payments[1..]);
      DepositEvolves(s, i, p, AnyAmount);
      LiveShrinks(s, d.ledger);
      KeptTransitive(s, i, d.ledger, DepositAll(d.ledger, i, payments[1..]).ledger);
      var rest := Banked(d.ledger, i, payments[1..]);
      SumOverSame(s.live, d.ledger.live, rest);
      assert Banked(s, i, payments) == if d.result.Ok? then [p] + rest else rest;
      if d.result.Ok? {
        AddConserves(s.purses[i].balance, s.live[p]);
        SumOverCons(s.live, p, rest);
      }
      hide SumOver, Banked, DepositAll;
    } else {
      assert Holdings(s.purses[i].balance.value) + multiset{} == Holdings(s.purses[i].balance.value);
      assert s.live - AsSet([]) == s.live;
    }
  }

  lemma SumOverCons(live: map<Payment, Amount>, p: Payment, rest: seq<Payment>)
    requires p in live && forall q :: q in rest ==> q in live
    ensures SumOver(live, [p] + rest) == Holdings(live[p].value) + SumOver(live, rest)
    ensures AsSet([p] + rest) == {p} + AsSet(rest)
  {
    hide Holdings;
    assert ([p] + rest)[1..] == rest;
  }

  lemma SameKept(s: Ledger, i: PurseId)
    ensures OthersKeepBalance(s, i, s) && KeepsMap(s, s)
  {
  }

  lemma KeptTransitive(s: Ledger, i: PurseId, t: Ledger, u: Ledger)
    requires OthersKeepBalance(s, i, t) && KeepsMap(s, t) && OthersKeepBalance(t, i, u) && KeepsMap(t, u)
    requires forall p :: p in u.live ==> p in t.live
    ensures OthersKeepBalance(s, i, u) && KeepsMap(s, u)
  {
  }

  /** No payment appears or changes when no payment number is handed out. */
  lemma LiveShrinks(s: Ledger, t: Ledger)
    requires Inv(t) && Evolves(s, t) && t.nextPayment == s.nextPayment
    ensures forall p :: p in t.live ==> p in s.live && s.live[p] == t.live[p]
  {
  }

  /** When every deposit succeeds, every payment was live, and each is used up. */
  lemma {:induction false} CombineUsesUp(s: Ledger, i: PurseId, payments: seq<Payment>)
    requires Inv(s) && i < |s.purses|
    requires DepositAll(s, i, payments).result.Ok?
    ensures Banked(s, i, payments) == payments && forall p :: p in payments ==> p in s.live
    ensures DepositAll(s, i, payments).ledger.live == s.live - AsSet(payments)
    ensures DepositAll(s, i, payments).ledger.history == s.history
    ensures PairwiseDistinct(payments)
    decreases |payments|
  {
    hide Inv, Holdings, Deposit, RecoverySetsInRange, AmountMath.Add, DepositAll, Banked;
    if payments != [] {
      DepositAllCons(s, i, payments);
      DepositInv(s, i, payments[0], AnyAmount);
      DepositEffect(s, i, payments[0], AnyAmount);
      CombineUsesUp(Deposit(s, i, payments[0], AnyAmount).ledger, i, payments[1..]);
      assert [payments[0]] + payments[1..] == payments;
      assert AsSet(payments) == {payments[0]} + AsSet(payments[1..]);
      assert forall p :: p in payments[1..] ==> p != payments[0];
      PrependDistinct(payments[0], payments[1..], AsSet(payments));
    } else {
      NothingToDeposit(s, i, s.purses[i].balance);
    }
  }

  /** When every deposit succeeds, so does the total, and the purse covers it. */
  lemma {:induction false} CombineTotal(s: Ledger, i: PurseId, payments: seq<Payment>, acc: Amount)
    requires Inv(s) && i < |s.purses|
    requires acc.brand == s.brand && KindOf(acc.value) == s.kind && Holdings(acc.value) <= Holdings(s.purses[i].balance.value)
    requires DepositAll(s, i, payments).result.Ok?
    ensures forall p :: p in payments ==> p in s.live
    ensures var d := DepositAll(s, i, payments);
            var total := Reduce(acc, d.result.value, s.brand);
            && total.Ok? && total.value.brand == s.brand && KindOf(total.value.value) == s.kind
            && Holdings(total.value.value) == Holdings(acc.value) + SumOver(s.live, payments)
            && Holdings(total.value.value) <= Holdings(d.ledger.purses[i].balance.value)
    decreases |payments|
  {
    CombineUsesUp(s, i, payments);
    hide Inv, Holdings, Deposit, RecoverySetsInRange, AmountMath.Add, DepositAll, Banked, Reduce, SumOver;
    if payments != [] {
      var p := payments[0];
      DepositAllCons(s, i, payments);
      DepositInv(s, i, p, AnyAmount);
      DepositEffect(s, i, p, AnyAmount);
      var d := Deposit(s, i, p, AnyAmount);
      PaymentKind(s, i, p);
      RunningTotal(s.purses[i].balance, acc, s.live[p]);
      var sum := Add(acc, s.live[p], Some(s.brand)).value;
      CombineTotal(d.ledger, i, payments[1..], sum);
      CombineTotalCons(s, payments, acc, d.ledger, sum, DepositAll(d.ledger, i, payments[1..]).result.value);
    } else {
      NothingToDeposit(s, i, acc);
    }
  }

  lemma CombineTotalCons(s: Ledger, payments: seq<Payment>, acc: Amount, t: Ledger, sum: Amount, rest: seq<Amount>)
    requires payments != [] && forall p :: p in payments ==> p in s.live
    requires t.live == s.live - {payments[0]} && forall p :: p in payments[1..] ==> p in t.live
    requires Add(acc, s.live[payments[0]], Some(s.brand)) == Ok(sum)
    requires Holdings(sum.value) == Holdings(acc.value) + Holdings(s.live[payments[0]].value)
    ensures Reduce(acc, [s.live[payments[0]]] + rest, s.brand) == Reduce(sum, rest, s.brand)
    ensures Holdings(acc.value) + SumOver(s.live, payments) == Holdings(sum.value) + SumOver(t.live, payments[1..])
  {
    hide Holdings, AmountMath.Add;
    SumOverSame(s.live, t.live, payments[1..]);
    ReduceCons(acc, s.live[payments[0]], rest, s.brand);
  }

  lemma NothingToDeposit(s: Ledger, i: PurseId, acc: Amount)
    requires Inv(s) && i < |s.purses|
    ensures DepositAll(s, i, []) == Outcome(s, Ok([])) && Banked(s, i, []) == []
    ensures Reduce(acc, [], s.brand) == Ok(acc) && s.live - AsSet([]) == s.live
    ensures Holdings(acc.value) + SumOver(s.live, []) == Holdings(acc.value)
  {
  }

  lemma DepositAllCons(s: Ledger, i: PurseId, payments: seq<Payment>)
    requires Inv(s) && i < |s.purses| && payments != []
    ensures RecoverySetsInRange(s) && Inv(Deposit(s, i, payments[0], AnyAmount).ledger)
    ensures var d := Deposit(s, i, payments[0], AnyAmount);
            var rest := DepositAll(d.ledger, i, payments[1..]);
            && DepositAll(s, i, payments).ledger == rest.ledger
            && (DepositAll(s, i, payments).result.Ok? <==> d.result.Ok? && rest.result.Ok?)
            && (DepositAll(s, i, payments).result.Ok? ==>
                  && DepositAll(s, i, payments).result.value == [d.result.value] + rest.result.value
                  && Banked(s, i, payments) == [payments[0]] + Banked(d.ledger, i, payments[1..]))
  {
    DepositInv(s, i, payments[0], AnyAmount);
    hide Inv, Deposit, RecoverySetsInRange;
  }

  lemma ReduceCons(acc: Amount, x: Amount, xs: seq<Amount>, brand: Brand)
    requires Add(acc, x, Some(brand)).Ok?
    ensures Reduce(acc, [x] + xs, brand) == Reduce(Add(acc, x, Some(brand)).value, xs, brand)
  {
  }

  lemma BalanceKind(s: Ledger, i: PurseId)
    requires Inv(s) && i < |s.purses|
    ensures s.purses[i].balance.brand == s.brand && KindOf(s.purses[i].balance.value) == s.kind
  {
  }

  lemma PaymentKind(s: Ledger, i: PurseId, p: Payment)
    requires Inv(s) && i < |s.purses| && p in s.live
    ensures s.live[p].brand == s.brand && KindOf(s.live[p].value) == s.kind
    ensures s.purses[i].balance.brand == s.brand && KindOf(s.purses[i].balance.value) == s.kind
  {
  }

  // ---------------------------------------------------------- main results

  /** `made` came out of purse i while `used` went in, and the purse ends as it began. */
  ghost predicate Exchanged(s: Ledger, i: PurseId, used: seq<Payment>, amounts: seq<Amount>, made: seq<Payment>, t: Ledger)
    requires i < |s.purses|
  {
    && |made| == |amounts|
    && LiveExchanged(s, used, amounts, made, t)
    && OthersKeepBalance(s, i, t)
    && t.purses[i].balance == s.purses[i].balance
    && t.history == s.history.(origin := t.history.origin)
    && SetsKept(s, used, t)
    && (forall k :: 0 <= k < |made| ==>
          (made[k] in t.purses[i].recoverySet <==> s.mode.HasRecoverySets? && !IsEmpty(amounts[k])))
  }

  /** The live payments after: those not used, and fresh ones of the given amounts in their order. */
  ghost predicate LiveExchanged(s: Ledger, used: seq<Payment>, amounts: seq<Amount>, made: seq<Payment>, t: Ledger)
    requires |made| == |amounts|
  {
    && (forall k :: 0 <= k < |made| ==> made[k] == s.nextPayment + k)
    && (forall p :: p in t.live <==> (p in s.live && p !in used) || p in made)
    && (forall p :: p in s.live && p !in used ==> t.live[p] == s.live[p])
    && (forall k :: 0 <= k < |made| ==> made[k] in t.live && t.live[made[k]] == amounts[k])
  }

  /** Payments that were not used are in the recovery sets they were in, those of their purses of origin. */
  ghost predicate SetsKept(s: Ledger, used: seq<Payment>, t: Ledger) {
    && |t.purses| == |s.purses|
    && forall p, j :: p in s.live && p in t.live && p !in used && 0 <= j < |s.purses| ==>
         (p in t.purses[j].recoverySet <==> p in s.purses[j].recoverySet)
  }

  /** The sources `banked` are in purse i, nothing else happened to any balance, and nothing is lost. */
  ghost predicate OnlyBanked(s: Ledger, i: PurseId, banked: seq<Payment>, t: Ledger)
    requires i < |s.purses| && forall p :: p in banked ==> p in s.live
  {
    && t.live == s.live - AsSet(banked)
    && BankedIn(s, i, banked, t)
    && t.history == s.history && t.mode == s.mode
  }

  /** The sources `banked` are in purse i, nothing else happened to any balance, and other live payments stay where they were. */
  ghost predicate BankedIn(s: Ledger, i: PurseId, banked: seq<Payment>, t: Ledger)
    requires i < |s.purses| && forall p :: p in banked ==> p in s.live
  {
    && OthersKeepBalance(s, i, t)
    && Holdings(t.purses[i].balance.value) == Holdings(s.purses[i].balance.value) + SumOver(s.live, banked)
    && (forall p :: p in t.live ==> p in s.live && t.live[p] == s.live[p] && p !in banked)
    && SetsKept(s, banked, t)
  }

  lemma SetsFollow(s: Ledger, banked: seq<Payment>, t: Ledger)
    requires Inv(s) && Inv(t) && |t.purses| == |s.purses| && KeepsMap(s, t)
    ensures SetsKept(s, banked, t)
  {
    hide Conserved, ModeInv, WellKinded, Fresh, IsEmpty;
    forall p, j | p in s.live && p in t.live && p !in banked && 0 <= j < |s.purses|
      ensures p in t.purses[j].recoverySet <==> p in s.purses[j].recoverySet
    {
      InSetIff(s, p, j);
      InSetIff(t, p, j);
    }
  }

  lemma InSetIff(s: Ledger, p: Payment, j: PurseId)
    requires Inv(s) && j < |s.purses|
    ensures p in s.purses[j].recoverySet <==> p in s.recoverySets && s.recoverySets[p] == j
    ensures p in s.recoverySets ==> p in s.live
  {
  }

  /** Drawing from purse i exactly what was put into it is an exchange. */
  lemma Exchange(s: Ledger, i: PurseId, used: seq<Payment>, d: Ledger, amounts: seq<Amount>, made: seq<Payment>, t: Ledger)
    requires Inv(s) && Inv(d) && Inv(t) && i < |s.purses| && i < |d.purses|
    requires forall p :: p in used ==> p in s.live
    requires OnlyBanked(s, i, used, d) && d.nextPayment == s.nextPayment && d.brand == s.brand && d.kind == s.kind
    requires Drawn(d, i, amounts, made, t)
    requires SumHoldings(amounts) == SumOver(s.live, used)
    ensures Exchanged(s, i, used, amounts, made, t)
  {
    SoundOf(s);
    hide Inv, Sound, Conserved, Holdings, SumOver, SumHoldings, RecoverySetsInRange, Fresh, OthersKeepBalance, SetsKept, MapDrawn, IsEmpty,
         LiveExchanged, OnlyBanked, Drawn;
    BalanceRestored(s, i, used, d, amounts, made, t);
    ExchangedTables(s, i, used, d, amounts, made, t);
    ExchangedSets(s, i, used, d, amounts, made, t);
  }

  lemma ExchangedSets(s: Ledger, i: PurseId, used: seq<Payment>, d: Ledger, amounts: seq<Amount>, made: seq<Payment>, t: Ledger)
    requires Inv(d) && Inv(t) && i < |s.purses| && i < |d.purses|
    requires forall p :: p in used ==> p in s.live
    requires OnlyBanked(s, i, used, d) && Drawn(d, i, amounts, made, t)
    ensures |s.purses| == |t.purses| && |made| == |amounts| && SetsKept(s, used, t)
    ensures forall k :: 0 <= k < |made| ==>
              (made[k] in t.purses[i].recoverySet <==> s.mode.HasRecoverySets? && !IsEmpty(amounts[k]))
  {
    FreshOf(d);
    hide Inv, IsEmpty, Holdings, SumOver, SumHoldings, Fresh;
    assert d.live == s.live - AsSet(used) && d.mode == s.mode && SetsKept(s, used, d) && |s.purses| == |d.purses| == |t.purses|;
    assert |made| == |amounts| && MapDrawn(d, i, amounts, made, t);
    hide OnlyBanked, Drawn;
    forall p, j | p in s.live && p in t.live && p !in used && 0 <= j < |s.purses|
      ensures p in t.purses[j].recoverySet <==> p in s.purses[j].recoverySet
    {
      InSetIff(d, p, j);
      InSetIff(t, p, j);
      assert p in d.live && p < d.nextPayment;
    }
    forall k | 0 <= k < |made|
      ensures made[k] in t.purses[i].recoverySet <==> s.mode.HasRecoverySets? && !IsEmpty(amounts[k])
    {
      InSetIff(t, made[k], i);
    }
  }

  lemma BalanceRestored(s: Ledger, i: PurseId, used: seq<Payment>, d: Ledger, amounts: seq<Amount>, made: seq<Payment>, t: Ledger)
    requires Inv(s) && Inv(t) && i < |s.purses| && i < |d.purses| && i < |t.purses| && s.brand == t.brand && s.kind == t.kind
    requires forall p :: p in used ==> p in s.live
    requires OnlyBanked(s, i, used, d) && Drawn(d, i, amounts, made, t)
    requires SumHoldings(amounts) == SumOver(s.live, used)
    ensures t.purses[i].balance == s.purses[i].balance
  {
    BalanceKind(s, i);
    BalanceKind(t, i);
    var drawn := SumOver(s.live, used);
    assert Holdings(t.purses[i].balance.value) + drawn == Holdings(s.purses[i].balance.value) + drawn;
    hide Inv, Holdings, OnlyBanked, Drawn, SumOver, SumHoldings;
    Cancel(Holdings(t.purses[i].balance.value), Holdings(s.purses[i].balance.value), drawn);
    HoldingsInjective(t.purses[i].balance.value, s.purses[i].balance.value);
  }

  lemma ExchangedTables(s: Ledger, i: PurseId, used: seq<Payment>, d: Ledger, amounts: seq<Amount>, made: seq<Payment>, t: Ledger)
    requires Fresh(s) && i < |s.purses| && i < |d.purses|
    requires forall p :: p in used ==> p in s.live
    requires OnlyBanked(s, i, used, d) && d.nextPayment == s.nextPayment
    requires Drawn(d, i, amounts, made, t)
    ensures |made| == |amounts| && LiveExchanged(s, used, amounts, made, t)
    ensures OthersKeepBalance(s, i, t) && t.history == s.history.(origin := t.history.origin)
  {
    hide Holdings, SumHoldings, SumOver, SetsKept, MapDrawn;
    forall p ensures p in made <==> s.nextPayment <= p < t.nextPayment {
      if s.nextPayment <= p < t.nextPayment { assert made[p - s.nextPayment] == p; }
    }
  }

  /**
   * What a refused deposit leaves. A payment that is not live or not of the accepted
   * shape changes nothing. Any other was used up before its amount did not fit,
   * which takes a set-like kind: then its rights are lost and nothing else happened.
   */
  ghost predicate Refused(s: Ledger, payment: Payment, shape: Amount -> bool, t: Ledger) {
    if payment in s.live && shape(s.live[payment]) then
      && !AddIsTotal(s.kind)
      && t.live == s.live - {payment}
      && (forall j :: 0 <= j < |s.purses| && j < |t.purses| ==> t.purses[j].balance == s.purses[j].balance)
      && SetsKept(s, [payment], t)
      && t.history == s.history.(lost := s.history.lost + Holdings(s.live[payment].value))
      && t.nextPayment == s.nextPayment && t.mode == s.mode
    else t == s
  }

  lemma RefusedDeposit(s: Ledger, i: PurseId, payment: Payment, shape: Amount -> bool)
    requires Inv(s) && i < |s.purses|
    ensures RecoverySetsInRange(s)
    ensures Deposit(s, i, payment, shape).result.Err? ==> Refused(s, payment, shape, Deposit(s, i, payment, shape).ledger)
  {
    SoundOf(s);
    hide *;
    DepositInv(s, i, payment, shape);
    DepositEffect(s, i, payment, shape);
    var d := Deposit(s, i, payment, shape);
    if d.result.Err? { RefusedBy(s, i, payment, shape, d.ledger); }
  }

  lemma RefusedBy(s: Ledger, i: PurseId, payment: Payment, shape: Amount -> bool, t: Ledger)
    requires Inv(s) && Inv(t) && RecoverySetsInRange(s) && i < |s.purses| && KeepsMap(s, t)
    requires Deposit(s, i, payment, shape).result.Err? && t == Deposit(s, i, payment, shape).ledger
    ensures Refused(s, payment, shape, t)
  {
    if payment in s.live && shape(s.live[payment]) {
      SoundOf(s);
      hide Inv, Sound, KeepsMap, SetsKept, Holdings, RecoverySetsInRange;
      DeletePaymentTables(s, payment);
      CommitFails(s, i, payment, shape);
      SetsFollow(s, [payment], t);
    }
    hide Inv, KeepsMap, SetsKept, Holdings, RecoverySetsInRange, AmountMath.Add;
  }

  lemma CommitFails(s: Ledger, i: PurseId, payment: Payment, shape: Amount -> bool)
    requires Inv(s) && RecoverySetsInRange(s) && i < |s.purses| && payment in s.live && shape(s.live[payment])
    requires Deposit(s, i, payment, shape).result.Err?
    ensures !AddIsTotal(s.kind)
    ensures var t := DeletePayment(s, payment);
            Deposit(s, i, payment, shape).ledger
            == t.(history := s.history.(lost := s.history.lost + Holdings(s.live[payment].value)))
  {
    PaymentKind(s, i, payment);
    AddConserves(s.purses[i].balance, s.live[payment]);
    hide Inv, RecoverySetsInRange, Holdings, AmountMath.Add;
  }

  /** A successful deposit banks its payment. */
  lemma BankOne(s: Ledger, i: PurseId, payment: Payment, shape: Amount -> bool)
    requires Inv(s) && i < |s.purses|
    ensures RecoverySetsInRange(s) && Inv(Deposit(s, i, payment, shape).ledger)
    ensures var d := Deposit(s, i, payment, shape);
            && d.ledger.nextPayment == s.nextPayment && d.ledger.brand == s.brand && d.ledger.kind == s.kind
            && (Depositable(s, i, [payment]) ==> payment in s.live)
            && (d.result.Ok? <==> Depositable(s, i, [payment]) && shape(s.live[payment]))
            && (d.result.Ok? ==>
                  && payment in s.live && d.result.value == s.live[payment] && OnlyBanked(s, i, [payment], d.ledger)
                  && d.result.value.brand == s.brand && KindOf(d.result.value.value) == s.kind
                  && SumOver(s.live, [payment]) == Holdings(s.live[payment].value)
                  && Holdings(d.result.value.value) <= Holdings(d.ledger.purses[i].balance.value)
                  && (MaybeRecoverySet(d.ledger, i).Ok? <==> Unblocked(s, i, [payment])))
            && (d.result.Err? ==> Refused(s, payment, shape, d.ledger))
  {
    DepositInv(s, i, payment, shape);
    DepositEffect(s, i, payment, shape);
    RefusedDeposit(s, i, payment, shape);
    var d := Deposit(s, i, payment, shape);
    hide Refused, Inv, Holdings, Deposit, RecoverySetsInRange, AmountMath.Add, MaybeRecoverySet;
    if payment in s.live {
      PaymentKind(s, i, payment);
      AddFits(s.purses[i].balance, s.live[payment]);
      SumOverOne(s.live, payment);
    }
    if d.result.Ok? {
      AddConserves(s.purses[i].balance, s.live[payment]);
      assert AsSet([payment]) == {payment};
      SetsFollow(s, [payment], d.ledger);
      hide KeepsMap, SetsKept;
      assert OnlyBanked(s, i, [payment], d.ledger);
      UnblockedAfter(s, i, [payment], d.ledger);
    }
  }

  lemma SumOverOne(live: map<Payment, Amount>, payment: Payment)
    requires payment in live
    ensures SumOver(live, [payment]) == Holdings(live[payment].value)
  {
    assert [payment][1..] == [];
    assert SumOver(live, [payment]) == Holdings(live[payment].value) + SumOver(live, []);
  }

  /** Live payments, each given once, that the purse can hold besides its balance. */
  ghost predicate Depositable(s: Ledger, i: PurseId, payments: seq<Payment>)
    requires i < |s.purses|
  {
    && (forall p :: p in payments ==> p in s.live)
    && PairwiseDistinct(payments)
    && Fits(s.kind, Holdings(s.purses[i].balance.value) + SumOver(s.live, payments))
  }

  /** Recovery sets are on, or nothing but these payments is left over in the purse's set. */
  ghost predicate Unblocked(s: Ledger, i: PurseId, payments: seq<Payment>)
    requires i < |s.purses|
  {
    s.mode.HasRecoverySets? || forall p :: p in s.purses[i].recoverySet ==> p in payments
  }

  lemma UnblockedAfter(s: Ledger, i: PurseId, payments: seq<Payment>, d: Ledger)
    requires Inv(s) && Inv(d) && i < |s.purses| && forall p :: p in payments ==> p in s.live
    requires OnlyBanked(s, i, payments, d)
    ensures i < |d.purses| && (MaybeRecoverySet(d, i).Ok? <==> Unblocked(s, i, payments))
  {
    if s.mode.NoRecoverySets? {
      forall p ensures p in d.purses[i].recoverySet <==> p in s.purses[i].recoverySet && p !in payments {
        InSetIff(s, p, i);
        InSetIff(d, p, i);
      }
      hide Inv;
    }
  }

  /**
   * claim: exactly when it succeeds, and then a fresh payment for the used one, of
   * the same amount. When only leftovers block the withdrawal, the source is in the
   * purse; what a refused deposit leaves is as stated above.
   */
  lemma ClaimCorrect(s: Ledger, i: PurseId, payment: Payment, shape: Amount -> bool)
    requires Inv(s) && i < |s.purses|
    ensures var c := Claim(s, i, payment, shape);
            var taken := Depositable(s, i, [payment]) && shape(s.live[payment]);
            && (c.result.Ok? <==> taken && Unblocked(s, i, [payment]))
            && (c.result.Ok? ==> Exchanged(s, i, [payment], [s.live[payment]], [c.result.value], c.ledger))
            && (c.result.Err? && taken ==> OnlyBanked(s, i, [payment], c.ledger))
            && (!taken ==> Refused(s, payment, shape, c.ledger))
  {
    BankOne(s, i, payment, shape);
    hide Inv, Fresh, Holdings, Deposit, RecoverySetsInRange, OnlyBanked, Exchanged, WithdrawCoerced, MaybeRecoverySet, SumOver, Fits,
      Unblocked, PairwiseDistinct, Refused;
    var d := Deposit(s, i, payment, shape);
    if d.result.Ok? {
      if MaybeRecoverySet(d.ledger, i).Ok? {
        CombineWithdraws(s, i, [payment], d.ledger, d.result.value);
      } else {
        BlockedWithdraw(d.ledger, i, d.result.value);
      }
    }
  }

  lemma BlockedWithdraw(s: Ledger, i: PurseId, amount: Amount)
    requires Inv(s) && i < |s.purses| && MaybeRecoverySet(s, i).Err?
    ensures Fresh(s)
    ensures WithdrawCoerced(s, i, amount) == Outcome(s, Err(LeftoverRecoverySet))
  {
  }

  lemma SumHoldingsOne(a: Amount)
    ensures SumHoldings([a]) == Holdings(a.value)
    ensures forall b: Amount :: SumHoldings([a, b]) == Holdings(a.value) + Holdings(b.value)
  {
    hide Holdings;
    assert SumHoldings([a]) == Holdings(a.value) + SumHoldings([]);
    forall b: Amount ensures SumHoldings([a, b]) == Holdings(a.value) + Holdings(b.value) {
      assert [a, b][1..] == [b];
      assert SumHoldings([b]) == Holdings(b.value) + SumHoldings([]);
    }
  }

  /** After all deposits of a combine that succeed: what they add up to, and where it is. */
  lemma CombineBanks(s: Ledger, i: PurseId, payments: seq<Payment>)
    requires Inv(s) && i < |s.purses| && DepositAll(s, i, payments).result.Ok?
    ensures forall p :: p in payments ==> p in s.live
    ensures var d := DepositAll(s, i, payments);
            var total := Reduce(AmountMath.MakeEmpty(s.brand, s.kind), d.result.value, s.brand);
            && Banked(s, i, payments) == payments && OnlyBanked(s, i, payments, d.ledger)
            && d.ledger.nextPayment == s.nextPayment && d.ledger.brand == s.brand && d.ledger.kind == s.kind
            && total.Ok? && total.value.brand == s.brand && KindOf(total.value.value) == s.kind
            && Holdings(total.value.value) == SumOver(s.live, payments)
            && Holdings(total.value.value) <= Holdings(d.ledger.purses[i].balance.value)
            && (MaybeRecoverySet(d.ledger, i).Ok? <==> Unblocked(s, i, payments))
  {
    hide AmountMath.MakeEmpty, AmountMath.KindOf, Inv, Holdings, RecoverySetsInRange, SumOver, Banked, DepositAll, Reduce,
      OthersKeepBalance, KeepsMap, SetsKept, MaybeRecoverySet, Unblocked, PairwiseDistinct;
    CombineUsesUp(s, i, payments);
    DepositAllEffect(s, i, payments);
    SetsFollow(s, payments, DepositAll(s, i, payments).ledger);
    assert OnlyBanked(s, i, payments, DepositAll(s, i, payments).ledger);
    UnblockedAfter(s, i, payments, DepositAll(s, i, payments).ledger);
    EmptyIsZero(s, i, SumOver(s.live, payments));
    CombineTotal(s, i, payments, AmountMath.MakeEmpty(s.brand, s.kind));
  }

  lemma EmptyIsZero(s: Ledger, i: PurseId, sum: multiset<Key>)
    requires i < |s.purses|
    ensures var empty := AmountMath.MakeEmpty(s.brand, s.kind);
            && empty.brand == s.brand && KindOf(empty.value) == s.kind && Holdings(empty.value) + sum == sum
            && Holdings(empty.value) <= Holdings(s.purses[i].balance.value)
  {
  }

  /** All deposits succeed exactly on live payments, each given once, that fit into the purse together. */
  lemma {:induction false} DepositAllSucceedsIff(s: Ledger, i: PurseId, payments: seq<Payment>)
    requires Inv(s) && i < |s.purses|
    ensures DepositAll(s, i, payments).result.Ok? <==> Depositable(s, i, payments)
    decreases |payments|
  {
    if payments == [] {
      BalanceKind(s, i);
      AddFits(s.purses[i].balance, s.purses[i].balance);
      assert Holdings(s.purses[i].balance.value) + SumOver(s.live, []) == Holdings(s.purses[i].balance.value);
    } else {
      var p := payments[0];
      DepositAllCons(s, i, payments);
      DepositEffect(s, i, p, AnyAmount);
      var d := Deposit(s, i, p, AnyAmount);
      hide Inv, Holdings, Deposit, RecoverySetsInRange, AmountMath.Add, DepositAll, Fits, KeepsMap;
      if p in s.live {
        PaymentKind(s, i, p);
        AddFits(s.purses[i].balance, s.live[p]);
        AddConserves(s.purses[i].balance, s.live[p]);
        if d.result.Ok? {
          DepositAllSucceedsIff(d.ledger, i, payments[1..]);
          DepositableCons(s, i, payments, d.ledger);
        } else {
          NotDepositable(s, i, payments);
        }
      } else {
        assert payments[0] in payments;
      }
    }
  }

  lemma DepositableCons(s: Ledger, i: PurseId, payments: seq<Payment>, d: Ledger)
    requires i < |s.purses| && i < |d.purses| && payments != [] && payments[0] in s.live
    requires d.live == s.live - {payments[0]} && d.kind == s.kind
    requires Holdings(d.purses[i].balance.value) == Holdings(s.purses[i].balance.value) + Holdings(s.live[payments[0]].value)
    ensures Depositable(d, i, payments[1..]) <==> Depositable(s, i, payments)
  {
    hide Holdings, Fits;
    var rest := payments[1..];
    assert [payments[0]] + rest == payments;
    if Depositable(d, i, rest) || Depositable(s, i, payments) {
      assert forall p :: p in rest ==> p in payments;
      if Depositable(d, i, rest) { PrependDistinct(payments[0], rest, AsSet(payments)); }
      SumOverSame(s.live, d.live, rest);
      var balance, h := Holdings(s.purses[i].balance.value), Holdings(s.live[payments[0]].value);
      assert (balance + h) + SumOver(s.live, rest) == balance + (h + SumOver(s.live, rest));
    }
  }

  lemma NotDepositable(s: Ledger, i: PurseId, payments: seq<Payment>)
    requires i < |s.purses| && payments != [] && payments[0] in s.live
    requires !Fits(s.kind, Holdings(s.purses[i].balance.value) + Holdings(s.live[payments[0]].value))
    ensures !Depositable(s, i, payments)
  {
    hide Holdings;
    if Depositable(s, i, payments) {
      FitsPart(s.kind, Holdings(s.purses[i].balance.value) + Holdings(s.live[payments[0]].value),
               Holdings(s.purses[i].balance.value) + SumOver(s.live, payments));
    }
  }

  /** The amount of this issuer that is worth all the payments. */
  ghost predicate IsWorth(s: Ledger, payments: seq<Payment>, total: Amount)
    requires forall p :: p in payments ==> p in s.live
  {
    total.brand == s.brand && KindOf(total.value) == s.kind && Holdings(total.value) == SumOver(s.live, payments)
  }

  lemma WorthIsUnique(s: Ledger, payments: seq<Payment>, total: Amount)
    requires forall p :: p in payments ==> p in s.live
    requires IsWorth(s, payments, total)
    ensures forall other :: IsWorth(s, payments, other) ==> other == total
  {
    forall other | IsWorth(s, payments, other) ensures other == total {
      HoldingsInjective(other.value, total.value);
    }
  }

  /**
   * combine: exactly when it succeeds, and then one payment worth all the sources
   * and the purse as it was. When it fails the sources that reached the purse are
   * in it and no other live payment was touched; for kinds with total addition
   * those are all the sources used up.
   */
  lemma CombineCorrect(s: Ledger, i: PurseId, payments: seq<Payment>, shape: Amount -> bool)
    requires Inv(s) && i < |s.purses|
    ensures forall p :: p in Banked(s, i, payments) ==> p in s.live
    ensures var c := Combine(s, i, payments, shape);
            && (c.result.Ok? <==>
                  && Depositable(s, i, payments) && Unblocked(s, i, payments)
                  && exists total :: IsWorth(s, payments, total) && shape(total))
            && (c.result.Ok? ==>
                  forall total :: IsWorth(s, payments, total) ==> Exchanged(s, i, payments, [total], [c.result.value], c.ledger))
            && (c.result.Err? ==> BankedIn(s, i, Banked(s, i, payments), c.ledger))
            && (c.result.Err? && Depositable(s, i, payments) ==> OnlyBanked(s, i, payments, c.ledger))
            && (c.result.Err? && AddIsTotal(s.kind) ==> OnlyBanked(s, i, Banked(s, i, payments), c.ledger))
  {
    DepositAllBanks(s, i, payments);
    DepositAllSucceedsIff(s, i, payments);
    var d := DepositAll(s, i, payments);
    hide AmountMath.MakeEmpty, Inv, Fresh, Holdings, RecoverySetsInRange, OnlyBanked, BankedIn, Exchanged, WithdrawCoerced, MaybeRecoverySet,
      SumOver, Banked, DepositAll, Reduce, OthersKeepBalance, Unblocked, Fits, PairwiseDistinct;
    if d.result.Ok? {
      CombineBanks(s, i, payments);
      var total := Reduce(AmountMath.MakeEmpty(s.brand, s.kind), d.result.value, s.brand).value;
      WorthIsUnique(s, payments, total);
      hide IsWorth;
      if shape(total) {
        if MaybeRecoverySet(d.ledger, i).Ok? {
          CombineWithdraws(s, i, payments, d.ledger, total);
        } else {
          BlockedWithdraw(d.ledger, i, total);
        }
      }
    }
  }

  lemma DepositAllBanks(s: Ledger, i: PurseId, payments: seq<Payment>)
    requires Inv(s) && i < |s.purses|
    ensures forall p :: p in Banked(s, i, payments) ==> p in s.live
    ensures BankedIn(s, i, Banked(s, i, payments), DepositAll(s, i, payments).ledger)
    ensures AddIsTotal(s.kind) ==> OnlyBanked(s, i, Banked(s, i, payments), DepositAll(s, i, payments).ledger)
  {
    DepositAllEffect(s, i, payments);
    hide Inv, Holdings, RecoverySetsInRange, SumOver, Banked, DepositAll, KeepsMap, SetsKept;
    SetsFollow(s, Banked(s, i, payments), DepositAll(s, i, payments).ledger);
    hide OthersKeepBalance;
  }

  lemma CombineWithdraws(s: Ledger, i: PurseId, payments: seq<Payment>, d: Ledger, total: Amount)
    requires Inv(s) && Inv(d) && i < |s.purses| && i < |d.purses| && MaybeRecoverySet(d, i).Ok?
    requires forall p :: p in payments ==> p in s.live
    requires OnlyBanked(s, i, payments, d) && d.nextPayment == s.nextPayment && d.brand == s.brand && d.kind == s.kind
    requires total.brand == s.brand && KindOf(total.value) == s.kind
    requires Holdings(total.value) == SumOver(s.live, payments) && Holdings(total.value) <= Holdings(d.purses[i].balance.value)
    ensures Fresh(d)
    ensures var w := WithdrawCoerced(d, i, total);
            w.result.Ok? && Exchanged(s, i, payments, [total], [w.result.value], w.ledger)
  {
    hide Inv, Fresh, Holdings, OnlyBanked, Exchanged, WithdrawCoerced, Drawn, MaybeRecoverySet, SumOver, SumHoldings;
    DrawOne(d, i, total);
    WithdrawCoercedInv(d, i, total);
    SumHoldingsOne(total);
    Exchange(s, i, payments, d, [total], [d.nextPayment], WithdrawCoerced(d, i, total).ledger);
  }

  /** split and splitMany once the deposit is made and the amounts are known to add up to it. */
  lemma SplitWithdraws(s: Ledger, i: PurseId, payment: Payment, amounts: seq<Amount>)
    requires Inv(s) && i < |s.purses|
    requires RecoverySetsInRange(s) && Deposit(s, i, payment, AnyAmount).result.Ok?
    requires forall a :: a in amounts ==> a.brand == s.brand && KindOf(a.value) == s.kind
    requires SumHoldings(amounts) == Holdings(Deposit(s, i, payment, AnyAmount).result.value.value)
    ensures Inv(Deposit(s, i, payment, AnyAmount).ledger) && payment in s.live
    ensures var d := Deposit(s, i, payment, AnyAmount).ledger;
            var w := WithdrawAll(d, i, amounts);
            && (w.result.Ok? <==> MaybeRecoverySet(d, i).Ok? || amounts == [])
            && (w.result.Ok? ==> Exchanged(s, i, [payment], amounts, w.result.value, w.ledger))
            && (w.result.Err? ==> OnlyBanked(s, i, [payment], w.ledger))
  {
    hide Inv, Fresh, Holdings, Deposit, RecoverySetsInRange, OnlyBanked, Exchanged, WithdrawCoerced, Drawn, MaybeRecoverySet,
      SumOver, SumHoldings, WithdrawAll;
    BankOne(s, i, payment, AnyAmount);
    var d := Deposit(s, i, payment, AnyAmount).ledger;
    var w := WithdrawAll(d, i, amounts);
    if MaybeRecoverySet(d, i).Ok? {
      WithdrawAllCorrect(d, i, amounts);
      Exchange(s, i, [payment], d, amounts, w.result.value, w.ledger);
    } else {
      BlockedWithdrawAll(d, i, amounts);
      if amounts == [] {
        NothingDrawn(d, i);
        Exchange(s, i, [payment], d, amounts, [], d);
      }
    }
  }

  lemma {:induction false} BlockedWithdrawAll(s: Ledger, i: PurseId, amounts: seq<Amount>)
    requires Inv(s) && i < |s.purses| && MaybeRecoverySet(s, i).Err?
    ensures WithdrawAll(s, i, amounts)
            == Outcome(s, if amounts == [] then Ok([]) else Err(LeftoverRecoverySet))
    decreases |amounts|
  {
    hide Inv, MaybeRecoverySet, WithdrawCoerced, Fresh;
    if amounts != [] {
      BlockedWithdraw(s, i, amounts[0]);
      BlockedWithdrawAll(s, i, amounts[1..]);
    }
  }

  /**
   * split: exactly when it succeeds, and then two payments, of the requested
   * amount and of the rest, with the purse as it began.
   */
  lemma SplitCorrect(s: Ledger, i: PurseId, payment: Payment, paymentAmountA: AllegedAmount)
    requires Inv(s) && i < |s.purses|
    ensures var r := Split(s, i, payment, paymentAmountA);
            && (r.result.Ok? <==>
                  && Depositable(s, i, [payment]) && Unblocked(s, i, [payment])
                  && paymentAmountA.brand == s.brand && WellFormed(paymentAmountA.value) && KindAsked(paymentAmountA.value, s.kind)
                  && RightsAsked(paymentAmountA.value) <= Holdings(s.live[payment].value))
            && (r.result.Ok? ==>
                  && (exists a :: AsksFor(paymentAmountA, a))
                  && forall a, b :: AsksFor(paymentAmountA, a) && PartsOf(s.live[payment], a, b) ==>
                       Exchanged(s, i, [payment], [a, b], r.result.value, r.ledger))
            && (r.result.Err? && Depositable(s, i, [payment]) ==> OnlyBanked(s, i, [payment], r.ledger))
            && (!Depositable(s, i, [payment]) ==> Refused(s, payment, AnyAmount, r.ledger))
  {
    BankOne(s, i, payment, AnyAmount);
    CoerceIs(s.brand, paymentAmountA);
    hide *;
    if Depositable(s, i, [payment]) {
      SplitBanked(s, i, payment, paymentAmountA);
    } else {
      SplitRefused(s, i, payment, paymentAmountA);
    }
  }

  /** The two sides are of the amount's brand and kind and make up its rights. */
  ghost predicate PartsOf(whole: Amount, a: Amount, b: Amount) {
    && Compatible(whole, a) && Compatible(whole, b)
    && Holdings(a.value) + Holdings(b.value) == Holdings(whole.value)
  }

  lemma SplitRefused(s: Ledger, i: PurseId, payment: Payment, paymentAmountA: AllegedAmount)
    requires Inv(s) && i < |s.purses|
    ensures RecoverySetsInRange(s)
    ensures var d := Deposit(s, i, payment, AnyAmount);
            d.result.Err? ==> Split(s, i, payment, paymentAmountA) == Outcome(d.ledger, Err(d.result.error))
  {
    DepositInv(s, i, payment, AnyAmount);
    hide Inv, RecoverySetsInRange, Deposit;
  }

  lemma SplitBanked(s: Ledger, i: PurseId, payment: Payment, paymentAmountA: AllegedAmount)
    requires Inv(s) && i < |s.purses| && Depositable(s, i, [payment]) && payment in s.live
    ensures var r := Split(s, i, payment, paymentAmountA);
            && (r.result.Ok? <==>
                  && Unblocked(s, i, [payment])
                  && paymentAmountA.brand == s.brand && WellFormed(paymentAmountA.value) && KindAsked(paymentAmountA.value, s.kind)
                  && RightsAsked(paymentAmountA.value) <= Holdings(s.live[payment].value))
            && (r.result.Ok? ==>
                  && (exists a :: AsksFor(paymentAmountA, a))
                  && forall a, b :: AsksFor(paymentAmountA, a) && PartsOf(s.live[payment], a, b) ==>
                       Exchanged(s, i, [payment], [a, b], r.result.value, r.ledger))
            && (r.result.Err? ==> OnlyBanked(s, i, [payment], r.ledger))
  {
    CoerceIs(s.brand, paymentAmountA);
    CoveredIff(s, i, payment, paymentAmountA);
    hide *;
    var a := Coerce(s.brand, paymentAmountA);
    if a.Ok? && Subtract(s.live[payment], a.value).Ok? {
      var b := Subtract(s.live[payment], a.value).value;
      assert AsksFor(paymentAmountA, a.value);
      PartIsRest(s.live[payment], a.value);
      SplitCovered(s, i, payment, paymentAmountA, a.value, b);
    } else {
      SplitUncovered(s, i, payment, paymentAmountA);
    }
  }

  /** The amount asked for can be taken out of the payment iff it holds its rights. */
  lemma CoveredIff(s: Ledger, i: PurseId, payment: Payment, paymentAmountA: AllegedAmount)
    requires Inv(s) && i < |s.purses| && payment in s.live
    ensures var a := Coerce(s.brand, paymentAmountA);
            a.Ok? && Subtract(s.live[payment], a.value).Ok? <==>
            && paymentAmountA.brand == s.brand && WellFormed(paymentAmountA.value) && KindAsked(paymentAmountA.value, s.kind)
            && RightsAsked(paymentAmountA.value) <= Holdings(s.live[payment].value)
  {
    PaymentKind(s, i, payment);
    CoerceIs(s.brand, paymentAmountA);
    if Coerce(s.brand, paymentAmountA).Ok? {
      var a := Coerce(s.brand, paymentAmountA).value;
      assert AsksFor(paymentAmountA, a);
      CoveredBy(s.live[payment], a);
      SubtractCovers(s.live[payment], a);
      KindOfAsked(paymentAmountA.value, KindOf(a.value), s.kind);
    }
    hide Inv, Holdings, RightsAsked, WellFormed, KindAsked, AmountMath.Coerce, AmountMath.Subtract, AmountMath.IsGTE;
  }

  lemma KindOfAsked(specimen: Specimen, k: AssetKind, l: AssetKind)
    requires KindAsked(specimen, k)
    ensures KindAsked(specimen, l) <==> k == l
  {
  }

  lemma SplitCovered(s: Ledger, i: PurseId, payment: Payment, paymentAmountA: AllegedAmount, a: Amount, b: Amount)
    requires Inv(s) && i < |s.purses| && Depositable(s, i, [payment]) && payment in s.live
    requires Coerce(s.brand, paymentAmountA) == Ok(a) && Subtract(s.live[payment], a) == Ok(b)
    ensures var r := Split(s, i, payment, paymentAmountA);
            && (r.result.Ok? <==> Unblocked(s, i, [payment]))
            && (r.result.Ok? ==> Exchanged(s, i, [payment], [a, b], r.result.value, r.ledger))
            && (r.result.Err? ==> OnlyBanked(s, i, [payment], r.ledger))
  {
    BankOne(s, i, payment, AnyAmount);
    SubtractCovers(s.live[payment], a);
    hide Inv, Fresh, Holdings, Deposit, RecoverySetsInRange, OnlyBanked, Exchanged, MaybeRecoverySet, SumOver, SumHoldings,
      WithdrawAll, OthersKeepBalance, Depositable, Unblocked, Fits, PairwiseDistinct, AmountMath.Coerce, AmountMath.Subtract,
      AmountMath.IsGTE, Refused;
    SplitWithdraws(s, i, payment, [a, b]);
  }

  lemma SplitUncovered(s: Ledger, i: PurseId, payment: Payment, paymentAmountA: AllegedAmount)
    requires Inv(s) && i < |s.purses| && Depositable(s, i, [payment]) && payment in s.live
    requires Coerce(s.brand, paymentAmountA).Ok? ==> Subtract(s.live[payment], Coerce(s.brand, paymentAmountA).value).Err?
    ensures var r := Split(s, i, payment, paymentAmountA);
            r.result.Err? && OnlyBanked(s, i, [payment], r.ledger)
  {
    BankOne(s, i, payment, AnyAmount);
    hide Inv, Fresh, Holdings, Deposit, RecoverySetsInRange, OnlyBanked, MaybeRecoverySet, SumOver, OthersKeepBalance, Depositable,
      Unblocked, Fits, PairwiseDistinct, AmountMath.Coerce, AmountMath.Subtract, Refused;
  }

  lemma CoveredBy(whole: Amount, a: Amount)
    ensures IsGTE(whole, a) == Ok(true) <==> Compatible(whole, a) && Holdings(a.value) <= Holdings(whole.value)
  {
    GTEIsInclusion(whole, a);
  }

  /** The other part is what subtract leaves. */
  lemma PartIsRest(whole: Amount, a: Amount)
    requires Subtract(whole, a).Ok?
    ensures forall b :: PartsOf(whole, a, b) <==> b == Subtract(whole, a).value
  {
    var rest := Subtract(whole, a).value;
    SubtractConserves(whole, a);
    GTEIsInclusion(whole, a);
    hide AmountMath.Subtract, Holdings;
    forall b | PartsOf(whole, a, b) ensures b == rest {
      assert Holdings(b.value) + Holdings(a.value) == Holdings(rest.value) + Holdings(a.value);
      Cancel(Holdings(b.value), Holdings(rest.value), Holdings(a.value));
      HoldingsInjective(b.value, rest.value);
    }
    assert PartsOf(whole, a, rest);
  }

  /** What is left after taking b out of a makes up a again with b. */
  lemma SubtractCovers(a: Amount, b: Amount)
    ensures Subtract(a, b).Ok? <==> IsGTE(a, b) == Ok(true)
    ensures Subtract(a, b).Ok? ==>
              && b.brand == a.brand && KindOf(b.value) == KindOf(a.value)
              && var rest := Subtract(a, b).value;
                 && rest.brand == a.brand && KindOf(rest.value) == KindOf(a.value)
                 && SumHoldings([b, rest]) == Holdings(a.value)
  {
    SubtractConserves(a, b);
    GTEIsInclusion(a, b);
    SumHoldingsOne(b);
    hide Holdings;
  }

  /** The running total of reduce, when it never throws, is the sum of what the amounts hold. */
  lemma {:induction false} ReduceSum(acc: Amount, amounts: seq<Amount>, brand: Brand)
    requires Reduce(acc, amounts, brand).Ok?
    ensures Compatible(Reduce(acc, amounts, brand).value, acc)
    ensures Holdings(Reduce(acc, amounts, brand).value.value) == Holdings(acc.value) + SumHoldings(amounts)
    ensures forall a :: a in amounts ==> Compatible(acc, a)
    decreases |amounts|
  {
    if amounts != [] {
      AddConserves(acc, amounts[0]);
      var sum := Add(acc, amounts[0], Some(brand)).value;
      assert Add(acc, amounts[0]) == Ok(sum);
      ReduceSum(sum, amounts[1..], brand);
      assert forall a :: a in amounts ==> a == amounts[0] || a in amounts[1..];
    }
  }

  /** The amounts asked for are well formed, of this issuer's brand and kind, and these. */
  ghost predicate AllCoerced(s: Ledger, amounts: seq<AllegedAmount>, each: seq<Amount>) {
    && |each| == |amounts|
    && forall k :: 0 <= k < |amounts| ==>
         amounts[k].brand == s.brand && AsksFor(amounts[k], each[k]) && KindOf(each[k].value) == s.kind
  }

  /**
   * splitMany: exactly when it succeeds, and then payments of exactly the
   * requested amounts, each withdrawal covered by what the earlier ones left, and
   * the purse as it began.
   */
  lemma SplitManyCorrect(s: Ledger, i: PurseId, payment: Payment, amounts: seq<AllegedAmount>)
    requires Inv(s) && i < |s.purses|
    ensures var r := SplitMany(s, i, payment, amounts);
            && (r.result.Ok? <==>
                  && Depositable(s, i, [payment]) && (Unblocked(s, i, [payment]) || amounts == [])
                  && exists each :: AllCoerced(s, amounts, each) && SumHoldings(each) == Holdings(s.live[payment].value))
            && (r.result.Ok? ==>
                  forall each :: AllCoerced(s, amounts, each) ==> Exchanged(s, i, [payment], each, r.result.value, r.ledger))
            && (r.result.Err? && Depositable(s, i, [payment]) ==> OnlyBanked(s, i, [payment], r.ledger))
            && (!Depositable(s, i, [payment]) ==> Refused(s, payment, AnyAmount, r.ledger))
  {
    BankOne(s, i, payment, AnyAmount);
    SplitManyRefused(s, i, payment, amounts);
    CoerceEachIff(s, amounts);
    hide *;
    if Depositable(s, i, [payment]) {
      var a := s.live[payment];
      TotalIsSource(s, amounts, a);
      if CoerceEach(s.brand, amounts).Ok? && Reduce(MakeEmptyFromAmount(a), CoerceEach(s.brand, amounts).value, s.brand) == Ok(a) {
        SplitManyCovered(s, i, payment, amounts, CoerceEach(s.brand, amounts).value);
      } else {
        SplitManyUncovered(s, i, payment, amounts);
      }
    }
  }

  /** What a refused deposit leaves is all that is left. */
  lemma SplitManyRefused(s: Ledger, i: PurseId, payment: Payment, amounts: seq<AllegedAmount>)
    requires Inv(s) && i < |s.purses|
    ensures RecoverySetsInRange(s)
    ensures var d := Deposit(s, i, payment, AnyAmount);
            d.result.Err? ==> SplitMany(s, i, payment, amounts) == Outcome(d.ledger, Err(d.result.error))
  {
    DepositInv(s, i, payment, AnyAmount);
    hide Inv, RecoverySetsInRange, Deposit;
  }

  /** The amounts add up to the source: only leftovers can block their withdrawal. */
  lemma SplitManyCovered(s: Ledger, i: PurseId, payment: Payment, amounts: seq<AllegedAmount>, each: seq<Amount>)
    requires Inv(s) && i < |s.purses| && Depositable(s, i, [payment]) && payment in s.live
    requires CoerceEach(s.brand, amounts) == Ok(each) && (each == [] <==> amounts == [])
    requires Reduce(MakeEmptyFromAmount(s.live[payment]), each, s.brand) == Ok(s.live[payment])
    requires SumHoldings(each) == Holdings(s.live[payment].value)
    requires forall x :: x in each ==> x.brand == s.brand && KindOf(x.value) == s.kind
    ensures var r := SplitMany(s, i, payment, amounts);
            && (r.result.Ok? <==> Unblocked(s, i, [payment]) || amounts == [])
            && (r.result.Ok? ==> Exchanged(s, i, [payment], each, r.result.value, r.ledger))
            && (r.result.Err? ==> OnlyBanked(s, i, [payment], r.ledger))
  {
    BankOne(s, i, payment, AnyAmount);
    IsEqualIffSame(s.live[payment]);
    hide Inv, Fresh, Holdings, Deposit, RecoverySetsInRange, OnlyBanked, Exchanged, MaybeRecoverySet, SumOver, SumHoldings,
      WithdrawAll, Reduce, CoerceEach, MakeEmptyFromAmount, OthersKeepBalance, Depositable, Unblocked, Fits, PairwiseDistinct,
      AmountMath.IsEqual, Refused;
    SplitWithdraws(s, i, payment, each);
  }

  lemma SplitManyUncovered(s: Ledger, i: PurseId, payment: Payment, amounts: seq<AllegedAmount>)
    requires Inv(s) && i < |s.purses| && Depositable(s, i, [payment]) && payment in s.live
    requires CoerceEach(s.brand, amounts).Ok? ==>
               Reduce(MakeEmptyFromAmount(s.live[payment]), CoerceEach(s.brand, amounts).value, s.brand) != Ok(s.live[payment])
    ensures var r := SplitMany(s, i, payment, amounts);
            r.result.Err? && OnlyBanked(s, i, [payment], r.ledger)
  {
    BankOne(s, i, payment, AnyAmount);
    IsEqualIffSame(s.live[payment]);
    hide Inv, Fresh, Holdings, Deposit, RecoverySetsInRange, OnlyBanked, MaybeRecoverySet, SumOver,
      WithdrawAll, Reduce, CoerceEach, MakeEmptyFromAmount, OthersKeepBalance, Depositable, Unblocked, Fits, PairwiseDistinct,
      AmountMath.IsEqual, Refused;
  }

  /** splitMany's check that the total is the source, in terms of the amounts asked for. */
  lemma TotalIsSource(s: Ledger, amounts: seq<AllegedAmount>, a: Amount)
    requires a.brand == s.brand && KindOf(a.value) == s.kind
    ensures (exists each :: AllCoerced(s, amounts, each) && SumHoldings(each) == Holdings(a.value)) <==>
            && CoerceEach(s.brand, amounts).Ok?
            && Reduce(MakeEmptyFromAmount(a), CoerceEach(s.brand, amounts).value, s.brand) == Ok(a)
    ensures CoerceEach(s.brand, amounts).Ok? && Reduce(MakeEmptyFromAmount(a), CoerceEach(s.brand, amounts).value, s.brand) == Ok(a) ==>
              var each := CoerceEach(s.brand, amounts).value;
              SumHoldings(each) == Holdings(a.value) && forall x :: x in each ==> x.brand == s.brand && KindOf(x.value) == s.kind
  {
    CoerceEachIff(s, amounts);
    hide AllCoerced, CoerceEach, Reduce, MakeEmptyFromAmount, Holdings, SumHoldings;
    if CoerceEach(s.brand, amounts).Ok? { ReduceFromEmpty(a, CoerceEach(s.brand, amounts).value, s.brand); }
  }

  lemma IsEqualIffSame(a: Amount)
    ensures forall b :: IsEqual(a, b) == Ok(true) <==> b == a
  {
  }

  /** CoerceEach gives the only candidate for AllCoerced. */
  lemma {:induction false} CoerceEachIs(brand: Brand, amounts: seq<AllegedAmount>)
    ensures CoerceEach(brand, amounts).Ok? <==> forall k :: 0 <= k < |amounts| ==> Coerce(brand, amounts[k]).Ok?
    ensures CoerceEach(brand, amounts).Ok? ==>
              && |CoerceEach(brand, amounts).value| == |amounts|
              && forall k :: 0 <= k < |amounts| ==> Coerce(brand, amounts[k]) == Ok(CoerceEach(brand, amounts).value[k])
    decreases |amounts|
  {
    hide AmountMath.Coerce;
    if amounts != [] {
      CoerceEachIs(brand, amounts[1..]);
      assert forall k :: 0 < k < |amounts| ==> amounts[k] == amounts[1..][k - 1];
      if forall k :: 0 <= k < |amounts| ==> Coerce(brand, amounts[k]).Ok? {
        forall k | 0 <= k < |amounts| - 1 ensures Coerce(brand, amounts[1..][k]).Ok? { assert Coerce(brand, amounts[k + 1]).Ok?; }
      }
    }
  }

  lemma CoerceEachIff(s: Ledger, amounts: seq<AllegedAmount>)
    ensures forall each :: AllCoerced(s, amounts, each) ==> CoerceEach(s.brand, amounts) == Ok(each)
    ensures CoerceEach(s.brand, amounts).Ok? ==>
              var each := CoerceEach(s.brand, amounts).value;
              && (each == [] <==> amounts == [])
              && (forall x :: x in each ==> x.brand == s.brand)
              && (AllCoerced(s, amounts, each) <==> forall x :: x in each ==> KindOf(x.value) == s.kind)
  {
    CoerceEachIs(s.brand, amounts);
    forall a: AllegedAmount, x | true ensures Coerce(s.brand, a) == Ok(x) <==> a.brand == s.brand && AsksFor(a, x) { CoerceIs(s.brand, a); }
    hide AmountMath.Coerce, CoerceEach, AsksFor;
    forall each | AllCoerced(s, amounts, each) ensures CoerceEach(s.brand, amounts) == Ok(each) {
      assert forall k :: 0 <= k < |amounts| ==> Coerce(s.brand, amounts[k]) == Ok(each[k]);
      assert CoerceEach(s.brand, amounts).value == each;
    }
    if CoerceEach(s.brand, amounts).Ok? {
      var each := CoerceEach(s.brand, amounts).value;
      forall x | x in each ensures x.brand == s.brand {
        var k :| 0 <= k < |each| && each[k] == x;
        assert Coerce(s.brand, amounts[k]) == Ok(x);
        SameBrand(s.brand, amounts[k], x);
      }
    }
  }

  lemma SameBrand(brand: Brand, alleged: AllegedAmount, a: Amount)
    requires alleged.brand == brand && AsksFor(alleged, a)
    ensures a.brand == brand
  {
  }

  /** When a reduce throws: an amount of another brand or kind, or a sum that no value of the kind can hold. */
  lemma {:induction false} ReduceSucceedsIff(acc: Amount, amounts: seq<Amount>, brand: Brand)
    requires acc.brand == brand
    ensures Reduce(acc, amounts, brand).Ok? <==>
            && (forall x :: x in amounts ==> Compatible(acc, x))
            && Fits(KindOf(acc.value), Holdings(acc.value) + SumHoldings(amounts))
    decreases |amounts|
  {
    AddFits(acc, acc);
    if amounts == [] {
      assert Holdings(acc.value) + SumHoldings([]) == Holdings(acc.value);
    } else {
      var x := amounts[0];
      AddConserves(acc, x);
      assert Add(acc, x, Some(brand)).Ok? <==> Add(acc, x).Ok?;
      assert Add(acc, x).Ok? ==> Add(acc, x, Some(brand)) == Add(acc, x);
      assert x in amounts && forall y :: y in amounts ==> y == x || y in amounts[1..];
      hide Holdings, AmountMath.Add;
      if Compatible(acc, x) {
        AddFits(acc, x);
        if Add(acc, x).Ok? {
          var sum := Add(acc, x).value;
          ReduceSucceedsIff(sum, amounts[1..], brand);
          assert Compatible(sum, acc) && forall y :: Compatible(sum, y) <==> Compatible(acc, y);
          assert forall y :: y in amounts[1..] ==> y in amounts;
          assert Reduce(acc, amounts, brand) == Reduce(sum, amounts[1..], brand);
          assert Holdings(sum.value) + SumHoldings(amounts[1..]) == Holdings(acc.value) + SumHoldings(amounts);
        } else if Fits(KindOf(acc.value), Holdings(acc.value) + SumHoldings(amounts)) {
          FitsPart(KindOf(acc.value), Holdings(acc.value) + Holdings(x.value), Holdings(acc.value) + SumHoldings(amounts));
        }
      }
    }
  }

  /** The total of splitMany equals the source exactly when the amounts are of its brand and kind and hold what it holds. */
  lemma ReduceFromEmpty(a: Amount, amounts: seq<Amount>, brand: Brand)
    requires a.brand == brand
    ensures Reduce(MakeEmptyFromAmount(a), amounts, brand) == Ok(a) <==>
            && (forall x :: x in amounts ==> x.brand == a.brand && KindOf(x.value) == KindOf(a.value))
            && SumHoldings(amounts) == Holdings(a.value)
  {
    var empty := MakeEmptyFromAmount(a);
    EmptyHoldsNothing(empty);
    AddFits(a, a);
    ReduceSucceedsIff(empty, amounts, brand);
    assert multiset{} + SumHoldings(amounts) == SumHoldings(amounts);
    if Reduce(empty, amounts, brand).Ok? {
      ReduceSum(empty, amounts, brand);
      HoldingsInjective(Reduce(empty, amounts, brand).value.value, a.value);
    }
    hide Holdings;
  }
}
