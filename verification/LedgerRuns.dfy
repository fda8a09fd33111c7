/**
 * What holds over every run of an issuer: any sequence of calls on it, including
 * calls that throw, and upgrades that change the recovery-set mode.
 */
module LedgerRuns {
  import opened Wrappers
  import opened AmountMath
  import opened LedgerModel
  import opened MintAndRecover

  datatype Command =
    | DoUpgrade(option: Option<RecoverySetsOption>)
    | DoMakeEmptyPurse
    | DoMint(newAmount: AllegedAmount, elementShape: Amount -> bool)
    | DoDeposit(purse: PurseId, payment: Payment, shape: Amount -> bool)
    | DoWithdraw(purse: PurseId, amount: AllegedAmount)
    | DoBurn(payment: Payment, shape: Amount -> bool)
    | DoRecoverAll(purse: PurseId, order: seq<Payment>)
    | DoGetRecoverySet(purse: PurseId)

  /** Calls name a purse that exists, and `order` is what the loop of recoverAll visits. */
  ghost predicate Callable(s: Ledger, c: Command) {
    match c
    case DoDeposit(i, _, _) => i < |s.purses|
    case DoWithdraw(i, _) => i < |s.purses|
    case DoGetRecoverySet(i) => i < |s.purses|
    case DoRecoverAll(i, order) =>
      && i < |s.purses| && RecoverySetsInRange(s)
      && (s.mode.HasRecoverySets? ==> Iterates(s, i, {}, order, AmountMath.MakeEmpty(s.brand, s.kind)))
    case _ => true
  }

  ghost function Apply(s: Ledger, c: Command): Ledger
    requires Inv(s) && Callable(s, c)
  {
    match c
    case DoUpgrade(option) => Upgrade(s, option).ledger
    case DoMakeEmptyPurse => LedgerModel.MakeEmptyPurse(s).ledger
    case DoMint(alleged, shape) => MintPayment(s, alleged, shape).ledger
    case DoDeposit(i, payment, shape) => Deposit(s, i, payment, shape).ledger
    case DoWithdraw(i, alleged) => Withdraw(s, i, alleged).ledger
    case DoBurn(payment, shape) => Burn(s, payment, shape).ledger
    case DoRecoverAll(i, order) => RecoverAll(s, i, order).ledger
    case DoGetRecoverySet(i) => GetRecoverySet(s, i).ledger
  }

  lemma EvolvesTransitive(s: Ledger, t: Ledger, u: Ledger)
    requires Evolves(s, t) && Evolves(t, u) && Fresh(s)
    ensures Evolves(s, u)
  {
  }

  lemma EvolvesReflexive(s: Ledger)
    ensures Evolves(s, s)
  {
  }

  lemma WithdrawInv(s: Ledger, i: PurseId, alleged: AllegedAmount)
    requires Inv(s) && i < |s.purses|
    ensures Fresh(s) && Inv(Withdraw(s, i, alleged).ledger) && Evolves(s, Withdraw(s, i, alleged).ledger)
  {
    assert Fresh(s);
    EvolvesReflexive(s);
    hide Inv, Sound, Evolves, Fresh, WithdrawInternal;
    if MaybeRecoverySet(s, i).Ok? && Coerce(s.brand, alleged).Ok? {
      var amount := Coerce(s.brand, alleged).value;
      assert Sound(s) by { SoundOf(s); }
      WithdrawInternalInv(s, i, amount);
      WithdrawInternalEvolves(s, i, amount);
    }
  }

  /** Exactly when purse.withdraw succeeds, and that it changes nothing but the payment counter when it does not. */
  lemma WithdrawCases(s: Ledger, i: PurseId, alleged: AllegedAmount)
    requires Inv(s) && i < |s.purses|
    ensures Fresh(s)
    ensures var w := Withdraw(s, i, alleged);
            var a := Coerce(s.brand, alleged);
            && (w.result.Ok? <==>
                  && (s.mode.HasRecoverySets? || s.purses[i].recoverySet == {})
                  && a.Ok? && IsGTE(s.purses[i].balance, a.value) == Ok(true))
            && (w.result.Ok? ==>
                  && w.result.value == s.nextPayment && s.nextPayment !in s.live
                  && w.ledger.live == s.live[s.nextPayment := a.value]
                  && |w.ledger.purses| == |s.purses|
                  && Add(w.ledger.purses[i].balance, a.value) == Ok(s.purses[i].balance)
                  && (forall j :: 0 <= j < |s.purses| && j != i ==> w.ledger.purses[j] == s.purses[j]))
            && (w.result.Err? ==> w.ledger == s || w.ledger == s.(nextPayment := s.nextPayment + 1))
  {
    SoundOf(s);
    hide Inv, Sound, Fresh, AmountMath.Coerce, AmountMath.IsGTE, AmountMath.Add, WithdrawInternal;
    if MaybeRecoverySet(s, i).Ok? && Coerce(s.brand, alleged).Ok? {
      var amount := Coerce(s.brand, alleged).value;
      WithdrawInternalResult(s, i, amount);
      if IsGTE(s.purses[i].balance, amount) == Ok(true) { WithdrawInternalEffect(s, i, amount); }
    }
  }

  /**
   * purse.withdraw, in terms of what was asked for: it succeeds iff the purse is not
   * blocked by leftovers and holds the rights asked for, and then the new payment
   * holds exactly those and the purse the rest.
   */
  lemma WithdrawEffect(s: Ledger, i: PurseId, alleged: AllegedAmount)
    requires Inv(s) && i < |s.purses|
    ensures Fresh(s)
    ensures var w := Withdraw(s, i, alleged);
            var asked := RightsAsked(alleged.value);
            && (w.result.Ok? <==>
                  && (s.mode.HasRecoverySets? || s.purses[i].recoverySet == {})
                  && alleged.brand == s.brand && WellFormed(alleged.value) && KindAsked(alleged.value, s.kind)
                  && asked <= Holdings(s.purses[i].balance.value))
            && (w.result.Ok? ==>
                  && w.result.value == s.nextPayment && s.nextPayment !in s.live
                  && w.ledger.live.Keys == s.live.Keys + {s.nextPayment}
                  && AsksFor(alleged, w.ledger.live[s.nextPayment])
                  && (forall p :: p in s.live ==> w.ledger.live[p] == s.live[p])
                  && (s.nextPayment in w.ledger.recoverySets <==> s.mode.HasRecoverySets? && asked != multiset{})
                  && |w.ledger.purses| == |s.purses|
                  && Holdings(w.ledger.purses[i].balance.value) + asked == Holdings(s.purses[i].balance.value)
                  && (forall j :: 0 <= j < |s.purses| && j != i ==> w.ledger.purses[j] == s.purses[j]))
            && (w.result.Err? ==> w == WithdrawRefused(s, i, alleged))
  {
    WithdrawCases(s, i, alleged);
    WithdrawErrors(s, i, alleged);
    CoerceIs(s.brand, alleged);
    BalanceIsOfKind(s, i);
    if Coerce(s.brand, alleged).Ok? {
      var a := Coerce(s.brand, alleged).value;
      assert AsksFor(alleged, a);
      GTEIsInclusion(s.purses[i].balance, a);
      EmptyHoldsNothing(a);
      if Withdraw(s, i, alleged).result.Ok? {
        AddConserves(Withdraw(s, i, alleged).ledger.purses[i].balance, a);
        assert Sound(s) by { SoundOf(s); }
        hide Inv, Sound, Fresh;
        WithdrawInternalEffect(s, i, a);
      }
    }
    hide Inv, Sound, Fresh, Holdings, RightsAsked, AmountMath.Coerce, AmountMath.IsGTE, AmountMath.Add, WithdrawInternal, IsEmpty;
  }

  /** Why a withdrawal is refused, and that it changes nothing but a payment object made in vain once the amount is coerced. */
  ghost function WithdrawRefused(s: Ledger, i: PurseId, alleged: AllegedAmount): Outcome<Payment>
    requires i < |s.purses|
  {
    if s.mode.NoRecoverySets? && s.purses[i].recoverySet != {} then Outcome(s, Err(LeftoverRecoverySet))
    else if alleged.brand != s.brand then Outcome(s, Err(MathFailed(BrandMismatch)))
    else if !WellFormed(alleged.value) then Outcome(s, Err(MathFailed(BadValue)))
    else
      Outcome(s.(nextPayment := s.nextPayment + 1),
              Err(if KindAsked(alleged.value, s.kind) then Insufficient else MathFailed(KindMismatch)))
  }

  lemma WithdrawErrors(s: Ledger, i: PurseId, alleged: AllegedAmount)
    requires Inv(s) && i < |s.purses|
    ensures Fresh(s)
    ensures Withdraw(s, i, alleged).result.Err? ==> Withdraw(s, i, alleged) == WithdrawRefused(s, i, alleged)
  {
    SoundOf(s);
    CoerceIs(s.brand, alleged);
    BalanceIsOfKind(s, i);
    hide Inv, Sound, Fresh, Holdings, RightsAsked, AmountMath.Coerce, AmountMath.Add, IsEmpty, InitPayment, AmountMath.IsGTE,
      AmountMath.Subtract, WithdrawInternal;
    if MaybeRecoverySet(s, i).Ok? && Coerce(s.brand, alleged).Ok? {
      var a := Coerce(s.brand, alleged).value;
      assert AsksFor(alleged, a);
      WithdrawInternalResult(s, i, a);
      InternalErrors(s, i, a);
    }
  }

  lemma InternalErrors(s: Ledger, i: PurseId, a: Amount)
    requires Sound(s) && i < |s.purses| && MaybeRecoverySet(s, i).Ok? && s.purses[i].balance.brand == a.brand
    ensures Fresh(s)
    ensures var w := WithdrawInternal(s, i, a, MaybeRecoverySet(s, i).value);
            w.result.Err? ==>
              w.result.error == if Compatible(s.purses[i].balance, a) then Insufficient else MathFailed(KindMismatch)
  {
    WithdrawInternalResult(s, i, a);
    GTEIsInclusion(s.purses[i].balance, a);
    if !Compatible(s.purses[i].balance, a) { MismatchIsReported(s.purses[i].balance, a); }
    hide Sound, Holdings, InitPayment, AmountMath.IsGTE, AmountMath.Subtract;
  }

  lemma BalanceIsOfKind(s: Ledger, i: PurseId)
    requires Inv(s) && i < |s.purses|
    ensures s.purses[i].balance.brand == s.brand && KindOf(s.purses[i].balance.value) == s.kind
    ensures s.nextPayment !in s.live && s.nextPayment !in s.recoverySets
  {
  }

  lemma {:induction false} RecoverFromKeeps(s: Ledger, i: PurseId, order: seq<Payment>, amount: Amount)
    requires Inv(s) && i < |s.purses| && RecoverySetsInRange(s)
    ensures Inv(RecoverFrom(s, i, order, amount).ledger)
    ensures Evolves(s, RecoverFrom(s, i, order, amount).ledger)
    decreases |order|
  {
    EvolvesReflexive(s);
    hide Inv, Evolves, Fresh, RecoverySetsInRange, Deposit;
    if order != [] {
      DepositInv(s, i, order[0], AnyAmount);
      DepositEvolves(s, i, order[0], AnyAmount);
      var d := Deposit(s, i, order[0], AnyAmount);
      SoundOf(d.ledger);
      if d.result.Ok? && Add(amount, d.result.value, Some(s.brand)).Ok? {
        var sum := Add(amount, d.result.value, Some(s.brand)).value;
        RecoverFromKeeps(d.ledger, i, order[1..], sum);
        SoundOf(s);
        EvolvesTransitive(s, d.ledger, RecoverFrom(d.ledger, i, order[1..], sum).ledger);
      }
    }
  }

  lemma RecoverAllInv(s: Ledger, i: PurseId, order: seq<Payment>)
    requires Inv(s) && i < |s.purses| && RecoverySetsInRange(s)
    ensures Inv(RecoverAll(s, i, order).ledger) && Evolves(s, RecoverAll(s, i, order).ledger)
  {
    EvolvesReflexive(s);
    hide Inv, Evolves, RecoverySetsInRange, RecoverFrom;
    RecoverFromKeeps(s, i, order, AmountMath.MakeEmpty(s.brand, s.kind));
  }

  /** Every call, whether it returns or throws, keeps the invariants and never revives or alters a payment. */
  lemma ApplyInv(s: Ledger, c: Command)
    requires Inv(s) && Callable(s, c)
    ensures Inv(Apply(s, c)) && Evolves(s, Apply(s, c))
  {
    hide Inv, Evolves, Fresh, RecoverySetsInRange, Deposit, MintPayment, Withdraw, Burn, RecoverAll, Iterates,
      LedgerModel.MakeEmptyPurse, Upgrade;
    SoundOf(s);
    match c
    case DoUpgrade(option) => UpgradeInv(s, option); UpgradeEvolves(s, option);
    case DoMakeEmptyPurse => MakeEmptyPurseInv(s); MakeEmptyPurseEvolves(s);
    case DoMint(alleged, shape) => MintPaymentInv(s, alleged, shape); MintPaymentEvolves(s, alleged, shape);
    case DoDeposit(i, payment, shape) => DepositInv(s, i, payment, shape); DepositEvolves(s, i, payment, shape);
    case DoWithdraw(i, alleged) => WithdrawInv(s, i, alleged);
    case DoBurn(payment, shape) => BurnInv(s, payment, shape); BurnEvolves(s, payment, shape);
    case DoRecoverAll(i, order) => RecoverAllInv(s, i, order);
    case DoGetRecoverySet(_) => EvolvesReflexive(s);
  }

  lemma MakeEmptyPurseEvolves(s: Ledger)
    ensures Evolves(s, LedgerModel.MakeEmptyPurse(s).ledger)
  {
  }

  // ------------------------------------------------------------------- runs

  /** The ledgers of an issuer from its creation on, one command between each and the next. */
  ghost predicate IsRun(states: seq<Ledger>, commands: seq<Command>) {
    && |states| == |commands| + 1
    && states[0] == MakeIssuer(states[0].brand, states[0].kind, states[0].baggage)
    && forall k :: 0 <= k < |commands| ==> IsStep(states[k], commands[k], states[k + 1])
  }

  /** The premise makes Apply well defined; RunInv shows that it always holds. */
  ghost predicate IsStep(s: Ledger, c: Command, t: Ledger) {
    Inv(s) ==> Callable(s, c) && t == Apply(s, c)
  }

  lemma {:induction false} RunInv(states: seq<Ledger>, commands: seq<Command>, k: nat)
    requires IsRun(states, commands) && k < |states|
    ensures Inv(states[k])
  {
    hide Inv, Apply, Callable, MakeIssuer;
    if k == 0 {
      MakeIssuerInv(states[0].brand, states[0].kind, states[0].baggage);
    } else {
      RunInv(states, commands, k - 1);
      assert IsStep(states[k - 1], commands[k - 1], states[k]);
      ApplyInv(states[k - 1], commands[k - 1]);
    }
  }

  lemma {:induction false} RunEvolves(states: seq<Ledger>, commands: seq<Command>, j: nat, k: nat)
    requires IsRun(states, commands) && j <= k < |states|
    ensures Evolves(states[j], states[k])
    decreases k
  {
    hide Inv, Apply, Callable, MakeIssuer, Evolves, Fresh;
    if j == k {
      EvolvesReflexive(states[j]);
    } else {
      RunEvolves(states, commands, j, k - 1);
      RunInv(states, commands, k - 1);
      assert IsStep(states[k - 1], commands[k - 1], states[k]);
      ApplyInv(states[k - 1], commands[k - 1]);
      RunInv(states, commands, j);
      SoundOf(states[j]);
      EvolvesTransitive(states[j], states[k - 1], states[k]);
    }
  }

  /**
   * Conservation over whole runs. Every right minted is in a purse or in a live
   * payment, or was burned; for set-like kinds some may be lost to deposits that
   * threw on an overlap, for nat and copyBag none ever are.
   */
  lemma AssetsAreConserved(states: seq<Ledger>, commands: seq<Command>, k: nat)
    requires IsRun(states, commands) && k < |states|
    ensures var s := states[k];
            && s.history.minted == SumPurses(s.purses) + SumLive(s.live, s.nextPayment) + s.history.burned + s.history.lost
            && (AddIsTotal(states[0].kind) ==> s.history.lost == multiset{})
  {
    RunInv(states, commands, k);
    RunEvolves(states, commands, 0, k);
  }

  /** A deposit loses rights exactly when it throws after its commit point, which takes an overlap of set-like values. */
  lemma DepositLosesIff(s: Ledger, i: PurseId, payment: Payment, shape: Amount -> bool)
    requires Inv(s) && i < |s.purses|
    ensures RecoverySetsInRange(s)
    ensures Deposit(s, i, payment, shape).result.Err? && Deposit(s, i, payment, shape).result.error.CommitFailed?
            <==> && payment in s.live && shape(s.live[payment])
                 && !AddIsTotal(s.kind)
                 && !(Holdings(s.purses[i].balance.value) !! Holdings(s.live[payment].value))
    ensures Deposit(s, i, payment, shape).result.Err? ==>
              Deposit(s, i, payment, shape).ledger.history.lost ==
              s.history.lost + (if Deposit(s, i, payment, shape).result.error.CommitFailed?
                                then Holdings(s.live[payment].value) else multiset{})
  {
    hide Holdings, ModeInv;
    if payment in s.live {
      AddConserves(s.purses[i].balance, s.live[payment]);
      DeletePaymentTables(s, payment);
    }
  }

  /** A payment keeps its amount while it is live, and once used up it stays used up. */
  lemma PaymentsAreLinear(states: seq<Ledger>, commands: seq<Command>, p: Payment, j: nat, k: nat)
    requires IsRun(states, commands) && j < k < |states|
    requires p in states[j].live
    ensures p in states[k].live ==> states[k].live[p] == states[j].live[p]
    ensures p in states[k].live ==> forall l :: j <= l <= k ==> p in states[l].live
    ensures p in states[k].recoverySets ==> p in states[j].recoverySets && states[k].recoverySets[p] == states[j].recoverySets[p]
  {
    RunEvolves(states, commands, j, k);
    RunInv(states, commands, j);
    forall l | j <= l <= k && p in states[k].live ensures p in states[l].live {
      RunEvolves(states, commands, j, l);
      RunEvolves(states, commands, l, k);
    }
  }

  /** At most one step of a run uses up a given payment. */
  lemma PaymentsAreUsedUpOnce(states: seq<Ledger>, commands: seq<Command>, p: Payment, j: nat, k: nat)
    requires IsRun(states, commands) && j < |commands| && k < |commands|
    requires p in states[j].live && p !in states[j + 1].live
    requires p in states[k].live && p !in states[k + 1].live
    ensures j == k
  {
    if j < k { PaymentsAreLinear(states, commands, p, j, k); }
    if k < j { PaymentsAreLinear(states, commands, p, k, j); }
  }

  /** The history's flag says what it is meant to: recovery sets were on in this and every earlier state. */
  lemma {:induction false} AlwaysHadIff(states: seq<Ledger>, commands: seq<Command>, k: nat)
    requires IsRun(states, commands) && k < |states|
    ensures states[k].history.alwaysHad <==> forall j :: 0 <= j <= k ==> states[j].mode.HasRecoverySets?
  {
    hide Inv, Apply, Callable, RecoverySetsInRange, Fresh;
    if k > 0 {
      AlwaysHadIff(states, commands, k - 1);
      RunInv(states, commands, k - 1);
      assert IsStep(states[k - 1], commands[k - 1], states[k]);
      ApplyAlwaysHad(states[k - 1], commands[k - 1]);
    }
  }

  lemma ApplyAlwaysHad(s: Ledger, c: Command)
    requires Inv(s) && Callable(s, c)
    ensures Apply(s, c).history.alwaysHad <==> s.history.alwaysHad && Apply(s, c).mode.HasRecoverySets?
  {
    assert s.history.alwaysHad ==> s.mode.HasRecoverySets?;
    hide Inv, RecoverySetsInRange, Fresh, Sound, Iterates, Upgrade, MintPayment, Deposit, Withdraw, Burn, RecoverAll,
      LedgerModel.MakeEmptyPurse;
    SoundOf(s);
    match c
    case DoUpgrade(option) => UpgradeMode(s, option);
    case DoMakeEmptyPurse => MakeEmptyPurseMode(s);
    case DoMint(alleged, shape) => MintMode(s, alleged, shape);
    case DoDeposit(i, payment, shape) => DepositMode(s, i, payment, shape);
    case DoWithdraw(i, alleged) => WithdrawMode(s, i, alleged);
    case DoBurn(payment, shape) => BurnMode(s, payment, shape);
    case DoRecoverAll(i, order) => RecoverAllMode(s, i, order);
    case DoGetRecoverySet(_) =>
  }

  /** No call but an upgrade changes the mode. */
  ghost predicate SameMode(s: Ledger, t: Ledger) {
    s.mode == t.mode && s.history.alwaysHad == t.history.alwaysHad
  }

  lemma UpgradeMode(s: Ledger, option: Option<RecoverySetsOption>)
    requires s.history.alwaysHad ==> s.mode.HasRecoverySets?
    ensures var t := Upgrade(s, option).ledger;
            t.history.alwaysHad <==> s.history.alwaysHad && t.mode.HasRecoverySets?
  {
  }

  lemma MakeEmptyPurseMode(s: Ledger)
    ensures SameMode(s, LedgerModel.MakeEmptyPurse(s).ledger)
  {
  }

  lemma MintMode(s: Ledger, alleged: AllegedAmount, shape: Amount -> bool)
    requires Sound(s)
    ensures RecoverySetsInRange(s) && Fresh(s) && MINT_PURSE < |s.purses| && SameMode(s, MintPayment(s, alleged, shape).ledger)
  {
    hide Sound, Holdings, MintPayment, AmountMath.Add;
    MintPaymentCases(s, alleged, shape);
  }

  lemma DepositMode(s: Ledger, i: PurseId, payment: Payment, shape: Amount -> bool)
    requires i < |s.purses| && RecoverySetsInRange(s)
    ensures SameMode(s, Deposit(s, i, payment, shape).ledger)
  {
    hide Holdings, AmountMath.Add;
  }

  lemma WithdrawMode(s: Ledger, i: PurseId, alleged: AllegedAmount)
    requires i < |s.purses| && Fresh(s)
    ensures SameMode(s, Withdraw(s, i, alleged).ledger)
  {
    hide AmountMath.Coerce, AmountMath.IsGTE, AmountMath.Subtract;
  }

  lemma BurnMode(s: Ledger, payment: Payment, shape: Amount -> bool)
    requires RecoverySetsInRange(s)
    ensures SameMode(s, Burn(s, payment, shape).ledger)
  {
    hide Holdings;
  }

  lemma {:induction false} RecoverFromMode(s: Ledger, i: PurseId, order: seq<Payment>, amount: Amount)
    requires i < |s.purses| && RecoverySetsInRange(s)
    ensures SameMode(s, RecoverFrom(s, i, order, amount).ledger)
    decreases |order|
  {
    hide Deposit, RecoverySetsInRange, AmountMath.Add;
    if order != [] {
      DepositMode(s, i, order[0], AnyAmount);
      var d := Deposit(s, i, order[0], AnyAmount);
      if d.result.Ok? && Add(amount, d.result.value, Some(s.brand)).Ok? {
        RecoverFromMode(d.ledger, i, order[1..], Add(amount, d.result.value, Some(s.brand)).value);
      }
    }
  }

  lemma RecoverAllMode(s: Ledger, i: PurseId, order: seq<Payment>)
    requires i < |s.purses| && RecoverySetsInRange(s)
    ensures SameMode(s, RecoverAll(s, i, order).ledger)
  {
    hide RecoverFrom, RecoverySetsInRange;
    RecoverFromMode(s, i, order, AmountMath.MakeEmpty(s.brand, s.kind));
  }

  /**
   * The recovery-set invariants in every state between calls: each payment in
   * the map is live, not empty, and in exactly the one set of the purse it was
   * withdrawn from; while sets were on in every state so far, that is every
   * non-empty payment.
   */
  lemma RecoverySetsAreExact(states: seq<Ledger>, commands: seq<Command>, k: nat, i: PurseId, p: Payment)
    requires IsRun(states, commands) && k < |states| && i < |states[k].purses|
    ensures var s := states[k];
            && (p in s.purses[i].recoverySet <==> p in s.recoverySets && s.recoverySets[p] == i)
            && (p in s.recoverySets ==>
                  && p in s.live && !IsEmpty(s.live[p])
                  && s.recoverySets[p] < |s.purses|
                  && p in s.history.origin && s.history.origin[p] == s.recoverySets[p])
            && ((forall j :: 0 <= j <= k ==> states[j].mode.HasRecoverySets?) ==>
                  (p in s.live && !IsEmpty(s.live[p]) <==> p in s.recoverySets))
  {
    RunInv(states, commands, k);
    AlwaysHadIff(states, commands, k);
  }

  /**
   * A payment that is made is recoverable iff it is not empty and recovery sets
   * are on; one that stays live stays as recoverable as it was.
   */
  ghost predicate KeepsRecoverable(s: Ledger, t: Ledger) {
    forall p :: p in t.live ==>
      (p in t.recoverySets <==> if p in s.live then p in s.recoverySets else s.mode.HasRecoverySets? && !IsEmpty(t.live[p]))
  }

  /** Payments were only used up, and the others are as recoverable as before. */
  ghost predicate OnlyUsesUp(s: Ledger, t: Ledger) {
    && (forall p :: p in t.live ==> p in s.live)
    && (forall p :: p in t.live ==> (p in t.recoverySets <==> p in s.recoverySets))
  }

  lemma DepositUsesUp(s: Ledger, i: PurseId, payment: Payment, shape: Amount -> bool)
    requires i < |s.purses| && RecoverySetsInRange(s)
    ensures OnlyUsesUp(s, Deposit(s, i, payment, shape).ledger)
    ensures OnlyUsesUp(s, Burn(s, payment, shape).ledger)
  {
    hide Holdings, AmountMath.Add;
  }

  lemma {:induction false} RecoverFromUsesUp(s: Ledger, i: PurseId, order: seq<Payment>, amount: Amount)
    requires i < |s.purses| && RecoverySetsInRange(s)
    ensures OnlyUsesUp(s, RecoverFrom(s, i, order, amount).ledger)
    decreases |order|
  {
    hide Deposit, RecoverySetsInRange, AmountMath.Add;
    if order != [] {
      DepositUsesUp(s, i, order[0], AnyAmount);
      var d := Deposit(s, i, order[0], AnyAmount);
      if d.result.Ok? && Add(amount, d.result.value, Some(s.brand)).Ok? {
        RecoverFromUsesUp(d.ledger, i, order[1..], Add(amount, d.result.value, Some(s.brand)).value);
      }
    }
  }

  lemma RecoverAllUsesUp(s: Ledger, i: PurseId, order: seq<Payment>)
    requires i < |s.purses| && RecoverySetsInRange(s)
    ensures OnlyUsesUp(s, RecoverAll(s, i, order).ledger)
  {
    hide RecoverFrom, RecoverySetsInRange;
    RecoverFromUsesUp(s, i, order, AmountMath.MakeEmpty(s.brand, s.kind));
  }

  lemma MintRecoverable(s: Ledger, alleged: AllegedAmount, shape: Amount -> bool)
    requires Sound(s)
    ensures RecoverySetsInRange(s) && Fresh(s) && MINT_PURSE < |s.purses|
    ensures KeepsRecoverable(s, MintPayment(s, alleged, shape).ledger)
  {
    MintPaymentCases(s, alleged, shape);
    assert Fresh(s);
    hide Sound, Holdings, MintPayment, AmountMath.Add, AmountMath.Coerce, IsEmpty;
  }

  lemma WithdrawRecoverable(s: Ledger, i: PurseId, alleged: AllegedAmount)
    requires Inv(s) && i < |s.purses|
    ensures Fresh(s) && KeepsRecoverable(s, Withdraw(s, i, alleged).ledger)
  {
    WithdrawCases(s, i, alleged);
    SoundOf(s);
    if Withdraw(s, i, alleged).result.Ok? {
      WithdrawInternalEffect(s, i, Coerce(s.brand, alleged).value);
    }
    hide Inv, Sound, AmountMath.Coerce, AmountMath.IsGTE, AmountMath.Add, WithdrawInternal, IsEmpty;
  }

  lemma ApplyKeepsRecoverable(s: Ledger, c: Command)
    requires Inv(s) && Callable(s, c)
    ensures KeepsRecoverable(s, Apply(s, c))
  {
    hide Inv, RecoverySetsInRange, Fresh, Sound, Iterates, MintPayment, Deposit, Withdraw, Burn, RecoverAll, IsEmpty;
    SoundOf(s);
    match c
    case DoMint(alleged, shape) => MintRecoverable(s, alleged, shape);
    case DoDeposit(i, payment, shape) => DepositUsesUp(s, i, payment, shape);
    case DoWithdraw(i, alleged) => WithdrawRecoverable(s, i, alleged);
    case DoBurn(payment, shape) => DepositUsesUp(s, MINT_PURSE, payment, shape);
    case DoRecoverAll(i, order) => RecoverAllUsesUp(s, i, order);
    case _ =>
  }

  /**
   * Exactly which live payments can be recovered, whatever upgrades the run went
   * through: those that are not empty and were made while recovery sets were on.
   * The step that made a live payment is found, and there is only one.
   */
  lemma RecoverableIff(states: seq<Ledger>, commands: seq<Command>, k: nat, p: Payment) returns (j: nat)
    requires IsRun(states, commands) && k < |states| && p in states[k].live
    ensures j < k && p !in states[j].live && p in states[j + 1].live
    ensures forall l :: 0 <= l < |commands| && p !in states[l].live && p in states[l + 1].live ==> l == j
    ensures p in states[k].recoverySets <==> states[j].mode.HasRecoverySets? && !IsEmpty(states[k].live[p])
  {
    j := MadeAt(states, commands, k, p);
    forall l | 0 <= l < |commands| && p !in states[l].live && p in states[l + 1].live ensures l == j {
      MadeOnce(states, commands, p, l, j);
    }
  }

  lemma MadeOnce(states: seq<Ledger>, commands: seq<Command>, p: Payment, l: nat, j: nat)
    requires IsRun(states, commands) && l < |commands| && j < |commands|
    requires p !in states[l].live && p in states[l + 1].live && p !in states[j].live && p in states[j + 1].live
    ensures l == j
  {
    if l < j { NotMadeAgain(states, commands, p, l, j); }
    if j < l { NotMadeAgain(states, commands, p, j, l); }
  }

  lemma NotMadeAgain(states: seq<Ledger>, commands: seq<Command>, p: Payment, l: nat, j: nat)
    requires IsRun(states, commands) && l < j < |commands| && p in states[l + 1].live && p !in states[j].live
    ensures p !in states[j + 1].live
  {
    PaymentsAreLinear(states, commands, p, l + 1, j + 1);
  }

  lemma {:induction false} MadeAt(states: seq<Ledger>, commands: seq<Command>, k: nat, p: Payment) returns (j: nat)
    requires IsRun(states, commands) && k < |states| && p in states[k].live
    ensures j < k && p !in states[j].live && p in states[j + 1].live
    ensures p in states[k].recoverySets <==> states[j].mode.HasRecoverySets? && !IsEmpty(states[k].live[p])
  {
    assert k > 0;
    StepKeepsRecoverable(states, commands, k - 1);
    hide IsRun, IsEmpty, MakeIssuer;
    if p in states[k - 1].live {
      j := MadeAt(states, commands, k - 1, p);
    } else {
      j := k - 1;
    }
  }

  lemma StepKeepsRecoverable(states: seq<Ledger>, commands: seq<Command>, k: nat)
    requires IsRun(states, commands) && k < |commands|
    ensures KeepsRecoverable(states[k], states[k + 1]) && Evolves(states[k], states[k + 1])
  {
    RunInv(states, commands, k);
    assert IsStep(states[k], commands[k], states[k + 1]);
    hide IsRun, Inv, Apply, Callable, Evolves, KeepsRecoverable;
    ApplyKeepsRecoverable(states[k], commands[k]);
    ApplyInv(states[k], commands[k]);
  }

  // ------------------------------------------------------------------ modes

  /** An issuer created without recovery sets never has any, in any incarnation. */
  lemma CreatedWithoutRecoverySets(states: seq<Ledger>, commands: seq<Command>, k: nat)
    requires IsRun(states, commands) && k < |states|
    requires states[0].baggage == Some(NoRecoverySets)
    ensures states[k].mode.NoRecoverySets?
    ensures states[k].recoverySets == map[]
    ensures forall i :: 0 <= i < |states[k].purses| ==> states[k].purses[i].recoverySet == {}
  {
    RunInv(states, commands, k);
    RunEvolves(states, commands, 0, k);
    var s := states[k];
    forall i | 0 <= i < |s.purses| ensures s.purses[i].recoverySet == {} {
      forall p ensures p !in s.purses[i].recoverySet { assert p !in s.recoverySets; }
    }
  }

  /** Without recovery sets, no call adds to a leftover set, whether it returns or throws. */
  lemma LeftoversOnlyShrink(s: Ledger, c: Command)
    requires Inv(s) && Callable(s, c) && s.mode.NoRecoverySets? && !c.DoUpgrade?
    ensures Apply(s, c).mode.NoRecoverySets?
    ensures forall p :: p in Apply(s, c).recoverySets ==> p in s.recoverySets && Apply(s, c).recoverySets[p] == s.recoverySets[p]
  {
    hide Inv, Evolves, RecoverySetsInRange, Fresh, Sound, Iterates, RecoverFrom, Holdings, MintPayment, Deposit, Burn,
      WithdrawInternal, InitPayment;
    SoundOf(s);
    match c
    case DoMint(alleged, shape) =>
      MintPaymentCases(s, alleged, shape);
    case DoDeposit(i, payment, shape) =>
      DepositShrinks(s, i, payment, shape);
    case DoBurn(payment, shape) =>
      DepositShrinks(s, MINT_PURSE, payment, shape);
    case DoWithdraw(i, alleged) =>
      if s.purses[i].recoverySet == {} && Coerce(s.brand, alleged).Ok? {
        WithdrawWithoutSet(s, i, Coerce(s.brand, alleged).value);
      }
    case _ =>
  }

  lemma WithdrawWithoutSet(s: Ledger, i: PurseId, amount: Amount)
    requires Sound(s) && i < |s.purses|
    ensures WithdrawInternal(s, i, amount, None).ledger.mode == s.mode
    ensures WithdrawInternal(s, i, amount, None).ledger.recoverySets == s.recoverySets
  {
  }

  lemma DepositShrinks(s: Ledger, i: PurseId, payment: Payment, shape: Amount -> bool)
    requires Sound(s) && i < |s.purses|
    ensures RecoverySetsInRange(s)
    ensures Deposit(s, i, payment, shape).ledger.mode == Burn(s, payment, shape).ledger.mode == s.mode
    ensures forall p :: p in Deposit(s, i, payment, shape).ledger.recoverySets ==>
              p in s.recoverySets && Deposit(s, i, payment, shape).ledger.recoverySets[p] == s.recoverySets[p]
    ensures forall p :: p in Burn(s, payment, shape).ledger.recoverySets ==>
              p in s.recoverySets && Burn(s, payment, shape).ledger.recoverySets[p] == s.recoverySets[p]
  {
  }

  /** The same over any stretch of a run in which they are off, through any number of upgrades. */
  lemma {:induction false} LeftoversOnlyShrinkOverRun(states: seq<Ledger>, commands: seq<Command>, j: nat, k: nat)
    requires IsRun(states, commands) && j <= k < |states|
    requires forall l :: j <= l <= k ==> states[l].mode.NoRecoverySets?
    ensures forall p :: p in states[k].recoverySets ==>
              p in states[j].recoverySets && states[k].recoverySets[p] == states[j].recoverySets[p]
    ensures forall i :: 0 <= i < |states[j].purses| ==>
              i < |states[k].purses| && states[k].purses[i].recoverySet <= states[j].purses[i].recoverySet
    ensures forall i :: |states[j].purses| <= i < |states[k].purses| ==> states[k].purses[i].recoverySet == {}
    decreases k
  {
    RunInv(states, commands, j);
    RunInv(states, commands, k);
    RunEvolves(states, commands, j, k);
    hide Apply, Callable, MakeIssuer;
    MapOnlyShrinksOverRun(states, commands, j, k);
    SetsFollowMap(states[j], states[k]);
  }

  lemma SetsFollowMap(s: Ledger, t: Ledger)
    requires Inv(s) && Inv(t) && |s.purses| <= |t.purses|
    requires forall p :: p in t.recoverySets ==> p in s.recoverySets && t.recoverySets[p] == s.recoverySets[p]
    ensures forall i :: 0 <= i < |s.purses| ==> t.purses[i].recoverySet <= s.purses[i].recoverySet
    ensures forall i :: |s.purses| <= i < |t.purses| ==> t.purses[i].recoverySet == {}
  {
    forall i | 0 <= i < |s.purses| ensures t.purses[i].recoverySet <= s.purses[i].recoverySet {
      forall p | p in t.purses[i].recoverySet ensures p in s.purses[i].recoverySet { assert t.recoverySets[p] == i; }
    }
    forall i | |s.purses| <= i < |t.purses| ensures t.purses[i].recoverySet == {} {
      forall p ensures p !in t.purses[i].recoverySet {
        assert p in t.recoverySets ==> t.recoverySets[p] == s.recoverySets[p] && s.recoverySets[p] < |s.purses|;
      }
    }
  }

  lemma {:induction false} MapOnlyShrinksOverRun(states: seq<Ledger>, commands: seq<Command>, j: nat, k: nat)
    requires IsRun(states, commands) && j <= k < |states|
    requires forall l :: j <= l <= k ==> states[l].mode.NoRecoverySets?
    ensures forall p :: p in states[k].recoverySets ==>
              p in states[j].recoverySets && states[k].recoverySets[p] == states[j].recoverySets[p]
    decreases k
  {
    hide Inv, Apply, Callable, MakeIssuer;
    if j < k {
      MapOnlyShrinksOverRun(states, commands, j, k - 1);
      RunInv(states, commands, k - 1);
      assert IsStep(states[k - 1], commands[k - 1], states[k]);
      if commands[k - 1].DoUpgrade? {
        UpgradeKeepsMap(states[k - 1], commands[k - 1]);
      } else {
        LeftoversOnlyShrink(states[k - 1], commands[k - 1]);
      }
    }
  }

  lemma UpgradeKeepsMap(s: Ledger, c: Command)
    requires Inv(s) && Callable(s, c) && c.DoUpgrade?
    ensures Apply(s, c).recoverySets == s.recoverySets
  {
    hide Inv;
  }

  /**
   * getRecoverySet: with recovery sets on, exactly the payments that the map sends
   * to this purse; without them none, unless leftovers make it throw. It changes
   * nothing.
   */
  lemma GetRecoverySetIs(s: Ledger, i: PurseId)
    requires Inv(s) && i < |s.purses|
    ensures var r := GetRecoverySet(s, i);
            && r.ledger == s
            && (s.mode.HasRecoverySets? ==>
                  r.result.Ok? && forall p :: p in r.result.value <==> p in s.recoverySets && s.recoverySets[p] == i)
            && (s.mode.NoRecoverySets? ==>
                  r.result == if forall p :: p in s.recoverySets ==> s.recoverySets[p] != i then Ok({}) else Err(LeftoverRecoverySet))
  {
    hide Conserved, ModeInv, WellKinded, Fresh, Holdings, IsEmpty;
    forall p ensures p in s.purses[i].recoverySet <==> p in s.recoverySets && s.recoverySets[p] == i { }
  }

  /** Without recovery sets, a purse with leftovers refuses withdraw, getRecoverySet and recoverAll, and nothing changes. */
  lemma LeftoversBlockThePurse(s: Ledger, i: PurseId, alleged: AllegedAmount, order: seq<Payment>)
    requires Inv(s) && i < |s.purses| && s.mode.NoRecoverySets?
    ensures RecoverySetsInRange(s) && Fresh(s)
    ensures s.purses[i].recoverySet != {} <==> Withdraw(s, i, alleged) == Outcome(s, Err(LeftoverRecoverySet))
    ensures s.purses[i].recoverySet != {} <==> GetRecoverySet(s, i) == Outcome(s, Err(LeftoverRecoverySet))
    ensures s.purses[i].recoverySet != {} <==> RecoverAll(s, i, order) == Outcome(s, Err(LeftoverRecoverySet))
    ensures s.purses[i].recoverySet == {} ==>
              && RecoverAll(s, i, order).ledger == s && RecoverAll(s, i, order).result.Ok?
              && RecoverAll(s, i, order).result.value.brand == s.brand
              && KindOf(RecoverAll(s, i, order).result.value.value) == s.kind
              && Holdings(RecoverAll(s, i, order).result.value.value) == multiset{}
  {
  }

  /**
   * Upgrading reads the mode from baggage but never writes it back. So an issuer
   * can be taken from 'noRecoverySets' to 'hasRecoverySets', which the option's
   * description rules out, exactly when it was not created with 'noRecoverySets'.
   */
  lemma ModeCanReturnIff(s: Ledger)
    requires Inv(s)
    ensures var off := Upgrade(s, Some(NoRecoverySets));
            && off.result.Ok? && off.ledger.mode.NoRecoverySets?
            && (Upgrade(off.ledger, Some(HasRecoverySets)).result.Ok? <==> s.baggage != Some(NoRecoverySets))
            && (Upgrade(off.ledger, None).ledger.mode.HasRecoverySets? <==> s.baggage != Some(NoRecoverySets))
  {
  }

  /**
   * After such a return, recovery sets are on but miss what was withdrawn while
   * they were off: a run in which a live, non-empty payment is in no set.
   */
  lemma ReturnedModeMissesPayments(brand: Brand, n: nat)
    requires n > 0
    ensures exists states: seq<Ledger>, commands: seq<Command>, k: nat, p: Payment ::
              && IsRun(states, commands) && k < |states|
              && states[k].mode.HasRecoverySets?
              && p in states[k].live && !IsEmpty(states[k].live[p]) && p !in states[k].recoverySets
  {
    var alleged := AllegedAmount(brand, BigInt(n));
    var c0, c1, c2 := DoUpgrade(Some(NoRecoverySets)), DoMint(alleged, AnyAmount), DoUpgrade(None);
    NewIssuerTurnedOff(brand);
    hide Inv, MakeIssuer, Upgrade, MintPayment, RecoverySetsInRange, Fresh, IsEmpty;
    var s0 := MakeIssuer(brand, NatKind, Some(HasRecoverySets));
    var s1 := Apply(s0, c0);
    var s2 := MintedWhileOff(s1, brand, n);
    var s3 := Apply(s2, c2);
    TurnedBackOn(s2);
    assert IsStep(s0, c0, s1) && IsStep(s1, c1, s2) && IsStep(s2, c2, s3);
    hide IsStep, Apply, Callable;
    RunOfThree([s0, s1, s2, s3], [c0, c1, c2]);
    assert 1 in [s0, s1, s2, s3][3].live;
  }

  /**
   * A run after which mintPayment mints and then throws: a payment is minted and
   * left in the mint recovery purse's set, recovery sets are turned off, and the
   * same is minted again. What was minted then is in that purse's balance.
   */
  lemma MintThenThrowExample(brand: Brand, n: nat) returns (states: seq<Ledger>, commands: seq<Command>)
    requires n > 0
    ensures IsRun(states, commands) && |states| == 3
    ensures Inv(states[2]) && RecoverySetsInRange(states[2]) && MINT_PURSE < |states[2].purses| && Fresh(states[2])
    ensures states[2].purses[MINT_PURSE].balance == Amount(brand, NatValue(0))
    ensures var m := MintPayment(states[2], AllegedAmount(brand, BigInt(n)), AnyAmount);
            && m.result == Err(LeftoverRecoverySet)
            && m.ledger.live == states[2].live && |m.ledger.purses| == |states[2].purses|
            && m.ledger.purses[MINT_PURSE].balance == Amount(brand, NatValue(n))
  {
    var c0, c1 := DoMint(AllegedAmount(brand, BigInt(n)), AnyAmount), DoUpgrade(Some(NoRecoverySets));
    var s0 := MakeIssuer(brand, NatKind, Some(HasRecoverySets));
    FirstMint(s0, n);
    hide Inv, MakeIssuer, MintPayment, RecoverySetsInRange, Fresh;
    var s1 := Apply(s0, c0);
    TurnedOff(s1);
    var s2 := Apply(s1, c1);
    assert IsStep(s0, c0, s1) && IsStep(s1, c1, s2);
    SecondMint(s2, n);
    states, commands := [s0, s1, s2], [c0, c1];
    hide *;
    RunOfTwo(s0, c0, s1, c1, s2);
  }

  lemma RunOfTwo(s0: Ledger, c0: Command, s1: Ledger, c1: Command, s2: Ledger)
    requires s0 == MakeIssuer(s0.brand, s0.kind, s0.baggage) && IsStep(s0, c0, s1) && IsStep(s1, c1, s2)
    ensures IsRun([s0, s1, s2], [c0, c1])
  {
    hide MakeIssuer, IsStep;
  }

  /** An issuer whose one payment of n is in the mint recovery purse's set. */
  ghost predicate OneLeftover(s: Ledger, brand: Brand) {
    && Inv(s) && s.brand == brand && s.kind == NatKind
    && MINT_PURSE < |s.purses| && s.purses[MINT_PURSE].recoverySet != {}
    && s.purses[MINT_PURSE].balance == Amount(brand, NatValue(0))
  }

  lemma FirstMint(s: Ledger, n: nat)
    requires n > 0 && s == MakeIssuer(s.brand, NatKind, Some(HasRecoverySets))
    ensures Inv(s) && MINT_PURSE < |s.purses| && RecoverySetsInRange(s) && Fresh(s)
    ensures OneLeftover(MintPayment(s, AllegedAmount(s.brand, BigInt(n)), AnyAmount).ledger, s.brand)
  {
    var alleged, amount := AllegedAmount(s.brand, BigInt(n)), Amount(s.brand, NatValue(n));
    assert Coerce(s.brand, alleged) == Ok(amount) && !IsEmpty(amount);
    MakeIssuerInv(s.brand, NatKind, Some(HasRecoverySets));
    SoundOf(s);
    MintPaymentCases(s, alleged, AnyAmount);
    MintPaymentInv(s, alleged, AnyAmount);
    hide Inv, Sound, MintPayment, RecoverySetsInRange, Fresh, IsEmpty, AmountMath.Coerce, Holdings;
    LeftInMintPurse(MintPayment(s, alleged, AnyAmount).ledger, 1);
  }

  lemma TurnedOff(s: Ledger)
    requires OneLeftover(s, s.brand)
    ensures var t := Upgrade(s, Some(NoRecoverySets)).ledger;
            OneLeftover(t, s.brand) && t.mode.NoRecoverySets?
  {
    UpgradeInv(s, Some(NoRecoverySets));
    hide Inv;
  }

  lemma SecondMint(s: Ledger, n: nat)
    requires OneLeftover(s, s.brand) && s.mode.NoRecoverySets?
    ensures RecoverySetsInRange(s) && Fresh(s)
    ensures var m := MintPayment(s, AllegedAmount(s.brand, BigInt(n)), AnyAmount);
            && m.result == Err(LeftoverRecoverySet)
            && m.ledger.live == s.live && |m.ledger.purses| == |s.purses|
            && m.ledger.purses[MINT_PURSE].balance == Amount(s.brand, NatValue(n))
  {
    var alleged, amount := AllegedAmount(s.brand, BigInt(n)), Amount(s.brand, NatValue(n));
    assert Coerce(s.brand, alleged) == Ok(amount);
    SoundOf(s);
    MintPaymentCases(s, alleged, AnyAmount);
    hide Inv, Sound, MintPayment, RecoverySetsInRange, Fresh, AmountMath.Coerce, Holdings;
  }

  lemma LeftInMintPurse(s: Ledger, p: Payment)
    requires Inv(s) && MINT_PURSE < |s.purses| && p in s.recoverySets && s.recoverySets[p] == MINT_PURSE
    ensures s.purses[MINT_PURSE].recoverySet != {}
  {
    assert p in s.purses[MINT_PURSE].recoverySet;
  }

  lemma MintedWhileOff(s: Ledger, brand: Brand, n: nat) returns (t: Ledger)
    requires n > 0 && Inv(s) && s.brand == brand && s.kind == NatKind && s.nextPayment == 0
    requires s.mode.NoRecoverySets? && s.recoverySets == map[] && s.baggage == Some(HasRecoverySets)
    requires s.purses[MINT_PURSE].recoverySet == {}
    ensures RecoverySetsInRange(s) && Fresh(s) && MINT_PURSE < |s.purses|
    ensures t == MintPayment(s, AllegedAmount(brand, BigInt(n)), AnyAmount).ledger
    ensures Inv(t) && t.baggage == Some(HasRecoverySets)
    ensures 1 in t.live && !IsEmpty(t.live[1]) && 1 !in t.recoverySets
  {
    var amount := Amount(brand, NatValue(n));
    var alleged := AllegedAmount(brand, BigInt(n));
    assert Coerce(brand, alleged) == Ok(amount) && !IsEmpty(amount);
    SoundOf(s);
    hide Inv, Sound, MintPayment, RecoverySetsInRange, Fresh, AmountMath.Coerce, IsEmpty;
    MintWithoutSets(s, alleged, amount);
    MintPaymentInv(s, alleged, AnyAmount);
    t := MintPayment(s, alleged, AnyAmount).ledger;
  }

  lemma RunOfThree(states: seq<Ledger>, commands: seq<Command>)
    requires |states| == 4 && |commands| == 3
    requires states[0] == MakeIssuer(states[0].brand, states[0].kind, states[0].baggage)
    requires IsStep(states[0], commands[0], states[1])
    requires IsStep(states[1], commands[1], states[2])
    requires IsStep(states[2], commands[2], states[3])
    ensures IsRun(states, commands)
  {
  }

  lemma NewIssuerTurnedOff(brand: Brand)
    ensures var s := MakeIssuer(brand, NatKind, Some(HasRecoverySets));
            var t := Upgrade(s, Some(NoRecoverySets)).ledger;
            && Inv(s) && Inv(t)
            && s.brand == brand && s.kind == NatKind && s.baggage == Some(HasRecoverySets)
            && t.brand == brand && t.kind == NatKind && t.baggage == Some(HasRecoverySets)
            && t.mode.NoRecoverySets? && t.recoverySets == map[] && t.nextPayment == 0
            && MINT_PURSE < |t.purses| && t.purses[MINT_PURSE].recoverySet == {}
  {
    MakeIssuerInv(brand, NatKind, Some(HasRecoverySets));
    UpgradeInv(MakeIssuer(brand, NatKind, Some(HasRecoverySets)), Some(NoRecoverySets));
  }

  lemma TurnedBackOn(s: Ledger)
    requires s.baggage == Some(HasRecoverySets)
    ensures var t := Upgrade(s, None).ledger;
            t.mode.HasRecoverySets? && t.live == s.live && t.recoverySets == s.recoverySets
  {
  }

  lemma MintWithoutSets(s: Ledger, alleged: AllegedAmount, amount: Amount)
    requires Sound(s) && s.mode.NoRecoverySets? && s.purses[MINT_PURSE].recoverySet == {}
    requires Coerce(s.brand, alleged) == Ok(amount) && KindOf(amount.value) == s.kind && AddIsTotal(s.kind)
    ensures RecoverySetsInRange(s) && Fresh(s)
    ensures var t := MintPayment(s, alleged, AnyAmount).ledger;
            && t.live == s.live[s.nextPayment + 1 := amount] && t.recoverySets == s.recoverySets
            && t.baggage == s.baggage
  {
    MintPaymentCases(s, alleged, AnyAmount);
    AddConserves(s.purses[MINT_PURSE].balance, amount);
  }
}
