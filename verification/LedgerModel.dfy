/**
 * What each operation of an issuer does to its whole ledger, as functions on
 * values. The classes in PaymentLedger.dfy are proved to do exactly this; the
 * invariants are proved here, the results over whole runs in LedgerRuns.dfy.
 */
module LedgerModel {
  import opened Wrappers
  import opened AmountMath

  /** Payments and purses are object identities; both are numbered in order of creation. */
  type Payment = nat
  type PurseId = nat

  datatype RecoverySetsOption = HasRecoverySets | NoRecoverySets

  /** The state record of one purse: its balance and the recovery set unique to it. */
  datatype PurseState = PurseState(balance: Amount, recoverySet: set<Payment>)

  /** What happened so far. Nothing in the ledger reads it. */
  datatype History = History(
    minted: multiset<Key>,
    burned: multiset<Key>,
    // rights of payments used up by a deposit that then threw inside its commit point
    lost: multiset<Key>,
    // the purse each payment was withdrawn from
    origin: map<Payment, PurseId>,
    // 'hasRecoverySets' in this and every earlier incarnation
    alwaysHad: bool)

  datatype Ledger = Ledger(
    brand: Brand,
    kind: AssetKind,
    // recoverySetsState as stored in baggage; absent in issuers older than the option
    baggage: Option<RecoverySetsOption>,
    // recoverySetsState of the running incarnation
    mode: RecoverySetsOption,
    purses: seq<PurseState>,
    live: map<Payment, Amount>,           // paymentLedger
    recoverySets: map<Payment, PurseId>,  // paymentRecoverySets
    nextPayment: nat,
    history: History)

  datatype LedgerError =
    | MathFailed(why: MathError)
    | CommitFailed(why: MathError)
    | NotLive
    | ShapeMismatch
    | Insufficient
    | LeftoverRecoverySet
    | RecoverySetGiven
    | MintPurseChanged
    | Unrecovered
    | CannotUpgrade
    | RightsNotConserved

  /** The ledger after a call, and what the call returned or threw. */
  datatype Outcome<+T> = Outcome(ledger: Ledger, result: Result<T, LedgerError>)

  const MINT_PURSE: PurseId := 0

  // ------------------------------------------------------------- operations

  function EmptyHistory(mode: RecoverySetsOption): History {
    History(multiset{}, multiset{}, multiset{}, map[], mode.HasRecoverySets?)
  }

  /** makeDurableIssuerKit: the first incarnation, holding only the mint recovery purse. */
  function MakeIssuer(brand: Brand, kind: AssetKind, baggage: Option<RecoverySetsOption>): Ledger {
    var mode := if baggage.Some? then baggage.value else HasRecoverySets;
    Ledger(brand, kind, baggage, mode, [PurseState(AmountMath.MakeEmpty(brand, kind), {})],
           map[], map[], 0, EmptyHistory(mode))
  }

  /** upgradeIssuerKit: the next incarnation. What baggage says is read but never rewritten. */
  function Upgrade(s: Ledger, option: Option<RecoverySetsOption>): Outcome<()> {
    var previous := if s.baggage.Some? then s.baggage.value else HasRecoverySets;
    if previous.NoRecoverySets? && option == Some(HasRecoverySets) then Outcome(s, Err(CannotUpgrade))
    else
      var mode := if option.Some? then option.value else previous;
      Outcome(s.(mode := mode,
                 history := s.history.(alwaysHad := s.history.alwaysHad && mode.HasRecoverySets?)),
              Ok(()))
  }

  function MakeEmptyPurse(s: Ledger): Outcome<PurseId> {
    Outcome(s.(purses := s.purses + [PurseState(AmountMath.MakeEmpty(s.brand, s.kind), {})]), Ok(|s.purses|))
  }

  /** An assignment to state.currentBalance. */
  function SetBalance(s: Ledger, i: PurseId, balance: Amount): Ledger
    requires i < |s.purses|
  {
    s.(purses := s.purses[i := s.purses[i].(balance := balance)])
  }

  function InitPayment(s: Ledger, payment: Payment, amount: Amount, optRecoverySet: Option<PurseId>): Outcome<()>
    requires payment !in s.live && payment !in s.recoverySets
    requires optRecoverySet.Some? ==> optRecoverySet.value < |s.purses|
  {
    if s.mode.NoRecoverySets? && optRecoverySet.Some? then Outcome(s, Err(RecoverySetGiven))
    else if optRecoverySet.Some? && !IsEmpty(amount) then
      var i := optRecoverySet.value;
      var purse := s.purses[i].(recoverySet := s.purses[i].recoverySet + {payment});
      Outcome(s.(purses := s.purses[i := purse],
                 recoverySets := s.recoverySets[payment := i],
                 live := s.live[payment := amount]), Ok(()))
    else Outcome(s.(live := s.live[payment := amount]), Ok(()))
  }

  function DeletePayment(s: Ledger, payment: Payment): Ledger
    requires payment in s.live
    requires payment in s.recoverySets ==> s.recoverySets[payment] < |s.purses|
  {
    var s1 := s.(live := s.live - {payment});
    if payment in s.recoverySets then
      var i := s.recoverySets[payment];
      var purse := s.purses[i].(recoverySet := s.purses[i].recoverySet - {payment});
      s1.(recoverySets := s.recoverySets - {payment}, purses := s.purses[i := purse])
    else s1
  }

  /** purse.deposit. `shape` is the optional amount pattern; a caller without one passes the pattern that accepts all. */
  ghost function Deposit(s: Ledger, i: PurseId, payment: Payment, shape: Amount -> bool): Outcome<Amount>
    requires i < |s.purses| && RecoverySetsInRange(s)
    ensures var t := Deposit(s, i, payment, shape).ledger;
            RecoverySetsInRange(t) && |t.purses| == |s.purses| && t.brand == s.brand
  {
    if payment !in s.live then Outcome(s, Err(NotLive))
    else
      var amount := s.live[payment];
      if !shape(amount) then Outcome(s, Err(ShapeMismatch))
      else
        // COMMIT POINT: the payment is used up before the balance grows
        var s1 := DeletePayment(s, payment);
        match Add(s1.purses[i].balance, amount)
        case Ok(balance) => Outcome(SetBalance(s1, i, balance), Ok(amount))
        case Err(why) =>
          Outcome(s1.(history := s1.history.(lost := s1.history.lost + Holdings(amount.value))), Err(CommitFailed(why)))
  }

  /** maybeRecoverySet: the set to record withdrawals in, none without recovery sets, or a throw on leftovers. */
  function MaybeRecoverySet(s: Ledger, i: PurseId): Result<Option<PurseId>, LedgerError>
    requires i < |s.purses|
  {
    if s.mode.HasRecoverySets? then Ok(Some(i))
    else if s.purses[i].recoverySet != {} then Err(LeftoverRecoverySet)
    else Ok(None)
  }

  /** withdrawInternal, after the amount was coerced. */
  function WithdrawInternal(s: Ledger, i: PurseId, amount: Amount, optRecoverySet: Option<PurseId>): Outcome<Payment>
    requires i < |s.purses| && Fresh(s)
    requires optRecoverySet.Some? ==> optRecoverySet.value < |s.purses|
  {
    var payment := s.nextPayment;
    var s1 := s.(nextPayment := s.nextPayment + 1);
    match IsGTE(s.purses[i].balance, amount)
    case Err(why) => Outcome(s1, Err(MathFailed(why)))
    case Ok(false) => Outcome(s1, Err(Insufficient))
    case Ok(true) =>
      match Subtract(s.purses[i].balance, amount)
      case Err(why) => Outcome(s1, Err(MathFailed(why)))
      case Ok(balance) =>
        var s2 := SetBalance(s1.(history := s.history.(origin := s.history.origin[payment := i])), i, balance);
        var done := InitPayment(s2, payment, amount, optRecoverySet);
        Outcome(done.ledger, if done.result.Ok? then Ok(payment) else Err(done.result.error))
  }

  /** purse.withdraw on an amount that coercion leaves alone. */
  function WithdrawCoerced(s: Ledger, i: PurseId, amount: Amount): Outcome<Payment>
    requires i < |s.purses| && Fresh(s)
  {
    match MaybeRecoverySet(s, i)
    case Err(why) => Outcome(s, Err(why))
    case Ok(optRecoverySet) =>
      if amount.brand != s.brand then Outcome(s, Err(MathFailed(BrandMismatch)))
      else WithdrawInternal(s, i, amount, optRecoverySet)
  }

  function Withdraw(s: Ledger, i: PurseId, alleged: AllegedAmount): Outcome<Payment>
    requires i < |s.purses| && Fresh(s)
  {
    match MaybeRecoverySet(s, i)
    case Err(why) => Outcome(s, Err(why))
    case Ok(optRecoverySet) =>
      match Coerce(s.brand, alleged)
      case Err(why) => Outcome(s, Err(MathFailed(why)))
      case Ok(amount) => WithdrawInternal(s, i, amount, optRecoverySet)
  }

  function GetRecoverySet(s: Ledger, i: PurseId): Outcome<set<Payment>>
    requires i < |s.purses|
  {
    Outcome(s,
            match MaybeRecoverySet(s, i)
            case Err(why) => Err(why)
            case Ok(None) => Ok({})
            case Ok(Some(j)) => Ok(s.purses[i].recoverySet))
  }

  /** issuer.burn */
  ghost function Burn(s: Ledger, payment: Payment, shape: Amount -> bool): Outcome<Amount>
    requires RecoverySetsInRange(s)
  {
    if payment !in s.live then Outcome(s, Err(NotLive))
    else
      var amount := s.live[payment];
      if !shape(amount) then Outcome(s, Err(ShapeMismatch))
      else
        var s1 := DeletePayment(s, payment);
        Outcome(s1.(history := s1.history.(burned := s1.history.burned + Holdings(amount.value))), Ok(amount))
  }

  /** The raw payment of mintPayment, which must not escape: live, in no recovery set. */
  ghost function MintRaw(s: Ledger, amount: Amount): Ledger
  {
    s.(nextPayment := s.nextPayment + 1,
       live := s.live[s.nextPayment := amount],
       history := s.history.(minted := s.history.minted + Holdings(amount.value)))
  }

  /** mintPayment once the amount is accepted: deposit the raw payment, then withdraw the same amount. */
  ghost function MintCoerced(s: Ledger, amount: Amount): Outcome<Payment>
    requires MINT_PURSE < |s.purses| && RecoverySetsInRange(s) && Fresh(s)
  {
    var s1 := MintRaw(s, amount);
    var before := s1.purses[MINT_PURSE].balance;
    var deposited := Deposit(s1, MINT_PURSE, s.nextPayment, Exactly(amount));
    if deposited.result.Err? then Outcome(deposited.ledger, Err(deposited.result.error))
    else
      var withdrawn := WithdrawCoerced(deposited.ledger, MINT_PURSE, amount);
      if withdrawn.result.Err? then withdrawn
      else if withdrawn.ledger.purses[MINT_PURSE].balance != before
      then Outcome(withdrawn.ledger, Err(MintPurseChanged))
      else withdrawn
  }

  /** mint.mintPayment. `shape` is the element shape of the issuer. */
  ghost function MintPayment(s: Ledger, alleged: AllegedAmount, shape: Amount -> bool): Outcome<Payment>
    requires MINT_PURSE < |s.purses| && RecoverySetsInRange(s) && Fresh(s)
  {
    match Coerce(s.brand, alleged)
    case Err(why) => Outcome(s, Err(MathFailed(why)))
    case Ok(amount) =>
      if KindOf(amount.value) != s.kind || !shape(amount) then Outcome(s, Err(ShapeMismatch))
      else MintCoerced(s, amount)
  }

  predicate AnyAmount(a: Amount) { true }

  /** The pattern that is one amount. */
  function Exactly(amount: Amount): Amount -> bool { a => a == amount }

  /** The loop of recoverAll over the payments it has yet to visit. */
  ghost function RecoverFrom(s: Ledger, i: PurseId, order: seq<Payment>, amount: Amount): Outcome<Amount>
    requires i < |s.purses| && RecoverySetsInRange(s)
    ensures |RecoverFrom(s, i, order, amount).ledger.purses| == |s.purses|
    decreases |order|
  {
    if order == [] then Outcome(s, Ok(amount))
    else
      var d := Deposit(s, i, order[0], AnyAmount);
      if d.result.Err? then d
      else
        match Add(amount, d.result.value, Some(s.brand))
        case Err(why) => Outcome(d.ledger, Err(MathFailed(why)))
        case Ok(sum) => RecoverFrom(d.ledger, i, order[1..], sum)
  }

  /**
   * What the loop of recoverAll visits when it iterates over the set its deposits
   * delete from: each turn takes a key that is in the set at that moment and was
   * not visited before, until none is left or a turn throws.
   */
  ghost predicate Iterates(s: Ledger, i: PurseId, visited: set<Payment>, order: seq<Payment>, amount: Amount)
    requires i < |s.purses| && RecoverySetsInRange(s)
    decreases |order|
  {
    if order == [] then s.purses[i].recoverySet <= visited
    else
      && order[0] in s.purses[i].recoverySet && order[0] !in visited
      && var d := Deposit(s, i, order[0], AnyAmount);
         if d.result.Err? || Add(amount, d.result.value, Some(s.brand)).Err? then |order| == 1
         else Iterates(d.ledger, i, visited + {order[0]}, order[1..], Add(amount, d.result.value, Some(s.brand)).value)
  }

  /** Every element, each once. */
  ghost predicate Enumerates(order: seq<Payment>, elements: set<Payment>) {
    && (forall p :: p in order <==> p in elements)
    && (forall a, b :: 0 <= a < b < |order| ==> order[a] != order[b])
  }

  /** purse.recoverAll, where `order` is what its loop visits. */
  ghost function RecoverAll(s: Ledger, i: PurseId, order: seq<Payment>): Outcome<Amount>
    requires i < |s.purses| && RecoverySetsInRange(s)
  {
    var empty := AmountMath.MakeEmpty(s.brand, s.kind);
    match MaybeRecoverySet(s, i)
    case Err(why) => Outcome(s, Err(why))
    case Ok(None) => Outcome(s, Ok(empty))
    case Ok(Some(_)) =>
      var r := RecoverFrom(s, i, order, empty);
      if r.result.Ok? && r.ledger.purses[i].recoverySet != {} then Outcome(r.ledger, Err(Unrecovered)) else r
  }

  // -------------------------------------------------------------- invariants

  /** makePayment makes a new object: its number is in no table yet. */
  ghost predicate Fresh(s: Ledger) {
    && (forall p :: p in s.live ==> p < s.nextPayment)
    && (forall p :: p in s.recoverySets ==> p < s.nextPayment)
  }

  ghost predicate RecoverySetsInRange(s: Ledger) {
    forall p :: p in s.recoverySets ==> s.recoverySets[p] < |s.purses|
  }

  /** Every stored amount has the issuer's brand and asset kind. */
  ghost predicate WellKinded(s: Ledger) {
    && (forall p :: p in s.live ==> s.live[p].brand == s.brand && KindOf(s.live[p].value) == s.kind)
    && (forall i :: 0 <= i < |s.purses| ==>
          s.purses[i].balance.brand == s.brand && KindOf(s.purses[i].balance.value) == s.kind)
  }

  /** The invariants listed beside the declaration of paymentRecoverySets. */
  ghost predicate RecoveryInv(s: Ledger) {
    && RecoverySetsInRange(s)
    && (forall p :: p in s.recoverySets ==> p in s.live && !IsEmpty(s.live[p]))
    && (forall p :: p in s.recoverySets ==> p in s.purses[s.recoverySets[p]].recoverySet)
    && (forall i, p :: 0 <= i < |s.purses| && p in s.purses[i].recoverySet ==>
          p in s.recoverySets && s.recoverySets[p] == i)
    && (forall p :: p in s.recoverySets ==> p in s.history.origin && s.history.origin[p] == s.recoverySets[p])
  }

  /** What the recovery-set mode, past and present, implies. */
  ghost predicate ModeInv(s: Ledger) {
    && (s.history.alwaysHad ==> s.mode.HasRecoverySets?)
    && (s.history.alwaysHad ==> forall p :: p in s.live && !IsEmpty(s.live[p]) ==> p in s.recoverySets)
    && (s.baggage == Some(NoRecoverySets) ==> s.mode.NoRecoverySets? && s.recoverySets == map[])
  }

  ghost function SumPurses(purses: seq<PurseState>): multiset<Key> {
    if purses == [] then multiset{}
    else SumPurses(purses[..|purses| - 1]) + Holdings(purses[|purses| - 1].balance.value)
  }

  /** The rights in live payments numbered below n. */
  ghost function SumLive(live: map<Payment, Amount>, n: nat): multiset<Key> {
    if n == 0 then multiset{}
    else SumLive(live, n - 1) + (if n - 1 in live then Holdings(live[n - 1].value) else multiset{})
  }

  ghost function Total(s: Ledger): multiset<Key> {
    SumPurses(s.purses) + SumLive(s.live, s.nextPayment)
  }

  /** All rights ever minted are in purses, in live payments, burned, or lost to a failed commit. */
  ghost predicate Conserved(s: Ledger) {
    && s.history.minted == Total(s) + s.history.burned + s.history.lost
    && (AddIsTotal(s.kind) ==> s.history.lost == multiset{})
  }

  /** The part of the invariant that says how the tables fit together. */
  ghost predicate Sound(s: Ledger) {
    MINT_PURSE < |s.purses| && Fresh(s) && WellKinded(s) && RecoveryInv(s) && ModeInv(s)
  }

  ghost predicate Inv(s: Ledger) {
    Sound(s) && Conserved(s)
  }

  /** What no step undoes: payments keep their amount while live and never come back. */
  ghost predicate Evolves(s: Ledger, t: Ledger) {
    && s.brand == t.brand && s.kind == t.kind && s.baggage == t.baggage
    && |s.purses| <= |t.purses| && s.nextPayment <= t.nextPayment
    && (forall p :: p in s.live && p in t.live ==> s.live[p] == t.live[p])
    && (forall p :: p < s.nextPayment && p in t.live ==> p in s.live)
    && (forall p :: p < s.nextPayment && p in t.recoverySets ==> p in s.recoverySets && t.recoverySets[p] == s.recoverySets[p])
    && (forall p :: p < s.nextPayment ==> (p in t.history.origin <==> p in s.history.origin))
    && (forall p :: p < s.nextPayment && p in s.history.origin ==> t.history.origin[p] == s.history.origin[p])
    && s.history.minted <= t.history.minted
    && s.history.burned <= t.history.burned
    && s.history.lost <= t.history.lost
    && (t.history.alwaysHad ==> s.history.alwaysHad)
  }

  // ------------------------------------------------------- sums over the maps

  lemma {:induction false} SumPursesUpdate(purses: seq<PurseState>, i: nat, p: PurseState)
    requires i < |purses|
    ensures SumPurses(purses[i := p]) + Holdings(purses[i].balance.value)
            == SumPurses(purses) + Holdings(p.balance.value)
  {
    var n := |purses| - 1;
    var updated := purses[i := p];
    if i == n {
      assert updated[..n] == purses[..n];
    } else {
      SumPursesUpdate(purses[..n], i, p);
      assert updated[..n] == purses[..n][i := p];
      var last := Holdings(purses[n].balance.value);
      var before, after := Holdings(purses[i].balance.value), Holdings(p.balance.value);
      assert SumPurses(updated) + before == (SumPurses(updated[..n]) + before) + last;
      assert SumPurses(purses) + after == (SumPurses(purses[..n]) + after) + last;
    }
  }

  lemma {:induction false} SumLiveSame(live: map<Payment, Amount>, other: map<Payment, Amount>, n: nat)
    requires forall p :: p < n ==> (p in live <==> p in other) && (p in live ==> live[p].value == other[p].value)
    ensures SumLive(live, n) == SumLive(other, n)
  {
    if n > 0 { SumLiveSame(live, other, n - 1); }
  }

  lemma {:induction false} SumLiveAdd(live: map<Payment, Amount>, p: Payment, a: Amount, n: nat)
    requires p !in live && p < n
    ensures SumLive(live[p := a], n) == SumLive(live, n) + Holdings(a.value)
  {
    if p == n - 1 { SumLiveSame(live[p := a], live, n - 1); } else { SumLiveAdd(live, p, a, n - 1); }
  }

  lemma SumLiveRemove(live: map<Payment, Amount>, p: Payment, n: nat)
    requires p in live && p < n
    ensures SumLive(live, n) == SumLive(live - {p}, n) + Holdings(live[p].value)
  {
    SumLiveAdd(live - {p}, p, live[p], n);
    assert (live - {p})[p := live[p]] == live;
  }

  lemma Cancel(a: multiset<Key>, b: multiset<Key>, c: multiset<Key>)
    requires a + c == b + c
    ensures a == b
  {
    assert (a + c) - c == a;
    assert (b + c) - c == b;
  }

  // ------------------------------------------------ each operation keeps Inv

  lemma SoundOf(s: Ledger)
    requires Inv(s)
    ensures Sound(s) && Conserved(s) && RecoverySetsInRange(s) && Fresh(s) && MINT_PURSE < |s.purses|
  {
  }


  lemma MakeIssuerInv(brand: Brand, kind: AssetKind, baggage: Option<RecoverySetsOption>)
    ensures Inv(MakeIssuer(brand, kind, baggage))
  {
    var s := MakeIssuer(brand, kind, baggage);
    EmptyHoldsNothing(s.purses[0].balance);
    assert s.purses[..0] == [];
    assert SumPurses(s.purses) == multiset{};
  }

  /** A new issuer: nothing but the mint recovery purse, empty, and recovery sets unless baggage says otherwise. */
  lemma MakeIssuerIs(brand: Brand, kind: AssetKind, baggage: Option<RecoverySetsOption>)
    ensures var s := MakeIssuer(brand, kind, baggage);
            && s.brand == brand && s.kind == kind && s.baggage == baggage
            && (s.mode.NoRecoverySets? <==> baggage == Some(NoRecoverySets))
            && |s.purses| == 1 && s.purses[MINT_PURSE].recoverySet == {} && s.live == map[] && s.recoverySets == map[]
            && s.purses[MINT_PURSE].balance.brand == brand && KindOf(s.purses[MINT_PURSE].balance.value) == kind
            && Holdings(s.purses[MINT_PURSE].balance.value) == multiset{} && s.nextPayment == 0
  {
  }

  /**
   * upgradeIssuerKit throws iff recovery sets are asked for where baggage rules them
   * out; otherwise the mode is what was asked for, else what baggage says, else
   * recovery sets, and no table, purse or baggage changes.
   */
  lemma UpgradeIs(s: Ledger, option: Option<RecoverySetsOption>)
    ensures var u := Upgrade(s, option);
            && (u.result.Err? <==> s.baggage == Some(NoRecoverySets) && option == Some(HasRecoverySets))
            && (u.result.Err? ==> u == Outcome(s, Err(CannotUpgrade)))
            && (u.result.Ok? ==>
                  && (u.ledger.mode.NoRecoverySets? <==>
                        option == Some(NoRecoverySets) || (option.None? && s.baggage == Some(NoRecoverySets)))
                  && u.ledger == s.(mode := u.ledger.mode, history := s.history.(alwaysHad := u.ledger.history.alwaysHad)))
  {
  }

  /** makeEmptyPurse adds one purse, with no rights and no payments, after the others. */
  lemma MakeEmptyPurseIs(s: Ledger)
    ensures var (t, i) := (MakeEmptyPurse(s).ledger, MakeEmptyPurse(s).result);
            && i == Ok(|s.purses|) && |t.purses| == |s.purses| + 1 && t == s.(purses := t.purses)
            && t.purses[..|s.purses|] == s.purses && t.purses[|s.purses|].recoverySet == {}
            && t.purses[|s.purses|].balance.brand == s.brand && KindOf(t.purses[|s.purses|].balance.value) == s.kind
            && Holdings(t.purses[|s.purses|].balance.value) == multiset{}
  {
  }

  /** initPayment throws iff it is given a recovery set while there are none, and then changes nothing. */
  lemma InitPaymentThrowsIff(s: Ledger, payment: Payment, amount: Amount, optRecoverySet: Option<PurseId>)
    requires payment !in s.live && payment !in s.recoverySets
    requires optRecoverySet.Some? ==> optRecoverySet.value < |s.purses|
    ensures var t := InitPayment(s, payment, amount, optRecoverySet);
            && (t.result.Err? <==> s.mode.NoRecoverySets? && optRecoverySet.Some?)
            && (t.result.Err? ==> t == Outcome(s, Err(RecoverySetGiven)))
            && (t.result.Ok? ==> t.ledger.live == s.live[payment := amount])
            && (t.result.Ok? ==> (payment in t.ledger.recoverySets <==> optRecoverySet.Some? && Holdings(amount.value) != multiset{}))
  {
    EmptyHoldsNothing(amount);
    hide Holdings, IsEmpty;
  }

  lemma UpgradeInv(s: Ledger, option: Option<RecoverySetsOption>)
    requires Inv(s)
    ensures Inv(Upgrade(s, option).ledger)
  {
  }

  lemma UpgradeEvolves(s: Ledger, option: Option<RecoverySetsOption>)
    ensures Evolves(s, Upgrade(s, option).ledger)
  {
  }

  lemma MakeEmptyPurseInv(s: Ledger)
    requires Inv(s)
    ensures Inv(MakeEmptyPurse(s).ledger)
  {
  }

  /** deletePayment takes the payment out of every table it is in, and changes nothing else. */
  lemma DeletePaymentTables(s: Ledger, payment: Payment)
    requires Sound(s) && payment in s.live
    ensures var t := DeletePayment(s, payment);
            && t.live == s.live - {payment}
            && t.recoverySets == s.recoverySets - {payment}
            && |t.purses| == |s.purses|
            && (forall i :: 0 <= i < |s.purses| ==>
                  t.purses[i] == s.purses[i].(recoverySet := s.purses[i].recoverySet - {payment}))
  {
  }

  lemma DeletePaymentSound(s: Ledger, payment: Payment)
    requires Sound(s) && payment in s.live
    ensures Sound(DeletePayment(s, payment))
  {
    DeletePaymentTables(s, payment);
    var t := DeletePayment(s, payment);
    assert t.mode == s.mode && t.baggage == s.baggage && t.history == s.history && t.nextPayment == s.nextPayment
           && t.brand == s.brand && t.kind == s.kind;
    hide DeletePayment, IsEmpty;
    assert Fresh(t) && WellKinded(t) by { hide RecoveryInv, ModeInv; }
    assert RecoveryInv(t) by { hide Fresh, WellKinded, ModeInv; }
    hide Fresh, WellKinded, RecoveryInv;
  }

  lemma DeletePaymentTotal(s: Ledger, payment: Payment)
    requires Sound(s) && payment in s.live
    ensures Total(s) == Total(DeletePayment(s, payment)) + Holdings(s.live[payment].value)
  {
    var t := DeletePayment(s, payment);
    SumLiveRemove(s.live, payment, s.nextPayment);
    if payment in s.recoverySets {
      var i := s.recoverySets[payment];
      SumPursesUpdate(s.purses, i, t.purses[i]);
      Cancel(SumPurses(t.purses), SumPurses(s.purses), Holdings(s.purses[i].balance.value));
    }
  }

  /** Changing one balance, within the issuer's brand and kind, leaves the tables as sound as they were. */
  lemma SetBalanceSound(s: Ledger, i: PurseId, balance: Amount)
    requires Sound(s) && i < |s.purses|
    requires balance.brand == s.brand && KindOf(balance.value) == s.kind
    ensures Sound(SetBalance(s, i, balance))
  {
  }

  lemma SetBalanceTotal(s: Ledger, i: PurseId, balance: Amount, delta: multiset<Key>)
    requires i < |s.purses|
    requires Holdings(balance.value) == Holdings(s.purses[i].balance.value) + delta
    ensures Total(SetBalance(s, i, balance)) == Total(s) + delta
  {
    var t := SetBalance(s, i, balance);
    var before := Holdings(s.purses[i].balance.value);
    SumPursesUpdate(s.purses, i, t.purses[i]);
    assert SumPurses(t.purses) + before == (SumPurses(s.purses) + delta) + before;
    Cancel(SumPurses(t.purses), SumPurses(s.purses) + delta, before);
  }

  /** The tables do not read the sums kept in the history. */
  lemma HistorySound(s: Ledger, h: History)
    requires Sound(s)
    requires h.origin == s.history.origin && h.alwaysHad == s.history.alwaysHad
    ensures Sound(s.(history := h)) && Total(s.(history := h)) == Total(s)
  {
  }

  lemma SoundFacts(s: Ledger, payment: Payment)
    requires Sound(s) && payment in s.live
    ensures RecoverySetsInRange(s)
    ensures s.live[payment].brand == s.brand && KindOf(s.live[payment].value) == s.kind
  {
  }

  lemma DepositInv(s: Ledger, i: PurseId, payment: Payment, shape: Amount -> bool)
    requires Inv(s) && i < |s.purses|
    ensures RecoverySetsInRange(s) && Inv(Deposit(s, i, payment, shape).ledger)
  {
    assert RecoverySetsInRange(s);
    hide Sound, Total, Holdings, AmountMath.Add, RecoverySetsInRange;
    if payment in s.live && shape(s.live[payment]) {
      var amount := s.live[payment];
      SoundFacts(s, payment);
      var s1 := DeletePayment(s, payment);
      var t := Deposit(s, i, payment, shape).ledger;
      DeletePaymentSound(s, payment);
      DeletePaymentTotal(s, payment);
      DepositCommit(s1, i, amount);
      HistorySound(s1, t.history);
    }
  }

  /** The second half of a deposit: the rights of `amount`, out of every table, enter the purse or are lost. */
  lemma DepositCommit(s: Ledger, i: PurseId, amount: Amount)
    requires Sound(s) && i < |s.purses|
    requires amount.brand == s.brand && KindOf(amount.value) == s.kind
    ensures var sum := Add(s.purses[i].balance, amount);
            && (sum.Ok? ==> Sound(SetBalance(s, i, sum.value))
                            && Total(SetBalance(s, i, sum.value)) == Total(s) + Holdings(amount.value))
            && (sum.Err? ==> !AddIsTotal(s.kind))
  {
    AddConserves(s.purses[i].balance, amount);
    var sum := Add(s.purses[i].balance, amount);
    if sum.Ok? {
      SetBalanceSound(s, i, sum.value);
      SetBalanceTotal(s, i, sum.value, Holdings(amount.value));
    }
  }

  lemma DepositEvolves(s: Ledger, i: PurseId, payment: Payment, shape: Amount -> bool)
    requires Inv(s) && i < |s.purses|
    ensures Evolves(s, Deposit(s, i, payment, shape).ledger)
  {
  }

  lemma BurnInv(s: Ledger, payment: Payment, shape: Amount -> bool)
    requires Inv(s)
    ensures RecoverySetsInRange(s) && Inv(Burn(s, payment, shape).ledger)
  {
    assert RecoverySetsInRange(s);
    hide Sound, Total, Holdings, RecoverySetsInRange;
    if payment in s.live && shape(s.live[payment]) {
      DeletePaymentSound(s, payment);
      DeletePaymentTotal(s, payment);
      HistorySound(DeletePayment(s, payment), Burn(s, payment, shape).ledger.history);
    }
  }

  /** Burning uses up exactly a live payment of the accepted shape, out of every table, and touches no balance. */
  lemma BurnEffect(s: Ledger, payment: Payment, shape: Amount -> bool)
    requires Sound(s)
    ensures RecoverySetsInRange(s)
    ensures var b := Burn(s, payment, shape);
            && (b.result.Ok? <==> payment in s.live && shape(s.live[payment]))
            && (b.result.Err? ==> b == Outcome(s, Err(if payment in s.live then ShapeMismatch else NotLive)))
            && (b.result.Ok? ==>
                  && b.result.value == s.live[payment]
                  && b.ledger.live == s.live - {payment} && b.ledger.recoverySets == s.recoverySets - {payment}
                  && |b.ledger.purses| == |s.purses|
                  && (forall i :: 0 <= i < |s.purses| ==>
                        && b.ledger.purses[i].balance == s.purses[i].balance
                        && b.ledger.purses[i].recoverySet == s.purses[i].recoverySet - {payment})
                  && b.ledger.history.burned == s.history.burned + Holdings(s.live[payment].value))
  {
    assert RecoverySetsInRange(s);
    if payment in s.live { DeletePaymentTables(s, payment); }
    hide Sound, Holdings, DeletePayment, RecoverySetsInRange;
  }

  lemma BurnEvolves(s: Ledger, payment: Payment, shape: Amount -> bool)
    requires Inv(s)
    ensures Evolves(s, Burn(s, payment, shape).ledger)
  {
  }

  /** A payment made for purse i, in its recovery set exactly when sets are on and the amount is not empty. */
  lemma InitPaymentSound(s: Ledger, payment: Payment, amount: Amount, i: PurseId)
    requires Sound(s) && i < |s.purses| && MaybeRecoverySet(s, i).Ok?
    requires payment < s.nextPayment && payment !in s.live && payment !in s.recoverySets
    requires amount.brand == s.brand && KindOf(amount.value) == s.kind
    requires payment in s.history.origin && s.history.origin[payment] == i
    ensures Sound(InitPayment(s, payment, amount, MaybeRecoverySet(s, i).value).ledger)
    ensures InitPayment(s, payment, amount, MaybeRecoverySet(s, i).value).result.Ok?
  {
    hide Holdings;
    var t := InitPayment(s, payment, amount, MaybeRecoverySet(s, i).value).ledger;
    assert Fresh(t) && WellKinded(t) by { hide RecoveryInv, ModeInv; }
    assert ModeInv(t) by { hide RecoveryInv, Fresh, WellKinded; }
    InitPaymentRecovery(s, payment, amount, i);
    hide ModeInv, Fresh, WellKinded, RecoveryInv;
  }

  lemma InitPaymentRecovery(s: Ledger, payment: Payment, amount: Amount, i: PurseId)
    requires RecoveryInv(s) && i < |s.purses| && MaybeRecoverySet(s, i).Ok?
    requires payment !in s.live && payment !in s.recoverySets
    requires payment in s.history.origin && s.history.origin[payment] == i
    ensures RecoveryInv(InitPayment(s, payment, amount, MaybeRecoverySet(s, i).value).ledger)
  {
    var t := InitPayment(s, payment, amount, MaybeRecoverySet(s, i).value).ledger;
    forall j, p | 0 <= j < |t.purses| && p in t.purses[j].recoverySet
      ensures p in t.recoverySets && t.recoverySets[p] == j
    {
      if p != payment { assert p in s.purses[j].recoverySet; }
    }
  }

  lemma NumberPaymentSound(s: Ledger, i: PurseId)
    requires Sound(s)
    ensures Sound(s.(nextPayment := s.nextPayment + 1,
                     history := s.history.(origin := s.history.origin[s.nextPayment := i])))
  {
  }

  lemma SkipNumberSound(s: Ledger)
    requires Sound(s)
    ensures Sound(s.(nextPayment := s.nextPayment + 1))
    ensures Total(s.(nextPayment := s.nextPayment + 1)) == Total(s)
  {
  }

  /** A withdrawal succeeds exactly when the purse covers it; otherwise only a payment number is gone. */
  lemma WithdrawInternalResult(s: Ledger, i: PurseId, amount: Amount)
    requires Sound(s) && i < |s.purses| && MaybeRecoverySet(s, i).Ok?
    ensures var w := WithdrawInternal(s, i, amount, MaybeRecoverySet(s, i).value);
            && (w.result.Ok? <==> IsGTE(s.purses[i].balance, amount) == Ok(true))
            && (w.result.Err? ==> w.ledger == s.(nextPayment := s.nextPayment + 1))
  {
  }

  /**
   * A successful withdrawal: a new live payment of the amount, taken out of this
   * purse and recorded in its set if it is not empty and sets are on. Nothing else
   * changes.
   */
  lemma WithdrawInternalEffect(s: Ledger, i: PurseId, amount: Amount)
    requires Sound(s) && i < |s.purses| && MaybeRecoverySet(s, i).Ok? && IsGTE(s.purses[i].balance, amount) == Ok(true)
    ensures var w := WithdrawInternal(s, i, amount, MaybeRecoverySet(s, i).value);
            var recoverable := s.mode.HasRecoverySets? && !IsEmpty(amount);
            && w.result == Ok(s.nextPayment) && s.nextPayment !in s.live
            && w.ledger.live == s.live[s.nextPayment := amount]
            && |w.ledger.purses| == |s.purses|
            && Add(w.ledger.purses[i].balance, amount) == Ok(s.purses[i].balance)
            && w.ledger.purses[i].recoverySet == s.purses[i].recoverySet + (if recoverable then {s.nextPayment} else {})
            && w.ledger.recoverySets == (if recoverable then s.recoverySets[s.nextPayment := i] else s.recoverySets)
            && (forall j :: 0 <= j < |s.purses| && j != i ==> w.ledger.purses[j] == s.purses[j])
  {
    SubtractThenAdd(s.purses[i].balance, amount);
    hide AmountMath.Add, AmountMath.Subtract, AmountMath.IsGTE;
  }

  /** The ledger of a withdrawal from just before initPayment. */
  ghost function Debited(s: Ledger, i: PurseId, left: Amount): Ledger
    requires i < |s.purses|
  {
    SetBalance(s.(nextPayment := s.nextPayment + 1,
                  history := s.history.(origin := s.history.origin[s.nextPayment := i])), i, left)
  }

  lemma DebitedSound(s: Ledger, i: PurseId, amount: Amount)
    requires Sound(s) && i < |s.purses| && IsGTE(s.purses[i].balance, amount) == Ok(true)
    ensures Subtract(s.purses[i].balance, amount).Ok?
    ensures amount.brand == s.brand && KindOf(amount.value) == s.kind
    ensures var t := Debited(s, i, Subtract(s.purses[i].balance, amount).value);
            Sound(t) && Total(t) + Holdings(amount.value) == Total(s)
  {
    var balance := s.purses[i].balance;
    assert balance.brand == s.brand && KindOf(balance.value) == s.kind;
    assert Total(Debited(s, i, balance)) == Total(s) by {
      assert Debited(s, i, balance).purses == s.purses;
    }
    SubtractConserves(balance, amount);
    GTEIsInclusion(balance, amount);
    NumberPaymentSound(s, i);
    assert Debited(s, i, balance) == s.(nextPayment := s.nextPayment + 1,
                     history := s.history.(origin := s.history.origin[s.nextPayment := i]));
    hide Sound, Total, Holdings, AmountMath.IsGTE, AmountMath.Subtract;
    var left := Subtract(balance, amount).value;
    var t := Debited(s, i, left);
    assert t == SetBalance(Debited(s, i, balance), i, left);
    SetBalanceSound(Debited(s, i, balance), i, left);
    assert SetBalance(t, i, balance) == Debited(s, i, balance);
    SetBalanceTotal(t, i, balance, Holdings(amount.value));
  }

  /** A covered withdrawal is a debit followed by initPayment. */
  lemma WithdrawIsInit(s: Ledger, i: PurseId, amount: Amount)
    requires Sound(s) && i < |s.purses| && MaybeRecoverySet(s, i).Ok?
    requires IsGTE(s.purses[i].balance, amount) == Ok(true) && Subtract(s.purses[i].balance, amount).Ok?
    ensures var t := Debited(s, i, Subtract(s.purses[i].balance, amount).value);
            && s.nextPayment !in t.live && s.nextPayment !in t.recoverySets && s.nextPayment < t.nextPayment
            && s.nextPayment in t.history.origin && t.history.origin[s.nextPayment] == i
            && i < |t.purses| && t.brand == s.brand && t.kind == s.kind
            && t.history == s.history.(origin := t.history.origin)
            && MaybeRecoverySet(t, i) == MaybeRecoverySet(s, i)
            && WithdrawInternal(s, i, amount, MaybeRecoverySet(s, i).value).ledger
               == InitPayment(t, s.nextPayment, amount, MaybeRecoverySet(t, i).value).ledger
  {
  }

  lemma InitPaymentHistory(s: Ledger, payment: Payment, amount: Amount, optRecoverySet: Option<PurseId>)
    requires payment !in s.live && payment !in s.recoverySets
    requires optRecoverySet.Some? ==> optRecoverySet.value < |s.purses|
    ensures var t := InitPayment(s, payment, amount, optRecoverySet).ledger;
            t.history == s.history && t.kind == s.kind
  {
  }

  lemma WithdrawInternalInv(s: Ledger, i: PurseId, amount: Amount)
    requires Inv(s) && i < |s.purses| && MaybeRecoverySet(s, i).Ok?
    ensures Fresh(s) && Inv(WithdrawInternal(s, i, amount, MaybeRecoverySet(s, i).value).ledger)
  {
    assert Fresh(s);
    hide Sound, Total, Holdings, Fresh, AmountMath.IsGTE, AmountMath.Subtract, WithdrawInternal, InitPayment, Debited, MaybeRecoverySet;
    WithdrawInternalResult(s, i, amount);
    if IsGTE(s.purses[i].balance, amount) == Ok(true) {
      DebitedSound(s, i, amount);
      var t := Debited(s, i, Subtract(s.purses[i].balance, amount).value);
      WithdrawIsInit(s, i, amount);
      InitPaymentSound(t, s.nextPayment, amount, i);
      InitPaymentTotal(t, s.nextPayment, amount, i);
      InitPaymentHistory(t, s.nextPayment, amount, MaybeRecoverySet(t, i).value);
    } else {
      SkipNumberSound(s);
    }
  }

  lemma InitPaymentTotal(s: Ledger, payment: Payment, amount: Amount, i: PurseId)
    requires Sound(s) && i < |s.purses| && MaybeRecoverySet(s, i).Ok?
    requires payment < s.nextPayment && payment !in s.live && payment !in s.recoverySets
    ensures Total(InitPayment(s, payment, amount, MaybeRecoverySet(s, i).value).ledger)
            == Total(s) + Holdings(amount.value)
  {
    var t := InitPayment(s, payment, amount, MaybeRecoverySet(s, i).value).ledger;
    SumLiveAdd(s.live, payment, amount, s.nextPayment);
    if t.purses != s.purses {
      SumPursesUpdate(s.purses, i, t.purses[i]);
      Cancel(SumPurses(t.purses), SumPurses(s.purses), Holdings(s.purses[i].balance.value));
    }
  }

  lemma WithdrawInternalEvolves(s: Ledger, i: PurseId, amount: Amount)
    requires Sound(s) && i < |s.purses| && MaybeRecoverySet(s, i).Ok?
    ensures Evolves(s, WithdrawInternal(s, i, amount, MaybeRecoverySet(s, i).value).ledger)
  {
    var t := WithdrawInternal(s, i, amount, MaybeRecoverySet(s, i).value).ledger;
    hide *;
    WithdrawInternalKeeps(s, i, amount);
    KeepsOldPayments(s, t, i, amount);
  }

  /** What a withdrawal may change: the next payment's entries, and nothing about any other payment. */
  ghost predicate OnlyNewPayment(s: Ledger, t: Ledger, i: PurseId, amount: Amount) {
    var p := s.nextPayment;
    && t.brand == s.brand && t.kind == s.kind && t.baggage == s.baggage
    && |t.purses| == |s.purses| && t.nextPayment == p + 1
    && (t.live == s.live || t.live == s.live[p := amount])
    && (t.recoverySets == s.recoverySets || t.recoverySets == s.recoverySets[p := i])
    && (t.history == s.history || t.history == s.history.(origin := s.history.origin[p := i]))
  }

  lemma WithdrawInternalKeeps(s: Ledger, i: PurseId, amount: Amount)
    requires Sound(s) && i < |s.purses| && MaybeRecoverySet(s, i).Ok?
    ensures OnlyNewPayment(s, WithdrawInternal(s, i, amount, MaybeRecoverySet(s, i).value).ledger, i, amount)
  {
    hide WellKinded, ModeInv, Holdings, IsEmpty, AmountMath.IsGTE, AmountMath.Subtract;
  }

  lemma KeepsOldPayments(s: Ledger, t: Ledger, i: PurseId, amount: Amount)
    requires Sound(s) && OnlyNewPayment(s, t, i, amount)
    ensures Evolves(s, t)
  {
    assert Fresh(s);
    hide Sound;
  }
}
