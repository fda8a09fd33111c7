# Verified models of the Agoric SDK's ledger, membrane and bridge code

A Dafny project that models the stateful cores of the Agoric SDK and proves what
they promise over every input and every run.

* **ERTP payment ledger** (`AmountMath`, `LedgerModel`, `MintAndRecover`,
  `LedgerRuns`, `PaymentLedger`). An issuer keeps a map of live payments, a map
  from payments to recovery sets, and purses with a balance and a recovery set
  each. What every operation does to the whole ledger is a function in
  `LedgerModel` and `MintAndRecover`; the classes `Purse` and `IssuerKit` do it
  in place and are proved to do exactly that. Amounts are measured by the multiset
  of rights they stand for, which turns conservation into equations on multisets
  for all four asset kinds. `LedgerRuns` proves conservation, linearity of
  payments, exactness of recovery sets and the recovery-set modes over whole runs
  with upgrades and calls that throw.
* **Legacy payment helpers** (`LegacyPayments`, `LegacyHelpers`): claim, combine,
  split and splitMany over a recovery purse, when they succeed or fail, and what a
  failure leaves where.
* **async-flow replay membrane** (`Bijection`, `Convert`): the growing two-way map
  with hidden guest wrappers, and conversion of passable data that extends it.
* **Baggage check** (`BaggageCheck`): the worklist computes exactly reachability.
* **VM bridge** (`ClientCodec`, `AgdServer`): the request/reply protocol and the
  port registry.
* **Address hooks** (`AddressHooks`), **inbound admission** (`InboundAnte`),
  **access-token store** (`JsonStore`), **KVEntry streams** (`JsonText`,
  `KVStream`) and the **XS snapshot reader** (`SnapshotReader`).

Where the source updates objects in place, the model is a class. The methods of
`BaggageCheck.Checker` carry their results as contracts of their own; those of the
other classes are proved equal to a function on the abstract state, and the theorems
are about that function. `Wrappers` holds Option and Result.

Where code and description differ, the model follows the code:

* Upgrading an issuer reads the recovery-set mode from baggage and never writes it
  back. The description of the option (packages/ERTP/src/types.ts:281-294) says the
  mode cannot change on upgrade; in fact an issuer created with recovery sets can be
  taken to 'noRecoverySets' and back. A live payment is then in a recovery set iff it
  is not empty and was made while recovery sets were on
  (`LedgerRuns.ModeCanReturnIff`, `LedgerRuns.RecoverableIff`,
  `LedgerRuns.ReturnedModeMissesPayments`).
* With recovery sets turned off and entries left over in the mint recovery purse,
  mintPayment mints into that purse and then throws
  (`MintAndRecover.MintPaymentEffect`, `LedgerRuns.MintThenThrowExample`).
* Exactly two things keep a passable value of the membrane from surviving the round
  trip: a value tagged 'Vow' that is not a vow but becomes shaped like one, and the
  bare shortener of a vow that is met after the vow (`Convert.RoundTripIff`,
  `Convert.FakeVowExample`, `Convert.BareShortenerExample`). Up to the key of each
  capability only the first does (`Convert.RoundTripByKeyIff`).
* In the port registry, the comment that a port has a handler iff its name is
  nonempty holds unless a handler is registered under the empty name
  (`AgdServer.HandlerIffNamed`, `AgdServer.EmptyNameExample`).
* The bridge reports an error answer with an empty message as a success
  (`ClientCodec.ResponsesAreRight`, `ClientCodec.EmptyErrorExample`). A request
  numbered 2^64 - 1 that wants a reply is sent with reply port 0, which means "no
  reply", and it is the only request that never completes
  (`ClientCodec.AllRequestsComplete`, `ClientCodec.LastRequestExample`).
* After the end of the input has been reported once, a further read past it in the
  snapshot reader never finishes. A section header that declares less than 8 bytes
  makes the reader go back; when it declares less than 4, what is read next depends
  on how the input was cut into chunks (`SnapshotReader.GatherCorrect`,
  `SnapshotReader.NegativeLengthRewinds`, `SnapshotReader.ShortSectionIff`).

## Model

| member | source | states |
|---|---|---|
| AmountMath.HoldingsInjective | packages/ERTP/src/types.ts:436-472 | within one kind, two values stand for the same rights iff they are the same value, so the laws below lose nothing |
| AmountMath.CoerceIs | packages/ERTP/src/amountMath.js:216-241 | coerce accepts exactly a value of the right brand that is a non-negative bigint, an array without duplicates, a copySet or a copyBag, and gives the one amount of that kind that holds the rights passed |
| AmountMath.StoredCoercesToItself | packages/ERTP/src/amountMath.js:216-241 | every amount can be passed back as a value, and in whatever form it is, it coerces to itself |
| AmountMath.AddConserves | packages/ERTP/src/amountMath.js:325-330 | add holds exactly the rights of both sides; on amounts of one brand and kind it throws only when set-like values overlap |
| AmountMath.SubtractConserves | packages/ERTP/src/amountMath.js:345-350 | subtract succeeds iff left is greater or equal, and what is left plus the right side is the left side |
| AmountMath.GTEIsInclusion | packages/ERTP/src/amountMath.js:179-182 | isGTE is defined exactly on one brand and kind, and is inclusion of rights |
| AmountMath.GTEIsPartialOrder | packages/ERTP/src/amountMath.js:297-311 | isGTE is a partial order with the empty amount below all, isEqual is isGTE both ways, a sum is above its parts |
| AmountMath.EmptyHoldsNothing | packages/ERTP/src/amountMath.js:260-296 | an amount is empty iff it holds no rights iff it is makeEmpty of its own brand and kind |
| AmountMath.AddThenSubtract | packages/ERTP/src/amountMath.js:325-350 | adding then subtracting the same amount gives the first amount back |
| AmountMath.SubtractThenAdd | packages/ERTP/src/amountMath.js:325-350 | subtracting then adding the same amount gives the first amount back, for set-like kinds too |
| AmountMath.AddCommutes | packages/ERTP/src/amountMath.js:251-330 | add is commutative and empty is the identity of add and subtract |
| AmountMath.AddAssociates | packages/ERTP/src/amountMath.js:325-330 | both ways of adding three amounts throw together and agree |
| AmountMath.AddFits | packages/ERTP/src/amountMath.js:325-330 | add succeeds on amounts of one brand and kind iff some value of the kind can hold both together, whatever the order and grouping |
| AmountMath.MinMaxBound | packages/ERTP/src/amountMath.js:360-382 | min and max exist iff the amounts are comparable, are the two amounts, and max is above min |
| AmountMath.BrandIsChecked | packages/ERTP/src/amountMath.js:134-152 | a brand passed to any operation must be that of both sides, and changes nothing else |
| AmountMath.MismatchIsReported | packages/ERTP/src/amountMath.js:134-152 | amounts of different brands or kinds are refused by every operation, for the brand first |
| LedgerModel.DeletePaymentTables | packages/ERTP/src/paymentLedger.js:198-205 | deletePayment takes the payment out of the ledger, the recovery map and its purse's set, and touches nothing else |
| LedgerModel.DeletePaymentTotal | packages/ERTP/src/paymentLedger.js:198-205 | deletePayment lowers the total of purses and live payments by exactly the payment's rights |
| LedgerModel.DepositCommit | packages/ERTP/src/paymentLedger.js:260-269 | the increment raises the total by the payment's rights, or throws, which takes a set-like kind |
| LedgerModel.DepositInv | packages/ERTP/src/paymentLedger.js:247-271 | deposit, returning or throwing, keeps every ledger invariant and conservation |
| LedgerModel.InitPaymentSound | packages/ERTP/src/paymentLedger.js:172-190 | initPayment of a new payment with the set maybeRecoverySet gave keeps the recovery-set invariants and never throws |
| LedgerModel.InitPaymentThrowsIff | packages/ERTP/src/paymentLedger.js:180-190 | initPayment throws iff it is given a set while there are none; otherwise the payment is live, and in the set iff one is given and its amount holds anything |
| LedgerModel.WithdrawInternalResult | packages/ERTP/src/paymentLedger.js:281-295 | withdraw succeeds iff the balance covers the amount; otherwise only a fresh payment object is spent |
| LedgerModel.WithdrawInternalEffect | packages/ERTP/src/paymentLedger.js:281-295 | a successful withdrawal makes one new live payment of the amount, taken out of this purse and put in its set iff it is not empty and sets are on; nothing else changes |
| LedgerModel.WithdrawInternalInv | packages/ERTP/src/paymentLedger.js:281-295 | withdraw, returning or throwing, keeps every ledger invariant and conservation |
| LedgerModel.BurnInv | packages/ERTP/src/paymentLedger.js:346-359 | burn keeps every ledger invariant; what leaves the ledger is counted as burned |
| LedgerModel.BurnEffect | packages/ERTP/src/paymentLedger.js:346-359 | burn succeeds iff the payment is live and of the accepted shape; it uses up exactly that payment and touches no balance |
| LedgerModel.MakeIssuerIs | packages/ERTP/src/issuerKit.js:198-223 | a new issuer has one empty purse, no payment, and recovery sets unless baggage says otherwise |
| LedgerModel.UpgradeIs | packages/ERTP/src/issuerKit.js:112-138 | upgrading throws iff it asks for recovery sets that baggage rules out; the mode is what is asked for, else what baggage says, and nothing else changes |
| LedgerModel.MakeEmptyPurseIs | packages/ERTP/src/purse.js:80-93 | one purse more, holding nothing, with all others as before |
| MintAndRecover.MintPaymentEffect | packages/ERTP/src/paymentLedger.js:378-392 | refused without a trace, and why, unless the amount is well formed, of the right brand, kind and shape; otherwise the new payment holds exactly the rights asked for, which are all that was minted, with every balance as before, or one of the two ways of throwing with what each leaves behind |
| MintAndRecover.MintPurseUnchanged | packages/ERTP/src/paymentLedger.js:386-390 | the assertion that the mint recovery purse ends as it began never fails |
| MintAndRecover.MintPaymentInv | packages/ERTP/src/paymentLedger.js:378-392 | mintPayment, returning or throwing, keeps every ledger invariant and conservation |
| MintAndRecover.RecoverFromCorrect | packages/ERTP/src/purse.js:157-162 | taking in distinct payments of the set succeeds iff the purse can hold them all besides its balance, and credits exactly their sum; when it throws, exactly one payment was used up without being credited |
| MintAndRecover.IterationVisitsEachOnce | packages/ERTP/src/purse.js:157-162 | iterating over the set that each deposit deletes from visits only keys of the initial set, each at most once, and all of them unless a turn throws |
| MintAndRecover.IterationExists | packages/ERTP/src/purse.js:157-162 | from every ledger the loop can be run to its end, so nothing said of its runs is empty |
| MintAndRecover.RecoverAllCorrect | packages/ERTP/src/purse.js:150-166 | recoverAll succeeds iff the purse can hold its set besides its balance; it then has visited the whole set, empties it, returns its sum, raises this purse by that sum, touches no other purse or payment, and never finds payments left over |
| MintAndRecover.RecoverAllOrderIrrelevant | packages/ERTP/src/purse.js:150-166 | whatever key the store hands out next: if one recoverAll succeeds then every other succeeds too, with the same amount and the same ledger |
| LedgerRuns.ApplyInv | packages/ERTP/src/paymentLedger.js:148-205 | every call, returning or throwing, keeps the listed invariants and revives or alters no payment |
| LedgerRuns.RunInv | packages/ERTP/src/paymentLedger.js:148-170 | the invariants hold in every state of every run |
| LedgerRuns.RunEvolves | packages/ERTP/src/paymentLedger.js:172-205 | between any two states of a run, live payments keep their amount and dead ones stay dead |
| LedgerRuns.AssetsAreConserved | packages/ERTP/src/paymentLedger.js:247-392 | after any run, minted equals purses plus live payments plus burned, plus what set-like deposits lost, which for nat and copyBag is nothing |
| LedgerRuns.DepositLosesIff | packages/ERTP/src/paymentLedger.js:260-269 | a deposit loses rights iff the payment is live, its shape accepted, the kind set-like and the payment overlaps the balance, and then exactly the payment's rights |
| LedgerRuns.WithdrawEffect | packages/ERTP/src/purse.js:111-125 | succeeds iff no leftovers block the purse and it holds the rights asked for; then the new payment holds exactly those and the purse the rest; otherwise why, and the ledger as before but for a payment object made in vain once the amount is coerced |
| LedgerRuns.PaymentsAreLinear | packages/ERTP/src/paymentLedger.js:180-205 | over a run a payment's amount never changes while it is live, and it never becomes live again |
| LedgerRuns.PaymentsAreUsedUpOnce | packages/ERTP/src/paymentLedger.js:180-205 | at most one step of a run uses up a payment |
| LedgerRuns.AlwaysHadIff | packages/ERTP/src/issuerKit.js:112-138 | what the history records as sets always on is that every state so far had them on |
| LedgerRuns.RecoverySetsAreExact | packages/ERTP/src/paymentLedger.js:148-170 | in every state, a payment is in a purse's set iff the map sends it there; it is then live, not empty and withdrawn from that purse; if every state so far had recovery sets these are all non-empty live payments |
| LedgerRuns.RecoverableIff | packages/ERTP/src/paymentLedger.js:148-190 | through any upgrades, a live payment is in a recovery set iff it is not empty and the one step that made it was taken with recovery sets on |
| LedgerRuns.CreatedWithoutRecoverySets | packages/ERTP/src/issuerKit.js:112-138 | an issuer created with 'noRecoverySets' has only empty recovery sets in all incarnations |
| LedgerRuns.LeftoversOnlyShrink | packages/ERTP/src/paymentLedger.js:165-190 | without recovery sets no call, returning or throwing, adds to a leftover set |
| LedgerRuns.LeftoversOnlyShrinkOverRun | packages/ERTP/src/paymentLedger.js:165-190 | the same over any stretch of a run in that mode, through any number of upgrades; purses made meanwhile have no leftovers |
| LedgerRuns.LeftoversBlockThePurse | packages/ERTP/src/purse.js:57-71 | without recovery sets, withdraw, getRecoverySet and recoverAll refuse without changing the ledger iff the purse has leftovers |
| LedgerRuns.GetRecoverySetIs | packages/ERTP/src/purse.js:142-149 | with recovery sets exactly the payments that the map sends to this purse; without them none, or a throw on leftovers |
| LedgerRuns.ModeCanReturnIff | packages/ERTP/src/issuerKit.js:117-131 | turning recovery sets off and on again by upgrades succeeds iff baggage does not say 'noRecoverySets' |
| LedgerRuns.ReturnedModeMissesPayments | packages/ERTP/src/issuerKit.js:117-131 | after such a return there is a run with recovery sets on and a live non-empty payment in none of them |
| LedgerRuns.MintThenThrowExample | packages/ERTP/src/paymentLedger.js:378-392 | a run of a mint and an upgrade to 'noRecoverySets' after which minting puts the amount into the mint recovery purse and throws |
| PaymentLedger.Purse.Increment | packages/ERTP/src/amountStore.js:22-24 | the balance becomes the sum, or nothing changes when add throws |
| PaymentLedger.Purse.Decrement | packages/ERTP/src/amountStore.js:25-31 | true iff the balance covers delta, which can then be added back to give the old balance; otherwise nothing changes |
| PaymentLedger.IssuerKit.constructor | packages/ERTP/src/issuerKit.js:198-223 | a new issuer is valid, holds only an empty mint recovery purse and records its mode in baggage |
| PaymentLedger.IssuerKit.UpgradeIssuerKit | packages/ERTP/src/issuerKit.js:112-138 | upgrading keeps the ledger valid and changes only the running mode, as the specification function says |
| PaymentLedger.IssuerKit.MakeEmptyPurse | packages/ERTP/src/purse.js:80-93 | a fresh purse is added with an empty balance and set, the rest unchanged |
| PaymentLedger.IssuerKit.InitPayment | packages/ERTP/src/paymentLedger.js:180-190 | updates the three stores in place exactly as the specification function, including its throw |
| PaymentLedger.IssuerKit.DeletePayment | packages/ERTP/src/paymentLedger.js:198-205 | deletes from the stores in place exactly as the specification function |
| PaymentLedger.IssuerKit.MaybeRecoverySet | packages/ERTP/src/purse.js:57-71 | the purse's own set, none, or a throw on leftovers |
| PaymentLedger.IssuerKit.Deposit | packages/ERTP/src/purse.js:96-110 | whole new ledger and result of deposit, and a valid ledger stays valid |
| PaymentLedger.IssuerKit.DepositInternal | packages/ERTP/src/paymentLedger.js:247-271 | whole new ledger and result, in whatever state it is called |
| PaymentLedger.IssuerKit.Debit | packages/ERTP/src/paymentLedger.js:283-287 | a payment object that is in no table yet, and the amount out of the purse iff it is covered |
| PaymentLedger.IssuerKit.WithdrawInternal | packages/ERTP/src/paymentLedger.js:281-295 | whole new ledger and result of withdrawInternal |
| PaymentLedger.IssuerKit.Withdraw | packages/ERTP/src/purse.js:111-125 | whole new ledger and result of withdraw, and the ledger stays valid |
| PaymentLedger.IssuerKit.GetRecoverySet | packages/ERTP/src/purse.js:142-149 | the set, the empty set without recovery sets, or a throw on leftovers |
| PaymentLedger.IssuerKit.RecoverAll | packages/ERTP/src/purse.js:150-166 | terminates on the set it deletes from; what it visited is an iteration of the live set, with the ledger and result the theorems above describe |
| PaymentLedger.IssuerKit.DepositEach | packages/ERTP/src/purse.js:157-162 | each turn takes a key that the live set holds by then and has not handed out; the set that remains shrinks to nothing, and ledger and running sum are those of the visited keys |
| PaymentLedger.IssuerKit.Burn | packages/ERTP/src/paymentLedger.js:346-359 | whole new ledger and result of burn, and the ledger stays valid |
| PaymentLedger.IssuerKit.MintPayment | packages/ERTP/src/paymentLedger.js:378-392 | whole new ledger and result of mintPayment, and the ledger stays valid |
| PaymentLedger.IssuerKit.MintCoerced | packages/ERTP/src/paymentLedger.js:383-391 | the raw payment is deposited and the same amount withdrawn, with the assertion kept as a check |
| LegacyPayments.ClaimCorrect | packages/ERTP/src/legacy-payment-helpers.js:18-45 | succeeds iff the payment is live, fits into the purse, has the accepted shape and no leftovers block the purse; then a fresh payment of the same amount, in the recovery purse's set if it is not empty and sets are on, and the purse as it was; otherwise the source is in the purse, or its deposit was refused, which changes nothing unless a set-like payment overlaps the purse, whose rights alone are then lost |
| LegacyPayments.DepositEffect | packages/ERTP/src/paymentLedger.js:247-271 | exactly when deposit succeeds; then the payment is used up and its amount added to this purse's balance, other balances as before; for total addition a failure changes nothing |
| LegacyPayments.DepositAllEffect | packages/ERTP/src/legacy-payment-helpers.js:79-82 | after all deposits the balance has grown by exactly the banked payments, other purses keep theirs, and for total addition every used-up payment was banked |
| LegacyPayments.DepositAllSucceedsIff | packages/ERTP/src/legacy-payment-helpers.js:79-82 | all deposits succeed iff the payments are live, pairwise distinct and fit into the purse together with its balance |
| LegacyPayments.CombineTotal | packages/ERTP/src/legacy-payment-helpers.js:83-86 | when every deposit succeeds the reduce cannot throw, is the sum of the sources, and the purse covers it |
| LegacyPayments.CombineCorrect | packages/ERTP/src/legacy-payment-helpers.js:48-91 | succeeds iff the payments are live, distinct and fit together, what they are worth has the accepted shape and no leftovers block the purse; then one payment of that worth and the purse as it was; on failure the purse holds what was banked, and every source not deposited is in the set it was in |
| LegacyPayments.WithdrawAllCorrect | packages/ERTP/src/legacy-payment-helpers.js:150-150 | withdrawals whose sum the purse covers all succeed, each covered by what the earlier ones left |
| LegacyPayments.ReduceSum | packages/ERTP/src/legacy-payment-helpers.js:143-146 | a total that does not throw is the sum of what the amounts hold |
| LegacyPayments.ReduceSucceedsIff | packages/ERTP/src/legacy-payment-helpers.js:143-146 | a total is computed without a throw iff all amounts are of one brand and kind and some value holds their sum |
| LegacyPayments.SplitCorrect | packages/ERTP/src/legacy-payment-helpers.js:107-117 | succeeds iff the payment is live and fits, the requested amount is coerced and covered, and no leftovers block the purse; then payments of the requested amount and of the rest, those not empty in the recovery purse's set if sets are on, and the purse as it was; otherwise the source is in the purse, or its deposit was refused, which changes nothing unless a set-like payment overlaps the purse, whose rights alone are then lost |
| LegacyPayments.SplitManyCorrect | packages/ERTP/src/legacy-payment-helpers.js:133-151 | succeeds iff the payment is live and fits, the amounts are coerced and hold together exactly what the payment holds, and no leftovers block the purse if anything is asked for; then payments of exactly those amounts, those not empty in the recovery purse's set if sets are on, and the purse as it was; otherwise the source is in the purse, or its deposit was refused, which changes nothing unless a set-like payment overlaps the purse, whose rights alone are then lost |
| LegacyHelpers.Claim | packages/ERTP/src/legacy-payment-helpers.js:36-45 | the deposit-then-withdraw calls do to the objects what the specification function says |
| LegacyHelpers.Combine | packages/ERTP/src/legacy-payment-helpers.js:63-91 | deposits, reduce, shape check and withdrawal do what the specification function says |
| LegacyHelpers.Reduce | packages/ERTP/src/legacy-payment-helpers.js:83-86 | the reduce loop returns the running total or its first throw |
| LegacyHelpers.DepositAll | packages/ERTP/src/legacy-payment-helpers.js:79-82 | every deposit is made even after one has failed, and the first failure is reported |
| LegacyHelpers.Split | packages/ERTP/src/legacy-payment-helpers.js:107-117 | deposit, subtract and two withdrawals do what the specification function says |
| LegacyHelpers.SplitMany | packages/ERTP/src/legacy-payment-helpers.js:133-151 | deposit, total check and withdrawals do what the specification function says |
| LegacyHelpers.WithdrawAll | packages/ERTP/src/legacy-payment-helpers.js:150-150 | every withdrawal is made even after one has failed, and the first failure is reported |
| Bijection.UnwrapInitInv | packages/async-flow/src/bijection.js:131-153 | every exit of unwrapInit, returning or throwing, keeps the invariant and every earlier pair |
| Bijection.VowIff | packages/async-flow/src/bijection.js:27-29 | a vow is a record tagged Vow whose first vowV0 is a remotable, and its identity is that remotable; anything else is itself |
| Bijection.UnwrapInitResult | packages/async-flow/src/bijection.js:131-153 | exactly when unwrapInit succeeds; only the hidden-wrapper failure leaves something, the new pair; the internal check never fails |
| Bijection.HasIsExact | packages/async-flow/src/bijection.js:167-184 | has returns true for exactly the real pairs, false for exactly two unbound sides, and throws for hidden wrappers |
| Bijection.HostToGuestInjective | packages/async-flow/src/bijection.js:70-97 | different hosts have different guests, none of them a hidden wrapper |
| Bijection.BijectionMap.Init | packages/async-flow/src/bijection.js:131-153 | updates the two stores in place exactly as the specification function, with the unwrapped guest |
| Bijection.BijectionMap.Holds | packages/async-flow/src/bijection.js:167-184 | computes has on the two stores |
| Bijection.BijectionMap.Reset | packages/async-flow/src/bijection.js:125-130 | both stores are empty afterwards |
| Convert.HostToGuestGrows | packages/async-flow/src/convert.js:105-119 | converting to the guest side, returning or throwing, keeps the invariant and only adds pairs |
| Convert.HostToGuestSucceeds | packages/async-flow/src/convert.js:105-127 | with makers that return unbound guests every passable value converts |
| Convert.HostToGuestIs | packages/async-flow/src/convert.js:34-127 | a host value converts to itself with its capabilities replaced by their guests and its errors by errors of the same message and known name |
| Convert.GuestToHostIs | packages/async-flow/src/convert.js:34-103 | a guest value converts iff it is passable and all its capabilities are bound, to itself with the hosts in their places; otherwise why |
| Convert.ThrowKeepsEarlier | packages/async-flow/src/convert.js:38-45 | when an element throws, nothing after it is converted and what was entered up to it stays |
| Convert.OccurrenceBound | packages/async-flow/src/convert.js:34-67 | wherever a capability occurs in a converted value, at any depth, its guest is at the same place and bound to it |
| Convert.IdentityPreserved | packages/async-flow/src/convert.js:105-119 | for any two occurrences of capabilities, at any depth and in any two conversions without a reset between, the guests at those places are the same iff the capabilities are |
| Convert.CapabilityComesBack | packages/async-flow/src/convert.js:83-119 | a converted capability comes back with the same identity, and as the very same value iff it was the first entered under it |
| Convert.RoundTripByKey | packages/async-flow/src/convert.js:17-129 | host to guest and back, in any later state, gives the same structure, capabilities up to their key and errors iff no tagged value was turned into something shaped like a vow |
| Convert.RoundTripByKeyIff | packages/async-flow/src/convert.js:17-129 | the same, iff a condition on the value and on which hosts are bound to remotables before converting |
| Convert.RoundTripIff | packages/async-flow/src/convert.js:17-129 | the same structure, the very same remotables, vows up to their shortener and errors come back iff no tagged value is going to be turned into something shaped like a vow and no bare shortener is met after its vow |
| Convert.RoundTripWhenReserved | packages/async-flow/src/convert.js:46-53 | where the tag 'Vow' is kept for vows the round trip up to keys always holds, and the exact one iff no bare shortener is met after its vow |
| Convert.FakeVowExample | packages/async-flow/src/convert.js:46-53 | a value tagged 'Vow' over a vow whose shortener was converted before comes back as the bare shortener |
| Convert.BareShortenerExample | packages/async-flow/src/bijection.js:27-29 | the bare shortener of a vow converted after the vow comes back as the vow |
| Convert.ConvertKit.ConvertHostCapability | packages/async-flow/src/convert.js:105-119 | the callback that looks up or makes a guest changes the bijection exactly as the specification function |
| Convert.ConvertKit.ConvertToGuest | packages/async-flow/src/convert.js:34-67 | the recursion over passable data extends the bijection exactly as the specification function |
| Convert.ConvertKit.ConvertAllToGuest | packages/async-flow/src/convert.js:40-45 | the map over elements in order, stopping at the first throw |
| BaggageCheck.ExtractIff | packages/SwingSet/tools/baggage-check.js:21-29 | exactly the slots that read o+d, a numeral, a slash and a numeral are recognised, with the numbers the numerals stand for |
| BaggageCheck.ClassifyIff | packages/SwingSet/tools/baggage-check.js:158-179 | which of them refer to collections (6 and 8), to kind handles (1) and to objects (any other) |
| BaggageCheck.RowSlotsAre | packages/SwingSet/tools/baggage-check.js:188-192 | a row is scanned for exactly its value's slots and, if its key starts with 'r', the text between its first two colons; it throws iff such a key has none |
| BaggageCheck.FinishedNodes | packages/SwingSet/tools/baggage-check.js:97-115 | when nothing is pending, the known nodes are exactly the reachable ones |
| BaggageCheck.FinishedKinds | packages/SwingSet/tools/baggage-check.js:117-124 | known kinds are exactly those with a reachable handle, used kinds exactly those of reachable objects |
| BaggageCheck.Checker.ScanSlots | packages/SwingSet/tools/baggage-check.js:158-179 | every slot is recorded where it belongs, and nothing else is |
| BaggageCheck.Checker.ScanCollection | packages/SwingSet/tools/baggage-check.js:181-194 | throws iff some ref key has no colon; otherwise every slot of every entry is recorded |
| BaggageCheck.Checker.ScanObject | packages/SwingSet/tools/baggage-check.js:196-202 | throws iff the object has no record; otherwise every slot of every property is recorded |
| BaggageCheck.Checker.Check | packages/SwingSet/tools/baggage-check.js:92-156 | terminates; scanning throws iff a reachable node is broken; otherwise known is reachable, and it complains of exactly the kinds that reachable objects use without a reachable handle |
| ClientCodec.ReplyPortInjective | golang/cosmos/vm/client.go:66-72 | reply ports of different requests differ despite wrapping, and only the last number gets port 0 |
| ClientCodec.ReplyPortIs | golang/cosmos/vm/client.go:66-66 | the reply port is the successor of the number, wrapped into a signed 64-bit integer |
| ClientCodec.ClientCodecObject.WriteRequest | golang/cosmos/vm/client.go:57-77 | the whole new codec state and error, with the fabricated answer for requests without reply |
| ClientCodec.ClientCodecObject.ReadResponseHeader | golang/cosmos/vm/client.go:80-85 | takes the oldest response and remembers its number |
| ClientCodec.ClientCodecObject.ReadResponseBody | golang/cosmos/vm/client.go:88-94 | hands out and forgets the reply of the remembered number |
| ClientCodec.ClientCodecObject.Receive | golang/cosmos/vm/client.go:97-111 | the whole new codec state, also for an unknown port |
| ClientCodec.ReceiveStepIs | golang/cosmos/vm/client.go:97-111 | the request is no longer outbound and one response waits, for the zero request if the port is unknown; the reply is kept unless it is an error |
| ClientCodec.HeaderCommutes | golang/cosmos/vm/client.go:57-111 | a header read commutes with receiving and writing, so a header and its body count as one step |
| ClientCodec.ReceiveInv | golang/cosmos/vm/client.go:97-111 | receiving an answer moves its request from outbound to the channel and keeps the protocol invariant |
| ClientCodec.ReadInv | golang/cosmos/vm/client.go:80-94 | reading a response keeps the protocol invariant |
| ClientCodec.RunInv | golang/cosmos/vm/client.go:57-111 | the protocol invariant holds over every run in which the VM answers each reply port it was sent once, in any order |
| ClientCodec.IssuedIff | golang/cosmos/vm/client.go:57-77 | over every run, a request is accepted, issued and sent iff it is of the right method and its body is a message; any other is refused and changes nothing |
| ClientCodec.NoReplyCompletes | golang/cosmos/vm/client.go:66-76 | every request that wants no reply is delivered with the fabricated reply once the channel is drained |
| ClientCodec.MessagesAreSent | golang/cosmos/vm/client.go:66-75 | over every run the messages sent are those of an order of the issued requests in which each occurs once: the request's port and data, and its own reply port exactly if it wants a reply |
| ClientCodec.ResponsesAreRight | golang/cosmos/vm/client.go:57-111 | each delivered response is for an issued request, carries its own method and answer, and comes once |
| ClientCodec.EmptyErrorExample | golang/cosmos/vm/client.go:97-111 | a run in which an error answer with an empty message is delivered just as an empty answer is |
| ClientCodec.LastRequestNeverCompletes | golang/cosmos/vm/client.go:66-75 | in no state of any run is a request numbered 2^64 - 1 that wants a reply answered or delivered |
| ClientCodec.LastRequestExample | golang/cosmos/vm/client.go:66-75 | the run that issues it leaves it outbound with nothing to answer or to read |
| ClientCodec.AllRequestsComplete | golang/cosmos/vm/client.go:57-111 | once every reply port sent is answered and all responses are read, each request has its response except one numbered 2^64 - 1 that wants a reply, which alone stays outbound; no reply is left over |
| AgdServer.RegisterInv | golang/cosmos/vm/server.go:97-108 | registering succeeds iff the name is free, maps it to a new port, and changes no other name |
| AgdServer.UnregisterInv | golang/cosmos/vm/server.go:113-124 | unregistering succeeds iff some name has that port, and frees exactly that name |
| AgdServer.UnregisterUndoesRegister | golang/cosmos/vm/server.go:97-124 | unregistering what was just registered restores every mapping, but not the port counter |
| AgdServer.HandlerIffNamed | golang/cosmos/vm/server.go:18-22 | the documented relation of handlers and names holds iff no handler has the empty name |
| AgdServer.EmptyNameExample | golang/cosmos/vm/server.go:97-108 | registering under the empty name, where it is free, succeeds and breaks the documented relation |
| AgdServer.AgdServerObject.RegisterPortHandler | golang/cosmos/vm/server.go:97-108 | updates the maps in place exactly as the specification function and keeps them inverse |
| AgdServer.AgdServerObject.UnregisterPortHandler | golang/cosmos/vm/server.go:113-124 | updates the maps in place exactly as the specification function and keeps them inverse |
| AddressHooks.LengthRoundTrip | golang/cosmos/types/address_hooks.go:75-120 | decoding the encoded length gives it back whenever it fits in the bytes |
| AddressHooks.DecodeLength | golang/cosmos/types/address_hooks.go:75-80 | the shifting loop computes the big-endian value of the last two bytes |
| AddressHooks.EncodeLength | golang/cosmos/types/address_hooks.go:116-120 | the loop that fills the array from its end writes the big-endian bytes |
| AddressHooks.SplitHookedAddress | golang/cosmos/types/address_hooks.go:52-94 | every branch of the split, with its errors |
| AddressHooks.JoinHookedAddress | golang/cosmos/types/address_hooks.go:99-124 | the joined payload, or the refusal of a base over the maximum |
| AddressHooks.JoinIs | golang/cosmos/types/address_hooks.go:99-124 | every byte of the joined payload, or the refusal |
| AddressHooks.SplitIs | golang/cosmos/types/address_hooks.go:52-94 | which payloads are hooked, by their bytes, and what each gives or why it is refused |
| AddressHooks.SplitUndoesJoin | golang/cosmos/types/address_hooks.go:52-124 | join succeeds iff the base has at most 0x8001 bytes, and split then gives base and hook back |
| AddressHooks.JoinUndoesSplit | golang/cosmos/types/address_hooks.go:52-124 | join rebuilds a hooked address that split accepts iff its base has at most 0x8001 bytes |
| AddressHooks.JoinInjective | golang/cosmos/types/address_hooks.go:99-124 | different bases or hooks never join to one address |
| AddressHooks.JoinAllSucceedsIff | golang/cosmos/types/address_hooks.go:99-124 | nested joins all succeed iff each time the base, all earlier hooks and 5 bytes for each of them fit |
| AddressHooks.PeelUndoesJoinAll | golang/cosmos/types/address_hooks.go:52-124 | nested joins are peeled off in reverse order |
| AddressHooks.UnhookedIsVerbatim | golang/cosmos/types/address_hooks.go:58-63 | split returns the address itself iff it lacks the magic prefix |
| InboundAnte.AnteHandle | golang/cosmos/ante/inbound.go:57-94 | the loop's verdict: the first refusal or error in order, or admission |
| InboundAnte.AllowedInboundIs | golang/cosmos/ante/inbound.go:107-129 | the lookup fails iff the queue length is asked for and fails; otherwise it is 1 if an allowed size is given and the queue is below it, and 0 if not |
| InboundAnte.Wrap32Is | golang/cosmos/ante/inbound.go:76-77 | int32 subtraction is modulo 2^32 |
| InboundAnte.AllowanceLeft | golang/cosmos/ante/inbound.go:59-91 | what is left of the room for a transaction after any admitted messages, despite the sentinel -1 and int32 arithmetic |
| InboundAnte.AdmittedIff | golang/cosmos/ante/inbound.go:57-94 | a transaction is admitted iff the keeper answers, priorities are known, and each low-priority message fits with everything before it: an allowed size is given, queue and counts are within it, and the counts are at most 1 |
| InboundAnte.RefusedBecause | golang/cosmos/ante/inbound.go:57-94 | otherwise it is refused at the first message that does not pass, for the reason there |
| InboundAnte.LowPriorityFits | golang/cosmos/ante/inbound.go:76-91 | whenever a low-priority message is let through, the queue before the transaction plus all counts up to it is within the allowed size |
| InboundAnte.LowPriorityTxFits | golang/cosmos/ante/inbound.go:57-129 | an admitted transaction without high-priority messages keeps the queue within its limit |
| InboundAnte.BlockStaysWithinLimit | golang/cosmos/ante/inbound.go:14-35 | over any block without an admitted high-priority message, a queue within its limit stays within it, and one that starts over it does not grow |
| JsonStore.Store.constructor | packages/access-token/src/json-store.js:170-215 | opening resets or loads: the map is what the lines of the store file say, and the world is that of an open step |
| JsonStore.LoadIs | packages/access-token/src/json-store.js:193-214 | a key is loaded with the value of the last line that has it |
| JsonStore.Store.Set | packages/access-token/src/json-store.js:120-128 | the key maps to the value, the rest unchanged: a set step of the world |
| JsonStore.Store.Delete | packages/access-token/src/json-store.js:138-143 | the key is gone, the rest unchanged: a delete step of the world |
| JsonStore.Store.Commit | packages/access-token/src/json-store.js:227-240 | is begin, one write for each entry and rename, cut after any number of file operations and then a crash; until the rename the store file is as before, after it it loads as the whole map |
| JsonStore.Store.Close | packages/access-token/src/json-store.js:246-250 | closes once, a close step of the world; a second close throws |
| JsonStore.ApplyInv | packages/access-token/src/json-store.js:227-250 | every step keeps the store file loading as the map last renamed, and the temporary file as the part written |
| JsonStore.RunInv | packages/access-token/src/json-store.js:170-252 | that holds over every run of sets, deletes, commits, closes, crashes and reopens |
| JsonStore.ReachesContinuesRun | packages/access-token/src/json-store.js:170-252 | the steps that the calls of a store make continue any run, so what holds over runs holds of stores |
| JsonStore.ReopenedIsLastRenamed | packages/access-token/src/json-store.js:193-240 | a reopened store holds the map whose rename was the last to take effect |
| JsonStore.ReopenedWithoutRename | packages/access-token/src/json-store.js:193-240 | without a rename since the start or the last reset it holds what the file held, or nothing |
| JsonText.StringReadsBack | golang/cosmos/types/kv_entry.go:76-85 | a string written with any permitted escapes (section 7 of RFC 8259) reads back |
| JsonText.ArrayReadsBack | golang/cosmos/types/kv_entry.go:40-85 | an array of strings reads back, leaving exactly what follows it |
| JsonText.ReadValueSound | golang/cosmos/types/kv_entry.go:52-70 | whatever is read as null or an array of strings and nulls stands for it in the grammar of RFC 8259 (sections 2, 5 and 7) |
| JsonText.ReadValueComplete | golang/cosmos/types/kv_entry.go:52-70 | and all text that stands for such a value reads as it, whatever follows |
| JsonText.NoLineFeed | golang/cosmos/types/kv_entry_helpers.go:47-51 | a written array holds no line feed, so one entry is one line |
| KVStream.MarshalRoundTrip | golang/cosmos/types/kv_entry.go:40-85 | marshalling fails iff the key is empty, and unmarshalling gives the entry back, missing and empty values apart |
| KVStream.UnmarshalAccepts | golang/cosmos/types/kv_entry.go:40-70 | exactly which arrays are accepted and why others are not, that a null value counts as missing, and that only it is lost by marshalling again |
| KVStream.EntriesReader.Read | golang/cosmos/types/kv_entry_helpers.go:117-140 | each read's entry, end or error; the k-th read is read k of the slice, also of a nil one |
| KVStream.SliceYields | golang/cosmos/types/kv_entry_helpers.go:117-140 | a slice reader yields its elements converted, in order, up to exactly the first that does not convert to an entry with a valid key, and then the end if there is none; a nil slice reads as closed |
| KVStream.IteratorReader.Read | golang/cosmos/types/kv_entry_helpers.go:78-98 | each pair in order; an empty key is reported without advancing |
| KVStream.IteratorYields | golang/cosmos/types/kv_entry_helpers.go:78-98 | an iterator reader yields its pairs, nil values as missing, up to exactly the first empty key |
| KVStream.HookingReader.Read | golang/cosmos/types/kv_entry_helpers.go:257-265 | read after read of any source reader, each unless the hook turns its entry into an error |
| KVStream.HookingReader.Close | golang/cosmos/types/kv_entry_helpers.go:269-276 | the error of any source that fails to close, and otherwise what the hook answers |
| KVStream.HookedYields | golang/cosmos/types/kv_entry_helpers.go:257-265 | a hooked reader yields exactly what its source does, up to the first entry that the hook refuses |
| KVStream.EncodeToJsonl | golang/cosmos/types/kv_entry_helpers.go:218-234 | over any reader that stops, one line for each entry up to the end or the first error, and that error |
| KVStream.DecoderReader.Read | golang/cosmos/types/kv_entry_helpers.go:194-197 | at a line that the encoder wrote, its entry, leaving what follows; the end iff only white space is left |
| KVStream.DecodeSound | golang/cosmos/types/kv_entry_helpers.go:194-197 | a decoder ends iff only white space is left, yields what the text it consumed stands for, and refuses only where no such text comes next |
| KVStream.DecodeComplete | golang/cosmos/types/kv_entry_helpers.go:194-197 | and text that stands for a value decodes as what the value unmarshals to |
| KVStream.DecoderEnds | golang/cosmos/types/kv_entry_helpers.go:194-197 | a decoder over any text stops, after at most as many entries as the text has characters |
| KVStream.DecoderYields | golang/cosmos/types/kv_entry_helpers.go:194-234 | read k of a decoder over written lines is entry k, and after the last the end |
| KVStream.LineReadsBack | golang/cosmos/types/kv_entry_helpers.go:194-234 | one line decodes to its entry and leaves what follows |
| KVStream.StreamRoundTrip | golang/cosmos/types/kv_entry_helpers.go:194-234 | decoding the lines of any entries gives those entries in order, then the end |
| KVStream.ReaderRoundTrip | golang/cosmos/types/kv_entry_helpers.go:78-265 | encoding any reader, over a slice, an iterator, a text or through a hook, and decoding the text gives the sequence it yielded and then the end |
| SnapshotReader.GatherCorrect | packages/SwingSet/misc-tools/ingest-xs-snapshot.js:157-164 | gather hands out the next bytes of the whole input, or reports its end once and then never finishes |
| SnapshotReader.ReadsAreSlices | packages/SwingSet/misc-tools/ingest-xs-snapshot.js:136-242 | any sequence of reads and section reads replies what slicing the whole input replies, as long as no call goes further back than the reader is sure to hold |
| SnapshotReader.ChunkingDoesNotMatter | packages/SwingSet/misc-tools/ingest-xs-snapshot.js:136-242 | two ways of cutting one input into chunks give the same replies to any such sequence |
| SnapshotReader.StaysHeldIff | packages/SwingSet/misc-tools/ingest-xs-snapshot.js:136-242 | that condition, on the input and the calls alone, holds iff under every cutting the buffer is at every step the part of the input it is taken for |
| SnapshotReader.WellDeclaredReads | packages/SwingSet/misc-tools/ingest-xs-snapshot.js:136-242 | where every section started declares at least its header and no length asked for is negative, the replies are always those of slicing |
| SnapshotReader.ShortSectionIff | packages/SwingSet/misc-tools/ingest-xs-snapshot.js:183-225 | to starting a section, reading its rest and starting the next, the cutting does not matter iff the section declares at least 4 bytes |
| SnapshotReader.NegativeLengthRewinds | packages/SwingSet/misc-tools/ingest-xs-snapshot.js:183-201 | a negative length moves the position back by that much, and keeps the buffer sound iff it does not pass its start |
| SnapshotReader.PumpOutOfRange | packages/SwingSet/misc-tools/ingest-xs-snapshot.js:136-154 | what the pump makes of a position before the buffer: the last bytes kept, zeros, then the chunk |
| SnapshotReader.JsSliceIs | packages/SwingSet/misc-tools/ingest-xs-snapshot.js:157-164 | slice counts negative positions from the end and stays within the buffer |
| SnapshotReader.NegativeLengthExample | packages/SwingSet/misc-tools/ingest-xs-snapshot.js:183-225 | every input whose first section declares fewer than 4 bytes: read in one piece, and cut after the size, it gives different replies |
| SnapshotReader.Reader.PumpChunk | packages/SwingSet/misc-tools/ingest-xs-snapshot.js:136-154 | one turn of the pump moves the unread rest to the front and appends the chunk |
| SnapshotReader.Reader.GatherBytes | packages/SwingSet/misc-tools/ingest-xs-snapshot.js:157-164 | the loop of pump turns gives the next bytes of the whole input, or its end, as the specification function says |
| SnapshotReader.Reader.ReadBE4 | packages/SwingSet/misc-tools/ingest-xs-snapshot.js:166-172 | the next four bytes of the input as a big-endian number, or its end |
| SnapshotReader.BigEndian4Iff | packages/SwingSet/misc-tools/ingest-xs-snapshot.js:166-172 | the four bytes are the base-256 digits of the number, the first counting most |
| SnapshotReader.Reader.ReadTag | packages/SwingSet/misc-tools/ingest-xs-snapshot.js:174-177 | the next four bytes of the input as ASCII, which clears the highest bit of each |
| SnapshotReader.AsciiIs | packages/SwingSet/misc-tools/ingest-xs-snapshot.js:174-177 | reading bytes as ASCII keeps those below 128 and clears the highest bit of the others |
| SnapshotReader.Reader.StartSection | packages/SwingSet/misc-tools/ingest-xs-snapshot.js:183-195 | a section of the declared size less 8 iff the tag agrees, with the position moved by 8; a header cut short moves it by 4 if the size is there, and not at all otherwise |
| SnapshotReader.Section.ReadN | packages/SwingSet/misc-tools/ingest-xs-snapshot.js:197-205 | refused iff more than remains; otherwise the next bytes of the input |
| SnapshotReader.Section.ReadAll | packages/SwingSet/misc-tools/ingest-xs-snapshot.js:225-225 | the rest of the section in one piece |
| SnapshotReader.Section.IterN | packages/SwingSet/misc-tools/ingest-xs-snapshot.js:227-236 | the units are exactly the section cut into equal pieces; it throws iff less than a unit is left over; units of no bytes never end |
| SnapshotReader.Section.SkipSection | packages/SwingSet/misc-tools/ingest-xs-snapshot.js:238-242 | moves past what remains of the section |

## Left out

- Notifiers, interface guards, display info and the checks that brands and records are of the right shape.
- Amount patterns: any predicate on amounts stands for a pattern, and a caller without one passes the predicate that accepts all.
- The order of the elements of a 'set' array and of the entries of a copySet or copyBag: values of these kinds are kept as sets and multisets.
- Ledger shutdown: the function given as optShutdownWithFailure is not called; a run goes on after a throw inside a commit point, and the rights it loses are counted.
- MintAndRecover.MintPaymentEffect and the other ledger members number payments and purses in order of creation instead of comparing object identities.
- PaymentLedger.IssuerKit.DepositEach: the store may hand out any key of the set it has not handed out yet, where the actual store hands out the least one after the last.
- Durable storage: the stores of the next incarnation are the same fields, and baggage is the one option it is read for.
- LegacyPayments.SplitCorrect: each remote call is one atomic step and no one else uses the purse in between; promises for payments are already settled.
- LegacyHelpers.SplitMany: when several amounts are malformed, which of them is reported is not modelled; all are checked when the total is computed.
- Convert.RoundTripIff: passable data is a tree of values, so guests are compared by structure where the source compares them by identity, and a vow's other fields do not matter to it.
- Error annotations and the labels added to errors while converting.
- The endowment tools of async-flow: unwrap is a parameter of the bijection.
- BaggageCheck.Checker.Check: the tables of the store are given as maps, so SQL, JSON parsing and the lists of extant kinds that were not seen or not used are not part of this model; reference numbers are unbounded.
- ClientCodec.RunInv: the channel is a queue and each method one step, so data races between writing and receiving are not modelled.
- The guard that turns a panic of a port handler into an error, and the mutex of the server: each method is one step.
- Bech32 encoding with its length limits, and the functions that rewrite IBC packets: an address is a prefix and a payload.
- Telemetry and the handler called after admission.
- JsonStore.Store.Commit: file locks, lock retries, stores without a directory, torn lines and the order of getKeys; renaming is one atomic step.
- KVStream.EncodeToJsonl: a reader is given by what its reads yield in turn; errors of the writer, a reader that never stops, invalid UTF-8 and surrogate pairs written as two escapes are not modelled; the constructors for particular slice types are slice readers with a conversion.
- SnapshotReader.Section.IterN: the endless empty units of a unit size of 0 are an iteration that never finishes and are not listed one by one; each unit is read before the next is asked for.
- Parsing of slots and the database writes of the snapshot tool.
