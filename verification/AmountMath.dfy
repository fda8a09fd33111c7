/**
 * Amounts and their arithmetic: packages/ERTP/src/amountMath.js over the four
 * helper files in packages/ERTP/src/mathHelpers.
 *
 * Every value is also given a measure, Holdings, the multiset of rights it
 * stands for. The laws of the arithmetic follow from one fact: addition is
 * multiset sum, subtraction is multiset difference and "greater or equal" is
 * inclusion.
 */
module AmountMath {
  import opened Wrappers

  type Brand = nat

  /** One right. A fungible value of n counts n copies of FungibleUnit. */
  datatype Key = FungibleUnit | Element(id: nat)

  datatype AssetKind = NatKind | SetKind | CopySetKind | CopyBagKind

  /** A value that doCoerce has accepted. A 'set' array is kept as the set of its elements. */
  datatype Value =
    | NatValue(n: nat)
    | SetValue(elements: set<Key>)
    | CopySetValue(keys: set<Key>)
    | CopyBagValue(bag: multiset<Key>)

  datatype Amount = Amount(brand: Brand, value: Value)

  /** What a caller may pass as an amount value, before any check. */
  datatype Specimen =
    | BigInt(i: int)
    | Array(items: seq<Key>)
    | CopySet(keys: set<Key>)
    | CopyBag(bag: multiset<Key>)
    | NoAmountValue

  datatype AllegedAmount = AllegedAmount(brand: Brand, value: Specimen)

  datatype MathError =
    | BrandMismatch
    | KindMismatch
    | BadValue
    | Overlap
    | NotIncluded
    | Incomparable

  function KindOf(v: Value): AssetKind {
    match v
    case NatValue(_) => NatKind
    case SetValue(_) => SetKind
    case CopySetValue(_) => CopySetKind
    case CopyBagValue(_) => CopyBagKind
  }

  /** The kinds whose addition is total. */
  predicate AddIsTotal(kind: AssetKind) {
    kind == NatKind || kind == CopyBagKind
  }

  ghost function Holdings(v: Value): multiset<Key> {
    match v
    case NatValue(n) => multiset{}[FungibleUnit := n]
    case SetValue(s) => multiset(s)
    case CopySetValue(s) => multiset(s)
    case CopyBagValue(b) => b
  }

  ghost predicate NoDuplicates(items: seq<Key>) {
    forall i, j :: 0 <= i < j < |items| ==> items[i] != items[j]
  }

  predicate Distinct(items: seq<Key>)
    ensures Distinct(items) <==> NoDuplicates(items)
  {
    if items == [] then true
    else
      assert items == [items[0]] + items[1..];
      assert items[0] in items[1..] ==> exists j :: 0 < j < |items| && items[j] == items[0];
      items[0] !in items[1..] && Distinct(items[1..])
  }

  function MakeEmpty(brand: Brand, kind: AssetKind): Amount {
    Amount(brand,
           match kind
           case NatKind => NatValue(0)
           case SetKind => SetValue({})
           case CopySetKind => CopySetValue({})
           case CopyBagKind => CopyBagValue(multiset{}))
  }

  function MakeEmptyFromAmount(amount: Amount): Amount {
    MakeEmpty(amount.brand, KindOf(amount.value))
  }

  /** AmountMath.make: pick the helpers by the shape of the value, then doCoerce. */
  function Make(brand: Brand, alleged: Specimen): Result<Amount, MathError> {
    match alleged
    case BigInt(i) => if i >= 0 then Ok(Amount(brand, NatValue(i))) else Err(BadValue)
    case Array(items) =>
      if Distinct(items) then Ok(Amount(brand, SetValue(set k | k in items))) else Err(BadValue)
    case CopySet(keys) => Ok(Amount(brand, CopySetValue(keys)))
    case CopyBag(bag) => Ok(Amount(brand, CopyBagValue(bag)))
    case NoAmountValue => Err(BadValue)
  }

  function Coerce(brand: Brand, alleged: AllegedAmount): Result<Amount, MathError> {
    if brand != alleged.brand then Err(BrandMismatch) else Make(brand, alleged.value)
  }

  function CheckLRAndGetHelpers(left: Amount, right: Amount, brand: Option<Brand>): Result<AssetKind, MathError> {
    if brand.Some? && left.brand != brand.value then Err(BrandMismatch)
    else if brand.Some? && right.brand != brand.value then Err(BrandMismatch)
    else if left.brand != right.brand then Err(BrandMismatch)
    else if KindOf(left.value) != KindOf(right.value) then Err(KindMismatch)
    else Ok(KindOf(left.value))
  }

  predicate IsEmpty(amount: Amount) {
    match amount.value
    case NatValue(n) => n == 0
    case SetValue(s) => s == {}
    case CopySetValue(s) => s == {}
    case CopyBagValue(b) => b == multiset{}
  }

  function IsGTE(left: Amount, right: Amount, brand: Option<Brand> := None): Result<bool, MathError> {
    var _ :- CheckLRAndGetHelpers(left, right, brand);
    Ok(match (left.value, right.value)
       case (NatValue(l), NatValue(r)) => l >= r
       case (SetValue(l), SetValue(r)) => r <= l
       case (CopySetValue(l), CopySetValue(r)) => r <= l
       case (CopyBagValue(l), CopyBagValue(r)) => r <= l
       case _ => false)
  }

  function IsEqual(left: Amount, right: Amount, brand: Option<Brand> := None): Result<bool, MathError> {
    var _ :- CheckLRAndGetHelpers(left, right, brand);
    Ok(left.value == right.value)
  }

  function Add(left: Amount, right: Amount, brand: Option<Brand> := None): Result<Amount, MathError> {
    var _ :- CheckLRAndGetHelpers(left, right, brand);
    match (left.value, right.value)
    case (NatValue(l), NatValue(r)) => Ok(Amount(left.brand, NatValue(l + r)))
    case (SetValue(l), SetValue(r)) =>
      if l !! r then Ok(Amount(left.brand, SetValue(l + r))) else Err(Overlap)
    case (CopySetValue(l), CopySetValue(r)) =>
      if l !! r then Ok(Amount(left.brand, CopySetValue(l + r))) else Err(Overlap)
    case (CopyBagValue(l), CopyBagValue(r)) => Ok(Amount(left.brand, CopyBagValue(l + r)))
    case _ => Err(KindMismatch)
  }

  function Subtract(left: Amount, right: Amount, brand: Option<Brand> := None): Result<Amount, MathError> {
    var _ :- CheckLRAndGetHelpers(left, right, brand);
    match (left.value, right.value)
    case (NatValue(l), NatValue(r)) =>
      if l - r >= 0 then Ok(Amount(left.brand, NatValue(l - r))) else Err(NotIncluded)
    case (SetValue(l), SetValue(r)) =>
      if r <= l then Ok(Amount(left.brand, SetValue(l - r))) else Err(NotIncluded)
    case (CopySetValue(l), CopySetValue(r)) =>
      if r <= l then Ok(Amount(left.brand, CopySetValue(l - r))) else Err(NotIncluded)
    case (CopyBagValue(l), CopyBagValue(r)) =>
      if r <= l then Ok(Amount(left.brand, CopyBagValue(l - r))) else Err(NotIncluded)
    case _ => Err(KindMismatch)
  }

  function Min(x: Amount, y: Amount, brand: Option<Brand> := None): Result<Amount, MathError> {
    var xGTE :- IsGTE(x, y, brand);
    if xGTE then Ok(y)
    else
      var yGTE :- IsGTE(y, x, brand);
      if yGTE then Ok(x) else Err(Incomparable)
  }

  function Max(x: Amount, y: Amount, brand: Option<Brand> := None): Result<Amount, MathError> {
    var xGTE :- IsGTE(x, y, brand);
    if xGTE then Ok(x)
    else
      var yGTE :- IsGTE(y, x);
      if yGTE then Ok(y) else Err(Incomparable)
  }

  /** Amounts the helpers agree to combine: one brand, one kind. */
  predicate Compatible(x: Amount, y: Amount) {
    x.brand == y.brand && KindOf(x.value) == KindOf(y.value)
  }

  // ---------------------------------------------------------------- measure

  /** Within one kind the measure loses nothing. */
  lemma HoldingsInjective(v: Value, w: Value)
    requires KindOf(v) == KindOf(w)
    ensures Holdings(v) == Holdings(w) <==> v == w
  {
    match (v, w)
    case (NatValue(m), NatValue(n)) =>
      assert Holdings(v)[FungibleUnit] == m && Holdings(w)[FungibleUnit] == n;
    case (SetValue(s), SetValue(t)) => SetMeasure(s, t);
    case (CopySetValue(s), CopySetValue(t)) => SetMeasure(s, t);
    case _ =>
  }

  lemma SetMeasure(s: set<Key>, t: set<Key>)
    ensures multiset(s) == multiset(t) <==> s == t
    ensures multiset(t) <= multiset(s) <==> t <= s
  {
    if multiset(t) <= multiset(s) {
      forall k | k in t ensures k in s {
        assert multiset(t)[k] == 1;
        assert multiset(s)[k] >= 1;
      }
    }
    if multiset(s) == multiset(t) {
      forall k ensures k in s <==> k in t {
        assert k in s <==> multiset(s)[k] == 1;
        assert k in t <==> multiset(t)[k] == 1;
      }
    }
  }

  lemma EmptyHoldsNothing(x: Amount)
    ensures IsEmpty(x) <==> Holdings(x.value) == multiset{}
    ensures IsEmpty(x) <==> x == MakeEmptyFromAmount(x)
  {
  }

  lemma GTEIsInclusion(x: Amount, y: Amount)
    ensures IsGTE(x, y).Ok? <==> Compatible(x, y)
    ensures IsGTE(x, y) == Ok(true) <==> Compatible(x, y) && Holdings(y.value) <= Holdings(x.value)
  {
    if Compatible(x, y) {
      match (x.value, y.value)
      case (NatValue(l), NatValue(r)) =>
        assert Holdings(x.value)[FungibleUnit] == l && Holdings(y.value)[FungibleUnit] == r;
      case (SetValue(l), SetValue(r)) => SetMeasure(l, r);
      case (CopySetValue(l), CopySetValue(r)) => SetMeasure(l, r);
      case _ =>
    }
  }

  /** Addition conserves rights; it fails on compatible amounts only when set-like values overlap. */
  lemma AddConserves(x: Amount, y: Amount)
    ensures Add(x, y).Ok? <==>
            Compatible(x, y) && (AddIsTotal(KindOf(x.value)) || Holdings(x.value) !! Holdings(y.value))
    ensures Add(x, y).Ok? ==>
              Compatible(Add(x, y).value, x)
              && Holdings(Add(x, y).value.value) == Holdings(x.value) + Holdings(y.value)
    ensures Compatible(x, y) && Add(x, y).Err? ==> Add(x, y).error == Overlap
  {
    if Compatible(x, y) {
      match (x.value, y.value)
      case (NatValue(l), NatValue(r)) =>
        assert Holdings(NatValue(l + r)) == Holdings(x.value) + Holdings(y.value);
      case (SetValue(l), SetValue(r)) => SetDisjoint(l, r);
      case (CopySetValue(l), CopySetValue(r)) => SetDisjoint(l, r);
      case _ =>
    }
  }

  /** Rights that one value of this kind can stand for: a set-like value has each at most once. */
  ghost predicate Fits(kind: AssetKind, rights: multiset<Key>) {
    AddIsTotal(kind) || forall k :: rights[k] <= 1
  }

  lemma AddFits(x: Amount, y: Amount)
    requires Compatible(x, y)
    ensures Add(x, y).Ok? <==> Fits(KindOf(x.value), Holdings(x.value) + Holdings(y.value))
    ensures Fits(KindOf(x.value), Holdings(x.value))
  {
    AddConserves(x, y);
    if !AddIsTotal(KindOf(x.value)) {
      var l, r := Holdings(x.value), Holdings(y.value);
      assert forall k :: l[k] <= 1 && r[k] <= 1;
      if l !! r {
        forall k ensures (l + r)[k] <= 1 { assert k !in l || k !in r; }
      } else if forall k :: (l + r)[k] <= 1 {
        var k :| k in l && k in r;
        assert (l + r)[k] >= 2;
      }
    }
  }

  lemma FitsPart(kind: AssetKind, part: multiset<Key>, whole: multiset<Key>)
    requires part <= whole && Fits(kind, whole)
    ensures Fits(kind, part)
  {
  }

  lemma SetDisjoint(l: set<Key>, r: set<Key>)
    ensures multiset(l) !! multiset(r) <==> l !! r
    ensures l !! r ==> multiset(l + r) == multiset(l) + multiset(r)
  {
    if multiset(l) !! multiset(r) {
      forall k | k in l ensures k !in r {
        assert k in multiset(l);
        assert k !in multiset(r);
      }
    }
  }

  /** Subtraction succeeds exactly on greater-or-equal amounts and gives back what the right side left over. */
  lemma SubtractConserves(x: Amount, y: Amount)
    ensures Subtract(x, y).Ok? <==> IsGTE(x, y) == Ok(true)
    ensures Compatible(x, y) && Subtract(x, y).Err? ==> Subtract(x, y).error == NotIncluded
    ensures Subtract(x, y).Ok? ==>
              Compatible(Subtract(x, y).value, x)
              && Holdings(Subtract(x, y).value.value) + Holdings(y.value) == Holdings(x.value)
  {
  }

  // ------------------------------------------------- the documented algebra

  /** (x + y) - y = x, whenever x + y exists. */
  lemma AddThenSubtract(x: Amount, y: Amount)
    requires Add(x, y).Ok?
    ensures Subtract(Add(x, y).value, y) == Ok(x)
  {
    var z := Add(x, y).value;
    AddConserves(x, y);
    GTEIsInclusion(z, y);
    SubtractConserves(z, y);
    HoldingsInjective(Subtract(z, y).value.value, x.value);
  }

  /** (x - y) + y = x, whenever x >= y; for set-like kinds the sum exists too. */
  lemma SubtractThenAdd(x: Amount, y: Amount)
    requires IsGTE(x, y) == Ok(true)
    ensures Subtract(x, y).Ok? && Add(Subtract(x, y).value, y) == Ok(x)
  {
    SubtractConserves(x, y);
    var d := Subtract(x, y).value;
    assert Add(d, y).Ok? by {
      match (x.value, y.value)
      case (SetValue(l), SetValue(r)) => assert (l - r) !! r;
      case (CopySetValue(l), CopySetValue(r)) => assert (l - r) !! r;
      case _ =>
    }
    AddConserves(d, y);
    HoldingsInjective(Add(d, y).value.value, x.value);
  }

  /** Addition is commutative and has the empty amount as identity. */
  lemma AddCommutes(x: Amount, y: Amount)
    ensures Add(x, y).Ok? ==> Add(x, y) == Add(y, x)
    ensures Add(x, MakeEmptyFromAmount(x)) == Ok(x) && Subtract(x, MakeEmptyFromAmount(x)) == Ok(x)
  {
    AddConserves(x, y);
    AddConserves(y, x);
    if Add(x, y).Ok? {
      HoldingsInjective(Add(x, y).value.value, Add(y, x).value.value);
    }
    var e := MakeEmptyFromAmount(x);
    EmptyHoldsNothing(e);
    AddConserves(x, e);
    HoldingsInjective(Add(x, e).value.value, x.value);
    AddThenSubtract(x, e);
  }

  /** The two ways of adding three amounts succeed together and agree. */
  lemma AddAssociates(x: Amount, y: Amount, z: Amount)
    ensures (Add(x, y).Ok? && Add(Add(x, y).value, z).Ok?)
            <==> (Add(y, z).Ok? && Add(x, Add(y, z).value).Ok?)
    ensures Add(x, y).Ok? && Add(Add(x, y).value, z).Ok? ==>
              Add(y, z).Ok? && Add(Add(x, y).value, z) == Add(x, Add(y, z).value)
  {
    AddConserves(x, y);
    AddConserves(y, z);
    if Add(x, y).Ok? { AddConserves(Add(x, y).value, z); }
    if Add(y, z).Ok? { AddConserves(x, Add(y, z).value); }
    if Add(x, y).Ok? && Add(Add(x, y).value, z).Ok? && Add(y, z).Ok? && Add(x, Add(y, z).value).Ok? {
      HoldingsInjective(Add(Add(x, y).value, z).value.value, Add(x, Add(y, z).value).value.value);
    }
  }

  /** isGTE is a partial order with empty as minimum, and isEqual is isGTE both ways. */
  lemma GTEIsPartialOrder(x: Amount, y: Amount, z: Amount)
    ensures IsEqual(x, y).Ok? <==> Compatible(x, y)
    ensures IsGTE(x, x) == Ok(true) && IsGTE(x, MakeEmptyFromAmount(x)) == Ok(true)
    ensures IsEqual(x, y) == Ok(true) <==> IsGTE(x, y) == Ok(true) && IsGTE(y, x) == Ok(true)
    ensures IsGTE(x, y) == Ok(true) && IsGTE(y, z) == Ok(true) ==> IsGTE(x, z) == Ok(true)
    ensures Add(x, y).Ok? ==> IsGTE(Add(x, y).value, x) == Ok(true) && IsGTE(Add(x, y).value, y) == Ok(true)
  {
  }

  /** Min and max exist exactly for comparable amounts and are then the meet and the join. */
  lemma MinMaxBound(x: Amount, y: Amount)
    ensures Min(x, y).Ok? <==> IsGTE(x, y) == Ok(true) || IsGTE(y, x) == Ok(true)
    ensures Max(x, y).Ok? <==> Min(x, y).Ok?
    ensures Compatible(x, y) && Min(x, y).Err? ==> Min(x, y) == Max(x, y) == Err(Incomparable)
    ensures Min(x, y).Ok? ==>
              && {Min(x, y).value, Max(x, y).value} == {x, y}
              && IsGTE(Max(x, y).value, Min(x, y).value) == Ok(true)
  {
  }

  // ----------------------------------------------- what a caller asks for

  /** The rights an amount value stands for, read off the value as it was passed. */
  ghost function RightsAsked(specimen: Specimen): multiset<Key> {
    match specimen
    case BigInt(i) => if i >= 0 then multiset(seq(i, _ => FungibleUnit)) else multiset{}
    case Array(items) => multiset(items)
    case CopySet(keys) => multiset(keys)
    case CopyBag(bag) => bag
    case NoAmountValue => multiset{}
  }

  ghost predicate KindAsked(specimen: Specimen, kind: AssetKind) {
    match specimen
    case BigInt(_) => kind == NatKind
    case Array(_) => kind == SetKind
    case CopySet(_) => kind == CopySetKind
    case CopyBag(_) => kind == CopyBagKind
    case NoAmountValue => false
  }

  /** A non-negative bigint, an array without duplicates, a copySet or a copyBag. */
  ghost predicate WellFormed(specimen: Specimen) {
    && (specimen.BigInt? ==> specimen.i >= 0)
    && (specimen.Array? ==> NoDuplicates(specimen.items))
    && !specimen.NoAmountValue?
  }

  /** The amount is of the brand, the kind and the rights that were asked for. */
  ghost predicate AsksFor(alleged: AllegedAmount, a: Amount) {
    && WellFormed(alleged.value) && a.brand == alleged.brand && KindAsked(alleged.value, KindOf(a.value))
    && Holdings(a.value) == RightsAsked(alleged.value)
  }

  lemma UnitsOfNat(n: nat)
    ensures multiset(seq(n, _ => FungibleUnit)) == multiset{}[FungibleUnit := n]
  {
    if n > 0 {
      UnitsOfNat(n - 1);
      assert seq(n, _ => FungibleUnit) == seq(n - 1, _ => FungibleUnit) + [FungibleUnit];
      assert multiset{}[FungibleUnit := n - 1] + multiset{FungibleUnit} == multiset{}[FungibleUnit := n];
    } else {
      assert seq(n, _ => FungibleUnit) == [];
    }
  }

  lemma {:induction false} ArrayAsSet(items: seq<Key>)
    requires NoDuplicates(items)
    ensures multiset(items) == multiset(set k | k in items)
    decreases |items|
  {
    if items != [] {
      var first, rest := items[0], items[1..];
      ArrayAsSet(rest);
      assert items == [first] + rest;
      assert first !in rest;
      assert (set k | k in items) == {first} + set k | k in rest;
    } else {
      assert (set k | k in items) == {};
    }
  }

  /** Coercion gives exactly the amount that was asked for, and refuses exactly what is malformed or of another brand. */
  lemma CoerceIs(brand: Brand, alleged: AllegedAmount)
    ensures forall a :: Coerce(brand, alleged) == Ok(a) <==> alleged.brand == brand && AsksFor(alleged, a)
    ensures Coerce(brand, alleged).Ok? <==> alleged.brand == brand && WellFormed(alleged.value)
    ensures Coerce(brand, alleged).Err? ==>
              Coerce(brand, alleged).error == if alleged.brand != brand then BrandMismatch else BadValue
  {
    match alleged.value {
      case BigInt(i) => if i >= 0 { UnitsOfNat(i); }
      case Array(items) => if NoDuplicates(items) { ArrayAsSet(items); }
      case _ =>
    }
    if Coerce(brand, alleged).Ok? {
      var c := Coerce(brand, alleged).value;
      assert AsksFor(alleged, c);
      forall a | AsksFor(alleged, a) ensures a == c { OnlyOneAskedFor(alleged, a, c); }
    }
  }

  lemma OnlyOneAskedFor(alleged: AllegedAmount, a: Amount, b: Amount)
    requires AsksFor(alleged, a) && AsksFor(alleged, b)
    ensures a == b
  {
    HoldingsInjective(a.value, b.value);
  }

  /** Passed back in any form that stands for it, an amount coerces to itself; and there is such a form. */
  lemma StoredCoercesToItself(a: Amount) returns (specimen: Specimen)
    ensures AsksFor(AllegedAmount(a.brand, specimen), a)
    ensures forall v :: AsksFor(AllegedAmount(a.brand, v), a) ==> Coerce(a.brand, AllegedAmount(a.brand, v)) == Ok(a)
  {
    match a.value {
      case NatValue(n) =>
        UnitsOfNat(n);
        specimen := BigInt(n);
      case SetValue(elements) =>
        var items := InSomeOrder(elements);
        ArrayAsSet(items);
        assert (set k | k in items) == elements;
        specimen := Array(items);
      case CopySetValue(keys) => specimen := CopySet(keys);
      case CopyBagValue(bag) => specimen := CopyBag(bag);
    }
    forall v | AsksFor(AllegedAmount(a.brand, v), a) ensures Coerce(a.brand, AllegedAmount(a.brand, v)) == Ok(a) {
      CoerceIs(a.brand, AllegedAmount(a.brand, v));
    }
  }

  lemma {:induction false} InSomeOrder(elements: set<Key>) returns (items: seq<Key>)
    ensures NoDuplicates(items) && forall k :: k in items <==> k in elements
    decreases elements
  {
    if elements == {} { return []; }
    var k :| k in elements;
    var rest := InSomeOrder(elements - {k});
    items := [k] + rest;
  }

  /** Amounts that are not of one brand and kind are refused, for their brands first. */
  lemma MismatchIsReported(x: Amount, y: Amount)
    requires !Compatible(x, y)
    ensures var why := if x.brand != y.brand then BrandMismatch else KindMismatch;
            && Add(x, y) == Err(why) && Subtract(x, y) == Err(why) && IsGTE(x, y) == Err(why) && IsEqual(x, y) == Err(why)
            && Min(x, y) == Err(why) && Max(x, y) == Err(why)
  {
  }

  /** A brand passed as optBrand is checked against both sides and does nothing else. */
  lemma BrandIsChecked(x: Amount, y: Amount, brand: Brand)
    ensures x.brand == brand && y.brand == brand ==>
              && Add(x, y, Some(brand)) == Add(x, y) && Subtract(x, y, Some(brand)) == Subtract(x, y)
              && IsGTE(x, y, Some(brand)) == IsGTE(x, y) && IsEqual(x, y, Some(brand)) == IsEqual(x, y)
              && Min(x, y, Some(brand)) == Min(x, y) && Max(x, y, Some(brand)) == Max(x, y)
    ensures x.brand != brand || y.brand != brand ==>
              && Add(x, y, Some(brand)) == Err(BrandMismatch) && Subtract(x, y, Some(brand)) == Err(BrandMismatch)
              && IsGTE(x, y, Some(brand)) == Err(BrandMismatch) && IsEqual(x, y, Some(brand)) == Err(BrandMismatch)
              && Min(x, y, Some(brand)) == Err(BrandMismatch) && Max(x, y, Some(brand)) == Err(BrandMismatch)
  {
  }
}
