/**
 * The two-way map of the async-flow replay membrane:
 * packages/async-flow/src/bijection.js.
 */
module Bijection {
  import opened Wrappers

  /** Values the membrane handles. Remotables, promises and non-passables are object identities. */
  datatype Passable =
    | Primitive(data: int)
    | CopyArray(elements: seq<Passable>)
    | CopyRecord(names: seq<string>, values: seq<Passable>)
    | Tagged(tag: string, payload: Passable)
    | ErrorOf(name: string, message: string)
    | Remotable(id: nat)
    | Promise(id: nat)
    | NotPassable(id: nat)

  datatype MembraneError =
    | HostBound
    | GuestBound
    | HiddenWrapperBound
    | InternalMismatch
    | KeyNotFound
    | CannotSend
    | UnexpectedPassStyle

  function FieldOf(names: seq<string>, values: seq<Passable>, name: string): Option<Passable>
    decreases |names|
  {
    if names == [] || values == [] then None
    else if names[0] == name then Some(values[0])
    else FieldOf(names[1..], values[1..], name)
  }

  /** The shortener of a vow: a value tagged 'Vow' over a record whose vowV0 is a remotable. */
  function VowShortener(p: Passable): Option<Passable> {
    if p.Tagged? && p.tag == "Vow" && p.payload.CopyRecord? then
      var v := FieldOf(p.payload.names, p.payload.values, "vowV0");
      if v.Some? && v.value.Remotable? then v else None
    else None
  }

  predicate IsVow(p: Passable) {
    VowShortener(p).Some?
  }

  /** toPassableCap, and toKey: a vow counts as its shortener, anything else as itself. */
  function ToKey(p: Passable): Passable {
    if IsVow(p) then VowShortener(p).value else p
  }

  /** r is the remotable that the first field named vowV0 holds, in a record tagged 'Vow'. */
  ghost predicate IsShortenerOf(r: Passable, p: Passable) {
    && r.Remotable? && p.Tagged? && p.tag == "Vow" && p.payload.CopyRecord?
    && exists j :: FirstNamed(p.payload.names, p.payload.values, "vowV0", j) && p.payload.values[j] == r
  }

  ghost predicate FirstNamed(names: seq<string>, values: seq<Passable>, name: string, j: int) {
    0 <= j < |names| && j < |values| && names[j] == name && forall i :: 0 <= i < j ==> names[i] != name
  }

  lemma {:induction false} FieldOfIs(names: seq<string>, values: seq<Passable>, name: string)
    ensures forall v :: FieldOf(names, values, name) == Some(v) <==>
                        exists j :: FirstNamed(names, values, name, j) && values[j] == v
    decreases |names|
  {
    if names != [] && values != [] {
      if names[0] == name {
        assert FirstNamed(names, values, name, 0);
      } else {
        FieldOfIs(names[1..], values[1..], name);
        forall j | FirstNamed(names[1..], values[1..], name, j) ensures FirstNamed(names, values, name, j + 1) {
          assert forall i :: 0 < i < j + 1 ==> names[i] == names[1..][i - 1];
        }
        forall j | FirstNamed(names, values, name, j) ensures FirstNamed(names[1..], values[1..], name, j - 1) { }
      }
    }
  }

  /** What counts as a vow, and that identity is the shortener's for a vow and its own for anything else. */
  lemma VowIff(p: Passable)
    ensures IsVow(p) <==> exists r :: IsShortenerOf(r, p)
    ensures forall r :: IsShortenerOf(r, p) ==> ToKey(p) == r
    ensures !IsVow(p) ==> ToKey(p) == p
  {
    if p.Tagged? && p.payload.CopyRecord? {
      FieldOfIs(p.payload.names, p.payload.values, "vowV0");
      var field := FieldOf(p.payload.names, p.payload.values, "vowV0");
      if field.Some? { assert field == Some(field.value); }
      forall r | IsShortenerOf(r, p) ensures VowShortener(p) == Some(r) { assert field == Some(r); }
      if IsVow(p) { assert IsShortenerOf(VowShortener(p).value, p); }
    }
  }

  predicate IsCapability(p: Passable) {
    p.Remotable? || p.Promise? || IsVow(p)
  }

  /**
   * The two stores, keyed by ToKey. `hidden` remembers which guest keys were
   * added as wrappers only; the code never reads it.
   */
  datatype Store = Store(g2h: map<Passable, Passable>, h2g: map<Passable, Passable>, hidden: set<Passable>)

  const EMPTY: Store := Store(map[], map[], {})

  /** A step's final store, and what it returned or threw. */
  datatype Step<+T> = Step(store: Store, result: Result<T, MembraneError>)

  predicate HasHost(b: Store, h: Passable) { ToKey(h) in b.h2g }
  predicate HasGuest(b: Store, g: Passable) { ToKey(g) in b.g2h }

  function LookupGuest(b: Store, h: Passable): Result<Passable, MembraneError> {
    if ToKey(h) in b.h2g then Ok(b.h2g[ToKey(h)]) else Err(KeyNotFound)
  }

  function LookupHost(b: Store, g: Passable): Result<Passable, MembraneError> {
    if ToKey(g) in b.g2h then Ok(b.g2h[ToKey(g)]) else Err(KeyNotFound)
  }

  function Has(b: Store, g: Passable, h: Passable): Result<bool, MembraneError> {
    if HasGuest(b, g) then
      if ToKey(b.g2h[ToKey(g)]) != ToKey(h) then Err(InternalMismatch)
      else
        var guest :- LookupGuest(b, h);
        if guest != g then Err(InternalMismatch) else Ok(true)
    else if HasHost(b, h) then Err(InternalMismatch)
    else Ok(false)
  }

  function AddPair(b: Store, g: Passable, h: Passable): Store {
    b.(g2h := b.g2h[ToKey(g) := h], h2g := b.h2g[ToKey(h) := g])
  }

  function AddHidden(b: Store, g: Passable, h: Passable): Store {
    b.(g2h := b.g2h[ToKey(g) := h], hidden := b.hidden + {ToKey(g)})
  }

  /** unwrapInit, where `gUnwrapped` is unwrap(h, g). */
  function UnwrapInit(b: Store, g: Passable, gUnwrapped: Passable, h: Passable): Step<Passable> {
    if HasHost(b, h) then Step(b, Err(HostBound))
    else if HasGuest(b, gUnwrapped) then Step(b, Err(GuestBound))
    else
      var b1 := AddPair(b, gUnwrapped, h);
      var paired := Has(b1, gUnwrapped, h);
      if paired.Err? then Step(b1, Err(paired.error))
      else if !paired.value then Step(b1, Err(InternalMismatch))
      else if g == gUnwrapped then Step(b1, Ok(gUnwrapped))
      else if HasGuest(b1, g) then Step(b1, Err(HiddenWrapperBound))
      else Step(AddHidden(b1, g, h), Ok(gUnwrapped))
  }

  /** Each host has one guest, found back from it; every other guest key is a hidden wrapper of some host. */
  ghost predicate Inv(b: Store) {
    && (forall hk :: hk in b.h2g ==> ToKey(b.h2g[hk]) in b.g2h && ToKey(b.g2h[ToKey(b.h2g[hk])]) == hk)
    && (forall gk :: gk in b.g2h ==> ToKey(b.g2h[gk]) in b.h2g)
    && (forall gk :: gk in b.g2h ==> (gk in b.hidden <==> ToKey(b.h2g[ToKey(b.g2h[gk])]) != gk))
    && b.hidden <= b.g2h.Keys
  }

  /** Until reset the map only grows. */
  ghost predicate Extends(b: Store, c: Store) {
    && (forall gk :: gk in b.g2h ==> gk in c.g2h && c.g2h[gk] == b.g2h[gk])
    && (forall hk :: hk in b.h2g ==> hk in c.h2g && c.h2g[hk] == b.h2g[hk])
    && b.hidden <= c.hidden
  }

  lemma ExtendsTransitive(b: Store, c: Store, d: Store)
    requires Extends(b, c) && Extends(c, d)
    ensures Extends(b, d)
  {
  }

  lemma AddPairInv(b: Store, g: Passable, h: Passable)
    requires Inv(b) && !HasGuest(b, g) && !HasHost(b, h)
    ensures Inv(AddPair(b, g, h)) && Extends(b, AddPair(b, g, h))
  {
  }

  lemma AddHiddenInv(b: Store, g: Passable, h: Passable)
    requires Inv(b) && !HasGuest(b, g) && HasHost(b, h)
    ensures Inv(AddHidden(b, g, h)) && Extends(b, AddHidden(b, g, h))
  {
  }

  /** Every exit of unwrapInit, returning or throwing, keeps the invariant and every earlier pair. */
  lemma UnwrapInitInv(b: Store, g: Passable, gUnwrapped: Passable, h: Passable)
    requires Inv(b)
    ensures Inv(UnwrapInit(b, g, gUnwrapped, h).store)
    ensures Extends(b, UnwrapInit(b, g, gUnwrapped, h).store)
  {
    hide Inv, Extends, ToKey, IsVow, VowShortener;
    if !HasHost(b, h) && !HasGuest(b, gUnwrapped) {
      AddPairInv(b, gUnwrapped, h);
      var b1 := AddPair(b, gUnwrapped, h);
      if !HasGuest(b1, g) {
        AddHiddenInv(b1, g, h);
        ExtendsTransitive(b, b1, AddHidden(b1, g, h));
      }
    } else {
      ExtendsReflexive(b);
    }
  }

  lemma ExtendsReflexive(b: Store)
    ensures Extends(b, b)
  {
  }

  /**
   * When unwrapInit succeeds and how it fails. Only the failure on a hidden
   * wrapper leaves something behind, namely the new pair.
   */
  lemma UnwrapInitResult(b: Store, g: Passable, gUnwrapped: Passable, h: Passable)
    requires Inv(b)
    ensures var u := UnwrapInit(b, g, gUnwrapped, h);
            && (u.result.Ok? <==>
                  && !HasHost(b, h) && !HasGuest(b, gUnwrapped)
                  && (g == gUnwrapped || (!HasGuest(b, g) && ToKey(g) != ToKey(gUnwrapped))))
            && (u.result.Ok? ==> u.result.value == gUnwrapped)
            && (u.result.Ok? || u.result == Err(HiddenWrapperBound) <==> u.store != b)
            && (u.store != b ==> LookupGuest(u.store, h) == Ok(gUnwrapped) && LookupHost(u.store, gUnwrapped) == Ok(h)
                                 && Has(u.store, gUnwrapped, h) == Ok(true))
            && (u.result.Ok? ==> LookupHost(u.store, g) == Ok(h))
            && u.result != Err(InternalMismatch)
            && (u.result.Err? ==>
                  u.result.error == if ToKey(h) in b.h2g then HostBound
                                    else if ToKey(gUnwrapped) in b.g2h then GuestBound else HiddenWrapperBound)
  {
    hide ToKey, IsVow, VowShortener;
    var b1 := AddPair(b, gUnwrapped, h);
    assert b1.h2g[ToKey(h)] == gUnwrapped;
    if !HasHost(b, h) && !HasGuest(b, gUnwrapped) {
      assert ToKey(h) in b1.h2g && ToKey(h) !in b.h2g;
      assert b1 != b;
      assert UnwrapInit(b, g, gUnwrapped, h).store.h2g == b1.h2g;
    }
  }

  /** `has` says true of exactly the real pairs and false of exactly the pairs with both sides unbound. */
  lemma HasIsExact(b: Store, g: Passable, h: Passable)
    requires Inv(b)
    ensures Has(b, g, h) == Ok(true) <==> ToKey(h) in b.h2g && b.h2g[ToKey(h)] == g
    ensures Has(b, g, h) == Ok(false) <==> ToKey(h) !in b.h2g && ToKey(g) !in b.g2h
    ensures ToKey(g) in b.hidden ==> Has(b, g, h).Err?
    ensures Has(b, g, h).Err? ==> Has(b, g, h) == Err(InternalMismatch)
  {
  }

  /** Different hosts have different guests, and each guest key belongs to one host only. */
  lemma HostToGuestInjective(b: Store, hk: Passable, hk': Passable)
    requires Inv(b) && hk in b.h2g && hk' in b.h2g
    ensures ToKey(b.h2g[hk]) == ToKey(b.h2g[hk']) <==> hk == hk'
    ensures ToKey(b.h2g[hk]) !in b.hidden
  {
  }

  class BijectionMap {
    var guestToHost: map<Passable, Passable>
    var hostToGuest: map<Passable, Passable>
    ghost var hidden: set<Passable>
    const unwrap: (Passable, Passable) -> Passable

    ghost function Abs(): Store
      reads this
    {
      Store(guestToHost, hostToGuest, hidden)
    }

    constructor (unwrap: (Passable, Passable) -> Passable)
      ensures this.unwrap == unwrap && Abs() == EMPTY && Inv(Abs())
    {
      this.unwrap := unwrap;
      guestToHost, hostToGuest, hidden := map[], map[], {};
    }

    method Reset()
      modifies this
      ensures Abs() == EMPTY && Inv(Abs())
    {
      guestToHost, hostToGuest, hidden := map[], map[], {};
    }

    /** Enters the pair of h and unwrap(h, g), and g as a hidden wrapper when that differs. */
    method Init(g: Passable, h: Passable) returns (r: Result<Passable, MembraneError>)
      modifies this
      ensures var u := UnwrapInit(old(Abs()), g, unwrap(h, g), h); Abs() == u.store && r == u.result
      ensures old(Inv(Abs())) ==> Inv(Abs()) && Extends(old(Abs()), Abs())
    {
      if Inv(Abs()) { UnwrapInitInv(Abs(), g, unwrap(h, g), h); }
      hide Inv, Extends, ToKey, IsVow, VowShortener;
      var gUnwrapped := unwrap(h, g);
      if ToKey(h) in hostToGuest { return Err(HostBound); }
      if ToKey(gUnwrapped) in guestToHost { return Err(GuestBound); }
      guestToHost := guestToHost[ToKey(gUnwrapped) := h];
      hostToGuest := hostToGuest[ToKey(h) := gUnwrapped];
      var paired := Holds(gUnwrapped, h);
      if paired.Err? { return Err(paired.error); }
      if !paired.value { return Err(InternalMismatch); }
      if g != gUnwrapped {
        if ToKey(g) in guestToHost { return Err(HiddenWrapperBound); }
        guestToHost := guestToHost[ToKey(g) := h];
        hidden := hidden + {ToKey(g)};
      }
      return Ok(gUnwrapped);
    }

    /** The method `has` of the source. */
    method Holds(g: Passable, h: Passable) returns (r: Result<bool, MembraneError>)
      ensures r == Has(Abs(), g, h)
    {
      if ToKey(g) in guestToHost {
        if ToKey(guestToHost[ToKey(g)]) != ToKey(h) { return Err(InternalMismatch); }
        if ToKey(h) !in hostToGuest { return Err(KeyNotFound); }
        if hostToGuest[ToKey(h)] != g { return Err(InternalMismatch); }
        return Ok(true);
      }
      if ToKey(h) in hostToGuest { return Err(InternalMismatch); }
      return Ok(false);
    }
  }
}
