/**
 * Conversion of passable values across the replay membrane:
 * packages/async-flow/src/convert.js. Converting from host to guest extends the
 * bijection as it recurs; converting back only reads it.
 */
module Convert {
  import opened Wrappers
  import opened Bijection

  /**
   * The two guest makers and unwrap. A maker makes a new object on each call, so
   * it is given the number of guests made so far.
   */
  datatype Env = Env(
    makeGuestForHostRemotable: (Passable, nat) -> Passable,
    makeGuestForHostVow: (Passable, nat) -> Passable,
    unwrap: (Passable, Passable) -> Passable)

  datatype Membrane = Membrane(store: Store, made: nat)

  /** The membrane after a conversion, and what the conversion returned or threw. */
  datatype Conversion<+T> = Conversion(membrane: Membrane, result: Result<T, MembraneError>)

  const ERROR_CONSTRUCTORS: set<string> :=
    {"Error", "EvalError", "RangeError", "ReferenceError", "SyntaxError", "TypeError", "URIError", "AggregateError"}

  /** makeError with the constructor known by that name, or with Error. */
  function ConvertError(name: string, message: string): Passable {
    ErrorOf(if name in ERROR_CONSTRUCTORS then name else "Error", message)
  }

  /** The two capability callbacks of hostToGuest: look the host up, or make a guest and enter the pair. */
  function ConvertHostCap(env: Env, m: Membrane, h: Passable): Conversion<Passable> {
    if HasHost(m.store, h) then Conversion(m, LookupGuest(m.store, h))
    else
      var g := if h.Remotable? then env.makeGuestForHostRemotable(h, m.made) else env.makeGuestForHostVow(h, m.made);
      var u := UnwrapInit(m.store, g, env.unwrap(h, g), h);
      Conversion(Membrane(u.store, m.made + 1), u.result)
  }

  function HostToGuest(env: Env, m: Membrane, specimen: Passable): Conversion<Passable>
    decreases specimen, 1
  {
    match specimen
    case Primitive(_) => Conversion(m, Ok(specimen))
    case CopyArray(elements) =>
      var c := HostToGuestAll(env, m, elements);
      Conversion(c.membrane, if c.result.Ok? then Ok(CopyArray(c.result.value)) else Err(c.result.error))
    case CopyRecord(names, values) =>
      var c := HostToGuestAll(env, m, values);
      Conversion(c.membrane, if c.result.Ok? then Ok(CopyRecord(names, c.result.value)) else Err(c.result.error))
    case Tagged(tag, payload) =>
      if IsVow(specimen) then ConvertHostCap(env, m, specimen)
      else
        var c := HostToGuest(env, m, payload);
        Conversion(c.membrane, if c.result.Ok? then Ok(Tagged(tag, c.result.value)) else c.result)
    case ErrorOf(name, message) => Conversion(m, Ok(ConvertError(name, message)))
    case Remotable(_) => ConvertHostCap(env, m, specimen)
    case Promise(_) => ConvertHostCap(env, m, specimen)
    case NotPassable(_) => Conversion(m, Err(UnexpectedPassStyle))
  }

  /** The elements in order; the first throw ends the conversion, keeping what was entered before it. */
  function HostToGuestAll(env: Env, m: Membrane, specimens: seq<Passable>): Conversion<seq<Passable>>
    decreases specimens, 0
  {
    if specimens == [] then Conversion(m, Ok([]))
    else
      var first := HostToGuest(env, m, specimens[0]);
      if first.result.Err? then Conversion(first.membrane, Err(first.result.error))
      else
        var rest := HostToGuestAll(env, first.membrane, specimens[1..]);
        Conversion(rest.membrane, if rest.result.Ok? then Ok([first.result.value] + rest.result.value) else rest.result)
  }

  function ConvertGuestCap(b: Store, g: Passable): Result<Passable, MembraneError> {
    if HasGuest(b, g) then LookupHost(b, g) else Err(CannotSend)
  }

  function GuestToHost(b: Store, specimen: Passable): Result<Passable, MembraneError>
    decreases specimen, 1
  {
    match specimen
    case Primitive(_) => Ok(specimen)
    case CopyArray(elements) =>
      var values :- GuestToHostAll(b, elements);
      Ok(CopyArray(values))
    case CopyRecord(names, values) =>
      var converted :- GuestToHostAll(b, values);
      Ok(CopyRecord(names, converted))
    case Tagged(tag, payload) =>
      if IsVow(specimen) then ConvertGuestCap(b, specimen)
      else
        var converted :- GuestToHost(b, payload);
        Ok(Tagged(tag, converted))
    case ErrorOf(name, message) => Ok(ConvertError(name, message))
    case Remotable(_) => ConvertGuestCap(b, specimen)
    case Promise(_) => ConvertGuestCap(b, specimen)
    case NotPassable(_) => Err(UnexpectedPassStyle)
  }

  function GuestToHostAll(b: Store, specimens: seq<Passable>): Result<seq<Passable>, MembraneError>
    decreases specimens, 0
  {
    if specimens == [] then Ok([])
    else
      var first :- GuestToHost(b, specimens[0]);
      var rest :- GuestToHostAll(b, specimens[1..]);
      Ok([first] + rest)
  }

  // ------------------------------------------------- growth and invariants

  ghost predicate Grows(m: Membrane, n: Membrane) {
    Inv(n.store) && Extends(m.store, n.store) && m.made <= n.made
  }

  lemma ConvertHostCapGrows(env: Env, m: Membrane, h: Passable)
    requires Inv(m.store)
    ensures var c := ConvertHostCap(env, m, h);
            && Grows(m, c.membrane)
            && (c.result.Ok? ==> LookupGuest(c.membrane.store, h) == c.result
                                 && HasGuest(c.membrane.store, c.result.value)
                                 && ToKey(c.membrane.store.g2h[ToKey(c.result.value)]) == ToKey(h))
            && (c.result.Ok? && !HasHost(m.store, h) ==> c.membrane.store.g2h[ToKey(c.result.value)] == h)
  {
    hide ToKey, IsVow, VowShortener;
    if HasHost(m.store, h) {
      ExtendsReflexive(m.store);
    } else {
      var g := if h.Remotable? then env.makeGuestForHostRemotable(h, m.made) else env.makeGuestForHostVow(h, m.made);
      UnwrapInitInv(m.store, g, env.unwrap(h, g), h);
      UnwrapInitResult(m.store, g, env.unwrap(h, g), h);
    }
  }

  /** Converting to the guest side, returning or throwing, only adds pairs and keeps the invariant. */
  lemma {:induction false} HostToGuestGrows(env: Env, m: Membrane, specimen: Passable)
    requires Inv(m.store)
    ensures Grows(m, HostToGuest(env, m, specimen).membrane)
    decreases specimen, 1
  {
    ExtendsReflexive(m.store);
    hide Inv, Extends, IsVow, ConvertHostCap;
    match specimen
    case CopyArray(elements) => HostToGuestAllGrows(env, m, elements);
    case CopyRecord(_, values) => HostToGuestAllGrows(env, m, values);
    case Tagged(_, payload) =>
      if IsVow(specimen) { ConvertHostCapGrows(env, m, specimen); } else { HostToGuestGrows(env, m, payload); }
    case Remotable(_) => ConvertHostCapGrows(env, m, specimen);
    case Promise(_) => ConvertHostCapGrows(env, m, specimen);
    case _ =>
  }

  lemma {:induction false} HostToGuestAllGrows(env: Env, m: Membrane, specimens: seq<Passable>)
    requires Inv(m.store)
    ensures Grows(m, HostToGuestAll(env, m, specimens).membrane)
    decreases specimens, 0
  {
    ExtendsReflexive(m.store);
    hide Inv, Extends, HostToGuest;
    if specimens != [] {
      HostToGuestGrows(env, m, specimens[0]);
      var first := HostToGuest(env, m, specimens[0]);
      if first.result.Ok? {
        HostToGuestAllGrows(env, first.membrane, specimens[1..]);
        ExtendsTransitive(m.store, first.membrane.store, HostToGuestAll(env, first.membrane, specimens[1..]).membrane.store);
      }
    }
  }

  /**
   * When an element throws, the conversion throws that and converts nothing after
   * it, and what was entered for it and for the elements before it stays entered.
   */
  lemma {:induction false} ThrowKeepsEarlier(env: Env, m: Membrane, hs: seq<Passable>, h: Passable, rest: seq<Passable>)
    requires HostToGuestAll(env, m, hs).result.Ok? && HostToGuest(env, HostToGuestAll(env, m, hs).membrane, h).result.Err?
    ensures var thrown := HostToGuest(env, HostToGuestAll(env, m, hs).membrane, h);
            var all := hs + ([h] + rest);
            && HostToGuestAll(env, m, all) == Conversion(thrown.membrane, Err(thrown.result.error))
            && HostToGuest(env, m, CopyArray(all)) == thrown
            && forall names :: HostToGuest(env, m, CopyRecord(names, all)) == thrown
    decreases |hs|
  {
    var all := hs + ([h] + rest);
    if hs == [] {
      assert all == [h] + rest;
    } else {
      var first := HostToGuest(env, m, hs[0]);
      assert all[1..] == hs[1..] + ([h] + rest);
      ThrowKeepsEarlier(env, first.membrane, hs[1..], h, rest);
    }
    hide ConvertHostCap, IsVow;
  }

  /** The value at a path: positions in arrays, in the values of records, and 0 for the payload of a tagged value. */
  function At(p: Passable, path: seq<nat>): Option<Passable>
    decreases |path|
  {
    if path == [] then Some(p)
    else
      match p
      case CopyArray(elements) => if path[0] < |elements| then At(elements[path[0]], path[1..]) else None
      case CopyRecord(_, values) => if path[0] < |values| then At(values[path[0]], path[1..]) else None
      case Tagged(_, payload) => if path[0] == 0 then At(payload, path[1..]) else None
      case _ => None
  }

  /** The path leads to a capability of h, and not into one. */
  ghost predicate OccursAt(h: Passable, path: seq<nat>, c: Passable)
    decreases |path|
  {
    if path == [] then c == h && IsCapability(c)
    else
      && !IsCapability(h)
      && match h
         case CopyArray(elements) => path[0] < |elements| && OccursAt(elements[path[0]], path[1..], c)
         case CopyRecord(_, values) => path[0] < |values| && OccursAt(values[path[0]], path[1..], c)
         case Tagged(_, payload) => path[0] == 0 && OccursAt(payload, path[1..], c)
         case _ => false
  }

  /** One element of a converted sequence: where its conversion started, and that the store only grew since. */
  lemma {:induction false} ElementConverted(env: Env, m: Membrane, hs: seq<Passable>, j: nat) returns (mj: Membrane)
    requires Inv(m.store) && HostToGuestAll(env, m, hs).result.Ok? && j < |hs|
    ensures Inv(mj.store) && |HostToGuestAll(env, m, hs).result.value| == |hs|
    ensures HostToGuest(env, mj, hs[j]).result == Ok(HostToGuestAll(env, m, hs).result.value[j])
    ensures Extends(HostToGuest(env, mj, hs[j]).membrane.store, HostToGuestAll(env, m, hs).membrane.store)
    decreases |hs|
  {
    HostToGuestAllLength(env, m, hs);
    HostToGuestGrows(env, m, hs[0]);
    var first := HostToGuest(env, m, hs[0]);
    HostToGuestAllGrows(env, first.membrane, hs[1..]);
    hide Inv, Extends, HostToGuest;
    if j == 0 {
      mj := m;
    } else {
      mj := ElementConverted(env, first.membrane, hs[1..], j - 1);
    }
  }

  /** Wherever a capability occurs in a converted value, its guest is at the same place and bound to it. */
  lemma {:induction false} OccurrenceBound(env: Env, m: Membrane, h: Passable, path: seq<nat>, c: Passable, later: Store)
    requires Inv(m.store) && HostToGuest(env, m, h).result.Ok? && OccursAt(h, path, c)
    requires Extends(HostToGuest(env, m, h).membrane.store, later)
    ensures ToKey(c) in later.h2g && At(HostToGuest(env, m, h).result.value, path) == Some(later.h2g[ToKey(c)])
    decreases |path|
  {
    if path == [] {
      CapabilityBound(env, m, h);
    } else {
      hide Inv, ToKey, VowShortener;
      match h
      case CopyArray(elements) => ElementBound(env, m, elements, path, c, later);
      case CopyRecord(_, values) => ElementBound(env, m, values, path, c, later);
      case Tagged(_, payload) => OccurrenceBound(env, m, payload, path[1..], c, later);
    }
  }

  lemma {:induction false} ElementBound(env: Env, m: Membrane, hs: seq<Passable>, path: seq<nat>, c: Passable, later: Store)
    requires Inv(m.store) && HostToGuestAll(env, m, hs).result.Ok?
    requires path != [] && path[0] < |hs| && OccursAt(hs[path[0]], path[1..], c)
    requires Extends(HostToGuestAll(env, m, hs).membrane.store, later)
    ensures |HostToGuestAll(env, m, hs).result.value| == |hs| && ToKey(c) in later.h2g
    ensures At(HostToGuestAll(env, m, hs).result.value[path[0]], path[1..]) == Some(later.h2g[ToKey(c)])
    decreases |path|, 0
  {
    var mj := ElementConverted(env, m, hs, path[0]);
    ExtendsTransitive(HostToGuest(env, mj, hs[path[0]]).membrane.store, HostToGuestAll(env, m, hs).membrane.store, later);
    hide Inv, Extends, HostToGuest, HostToGuestAll, ToKey, OccursAt, At;
    OccurrenceBound(env, mj, hs[path[0]], path[1..], c, later);
  }

  /**
   * Conversion preserves identity. Take any two occurrences of capabilities, in
   * two conversions or in one, with no reset up to `later`: the guests at those
   * places are the same exactly when the capabilities are.
   */
  lemma IdentityPreserved(env: Env, m: Membrane, h: Passable, path: seq<nat>, c: Passable,
                          n: Membrane, h': Passable, path': seq<nat>, c': Passable, later: Store)
    requires Inv(m.store) && Inv(n.store) && Inv(later)
    requires HostToGuest(env, m, h).result.Ok? && HostToGuest(env, n, h').result.Ok?
    requires Extends(HostToGuest(env, m, h).membrane.store, later) && Extends(HostToGuest(env, n, h').membrane.store, later)
    requires OccursAt(h, path, c) && OccursAt(h', path', c')
    ensures At(HostToGuest(env, m, h).result.value, path).Some? && At(HostToGuest(env, n, h').result.value, path').Some?
    ensures At(HostToGuest(env, m, h).result.value, path) == At(HostToGuest(env, n, h').result.value, path')
            <==> ToKey(c) == ToKey(c')
  {
    hide *;
    OccurrenceBound(env, m, h, path, c, later);
    OccurrenceBound(env, n, h', path', c', later);
    HostToGuestInjective(later, ToKey(c), ToKey(c'));
  }

  /** A converted capability is bound to its guest. */
  lemma CapabilityBound(env: Env, m: Membrane, h: Passable)
    requires Inv(m.store) && IsCapability(h) && HostToGuest(env, m, h).result.Ok?
    ensures var c := HostToGuest(env, m, h);
            Grows(m, c.membrane) && ToKey(h) in c.membrane.store.h2g && c.membrane.store.h2g[ToKey(h)] == c.result.value
  {
    ConvertHostCapGrows(env, m, h);
    assert HostToGuest(env, m, h) == ConvertHostCap(env, m, h);
    hide HostToGuest, ToKey, IsVow, VowShortener, ConvertHostCap;
  }

  // ---------------------------------------------------- one conversion alone

  /** An error with the same message, by the same name where a constructor of that name is known and else by Error. */
  ghost predicate SameError(name: string, message: string, k: Passable) {
    && k.ErrorOf? && k.message == message
    && (name in ERROR_CONSTRUCTORS ==> k.name == name)
    && (name !in ERROR_CONSTRUCTORS ==> k.name == "Error")
  }

  /** g is h with every capability replaced by the guest bound to it. */
  ghost predicate GuestOf(b: Store, h: Passable, g: Passable)
    decreases h
  {
    if IsCapability(h) then ToKey(h) in b.h2g && g == b.h2g[ToKey(h)]
    else
      match h
      case Primitive(_) => g == h
      case CopyArray(elements) =>
        g.CopyArray? && |g.elements| == |elements| && forall i :: 0 <= i < |elements| ==> GuestOf(b, elements[i], g.elements[i])
      case CopyRecord(names, values) =>
        && g.CopyRecord? && g.names == names && |g.values| == |values|
        && forall i :: 0 <= i < |values| ==> GuestOf(b, values[i], g.values[i])
      case Tagged(tag, payload) => g.Tagged? && g.tag == tag && GuestOf(b, payload, g.payload)
      case ErrorOf(name, message) => SameError(name, message, g)
      case _ => false
  }

  /** k is g with every capability replaced by the host bound to it. */
  ghost predicate HostOf(b: Store, g: Passable, k: Passable)
    decreases g
  {
    if IsCapability(g) then ToKey(g) in b.g2h && k == b.g2h[ToKey(g)]
    else
      match g
      case Primitive(_) => k == g
      case CopyArray(elements) =>
        k.CopyArray? && |k.elements| == |elements| && forall i :: 0 <= i < |elements| ==> HostOf(b, elements[i], k.elements[i])
      case CopyRecord(names, values) =>
        && k.CopyRecord? && k.names == names && |k.values| == |values|
        && forall i :: 0 <= i < |values| ==> HostOf(b, values[i], k.values[i])
      case Tagged(tag, payload) => k.Tagged? && k.tag == tag && HostOf(b, payload, k.payload)
      case ErrorOf(name, message) => SameError(name, message, k)
      case _ => false
  }

  /** What a host value is converted to: itself, with the guests of its capabilities, up to any later state. */
  lemma {:induction false} HostToGuestIs(env: Env, m: Membrane, h: Passable, later: Store)
    requires Inv(m.store) && HostToGuest(env, m, h).result.Ok?
    requires Extends(HostToGuest(env, m, h).membrane.store, later)
    ensures GuestOf(later, h, HostToGuest(env, m, h).result.value)
    decreases h, 1
  {
    if IsCapability(h) {
      CapabilityBound(env, m, h);
    } else {
      hide Inv, Extends, ToKey, VowShortener;
      match h
      case CopyArray(elements) => HostToGuestAllIs(env, m, elements, later);
      case CopyRecord(_, values) => HostToGuestAllIs(env, m, values, later);
      case Tagged(_, payload) => HostToGuestIs(env, m, payload, later);
      case _ =>
    }
  }

  lemma {:induction false} HostToGuestAllIs(env: Env, m: Membrane, hs: seq<Passable>, later: Store)
    requires Inv(m.store) && HostToGuestAll(env, m, hs).result.Ok?
    requires Extends(HostToGuestAll(env, m, hs).membrane.store, later)
    ensures var gs := HostToGuestAll(env, m, hs).result.value;
            |gs| == |hs| && forall i :: 0 <= i < |hs| ==> GuestOf(later, hs[i], gs[i])
    decreases hs, 0
  {
    if hs != [] {
      var first := HostToGuest(env, m, hs[0]);
      HostToGuestGrows(env, m, hs[0]);
      HostToGuestAllGrows(env, first.membrane, hs[1..]);
      ExtendsTransitive(first.membrane.store, HostToGuestAll(env, m, hs).membrane.store, later);
      hide Inv, Extends, HostToGuest, GuestOf;
      HostToGuestIs(env, m, hs[0], later);
      HostToGuestAllIs(env, first.membrane, hs[1..], later);
    }
  }

  /** A guest value is converted, whatever it is made of, iff its capabilities are bound and all in it is passable. */
  ghost predicate Sendable(b: Store, g: Passable)
    decreases g
  {
    if IsCapability(g) then ToKey(g) in b.g2h
    else
      match g
      case CopyArray(elements) => forall i :: 0 <= i < |elements| ==> Sendable(b, elements[i])
      case CopyRecord(_, values) => forall i :: 0 <= i < |values| ==> Sendable(b, values[i])
      case Tagged(_, payload) => Sendable(b, payload)
      case NotPassable(_) => false
      case _ => true
  }

  /** What a guest value is converted back to, and exactly when it is. */
  lemma {:induction false} GuestToHostIs(b: Store, g: Passable)
    ensures GuestToHost(b, g).Ok? <==> Sendable(b, g)
    ensures IsCapability(g) && GuestToHost(b, g).Err? ==> GuestToHost(b, g) == Err(CannotSend)
    ensures g.NotPassable? ==> GuestToHost(b, g) == Err(UnexpectedPassStyle)
    ensures GuestToHost(b, g).Ok? ==> HostOf(b, g, GuestToHost(b, g).value)
    decreases g, 1
  {
    if !IsCapability(g) {
      hide ToKey, VowShortener, ConvertGuestCap;
      match g
      case CopyArray(elements) => GuestToHostAllIs(b, elements);
      case CopyRecord(_, values) => GuestToHostAllIs(b, values);
      case Tagged(_, payload) => GuestToHostIs(b, payload);
      case _ =>
    }
  }

  lemma {:induction false} GuestToHostAllIs(b: Store, gs: seq<Passable>)
    ensures GuestToHostAll(b, gs).Ok? <==> forall i :: 0 <= i < |gs| ==> Sendable(b, gs[i])
    ensures GuestToHostAll(b, gs).Ok? ==>
              var ks := GuestToHostAll(b, gs).value;
              |ks| == |gs| && forall i :: 0 <= i < |gs| ==> HostOf(b, gs[i], ks[i])
    decreases gs, 0
  {
    if gs != [] {
      GuestToHostIs(b, gs[0]);
      GuestToHostAllIs(b, gs[1..]);
      hide GuestToHost, Sendable, HostOf;
      assert forall i :: 0 < i < |gs| ==> gs[i] == gs[1..][i - 1];
      if forall i :: 0 <= i < |gs| ==> Sendable(b, gs[i]) {
        forall i | 0 <= i < |gs| - 1 ensures Sendable(b, gs[1..][i]) { assert Sendable(b, gs[i + 1]); }
      }
    }
  }

  // ------------------------------------------------------------ round trip

  /** The same structure, the same capabilities up to toPassableCap, and errors with the same message and known name. */
  ghost predicate Same(h: Passable, k: Passable)
    decreases h
  {
    if IsCapability(h) then IsCapability(k) && ToKey(h) == ToKey(k)
    else
      match h
      case Primitive(_) => k == h
      case CopyArray(elements) => k.CopyArray? && SameAll(elements, k.elements)
      case CopyRecord(names, values) => k.CopyRecord? && k.names == names && SameAll(values, k.values)
      case Tagged(tag, payload) => k.Tagged? && !IsVow(k) && k.tag == tag && Same(payload, k.payload)
      case ErrorOf(name, message) => SameError(name, message, k)
      case _ => false
  }

  ghost predicate SameAll(hs: seq<Passable>, ks: seq<Passable>)
    decreases hs
  {
    |hs| == |ks| && forall i :: 0 <= i < |hs| ==> Same(hs[i], ks[i])
  }

  /** No tagged value that is not a vow was converted into something shaped like one. */
  ghost predicate NoFakeVow(h: Passable, g: Passable)
    decreases h
  {
    match h
    case CopyArray(elements) =>
      g.CopyArray? && |g.elements| == |elements| && forall i :: 0 <= i < |elements| ==> NoFakeVow(elements[i], g.elements[i])
    case CopyRecord(_, values) =>
      g.CopyRecord? && |g.values| == |values| && forall i :: 0 <= i < |values| ==> NoFakeVow(values[i], g.values[i])
    case Tagged(_, payload) => IsVow(h) || (g.Tagged? && !IsVow(g) && NoFakeVow(payload, g.payload))
    case _ => true
  }

  /** The guest of a remotable is a remotable once unwrapped, the guest of a vow or promise a promise. */
  ghost predicate MakesKinds(env: Env) {
    forall h: Passable, n: nat ::
      && env.unwrap(h, env.makeGuestForHostRemotable(h, n)).Remotable?
      && env.unwrap(h, env.makeGuestForHostVow(h, n)).Promise?
  }

  /** Hosts are capabilities, and remotables are paired with remotables, vows and promises with promises. */
  ghost predicate KindsKept(b: Store) {
    && (forall hk :: hk in b.h2g ==> (b.h2g[hk].Remotable? || b.h2g[hk].Promise?)
                                     && b.h2g[hk] in b.g2h && (b.h2g[hk].Remotable? <==> b.g2h[b.h2g[hk]].Remotable?))
    && (forall gk :: gk in b.g2h ==> IsCapability(b.g2h[gk]))
  }

  lemma ConvertHostCapKindsKept(env: Env, m: Membrane, h: Passable)
    requires Inv(m.store) && KindsKept(m.store) && MakesKinds(env) && IsCapability(h)
    ensures KindsKept(ConvertHostCap(env, m, h).membrane.store)
    ensures ConvertHostCap(env, m, h).result.Ok? ==> IsCapability(ConvertHostCap(env, m, h).result.value)
  {
    KeyOfPlain();
    hide ToKey, IsCapability, IsVow, VowShortener, Inv;
  }

  lemma KeyOfPlain()
    ensures forall p: Passable :: p.Remotable? || p.Promise? ==> ToKey(p) == p && !IsVow(p) && IsCapability(p)
  {
  }

  lemma {:induction false} HostToGuestKindsKept(env: Env, m: Membrane, specimen: Passable)
    requires Inv(m.store) && KindsKept(m.store) && MakesKinds(env)
    ensures KindsKept(HostToGuest(env, m, specimen).membrane.store)
    decreases specimen, 1
  {
    hide Inv, KindsKept, MakesKinds, VowShortener, IsVow, ConvertHostCap;
    match specimen
    case CopyArray(elements) => HostToGuestAllKindsKept(env, m, elements);
    case CopyRecord(_, values) => HostToGuestAllKindsKept(env, m, values);
    case Tagged(_, payload) =>
      if IsVow(specimen) { ConvertHostCapKindsKept(env, m, specimen); } else { HostToGuestKindsKept(env, m, payload); }
    case Remotable(_) => ConvertHostCapKindsKept(env, m, specimen);
    case Promise(_) => ConvertHostCapKindsKept(env, m, specimen);
    case _ =>
  }

  lemma {:induction false} HostToGuestAllKindsKept(env: Env, m: Membrane, specimens: seq<Passable>)
    requires Inv(m.store) && KindsKept(m.store) && MakesKinds(env)
    ensures KindsKept(HostToGuestAll(env, m, specimens).membrane.store)
    decreases specimens, 0
  {
    hide Inv, KindsKept, MakesKinds, HostToGuest;
    if specimens != [] {
      HostToGuestKindsKept(env, m, specimens[0]);
      HostToGuestGrows(env, m, specimens[0]);
      var first := HostToGuest(env, m, specimens[0]);
      if first.result.Ok? { HostToGuestAllKindsKept(env, first.membrane, specimens[1..]); }
    }
  }

  /** One capability: what comes back is the host first entered under its key, so h itself unless another value with that key came first. */
  lemma CapabilityComesBack(env: Env, m: Membrane, h: Passable, later: Store)
    requires Inv(m.store) && IsCapability(h) && KindsKept(m.store) && MakesKinds(env)
    requires HostToGuest(env, m, h).result.Ok?
    requires Inv(later) && Extends(HostToGuest(env, m, h).membrane.store, later)
    ensures var back := GuestToHost(later, HostToGuest(env, m, h).result.value);
            && back.Ok? && ToKey(back.value) == ToKey(h)
            && (back.value == h <==>
                !HasHost(m.store, h) || LookupHost(m.store, m.store.h2g[ToKey(h)]) == Ok(h))
  {
    CapabilityPair(env, m, h, later);
    ConvertHostCapGrows(env, m, h);
    KeyOfPlain();
    hide ToKey, VowShortener, KindsKept, MakesKinds, IsCapability;
    var c := HostToGuest(env, m, h);
    if HasHost(m.store, h) {
      assert c.membrane.store == m.store;
    }
  }

  /** The pair of a converted capability, as every later store has it. */
  lemma CapabilityPair(env: Env, m: Membrane, h: Passable, later: Store)
    requires Inv(m.store) && IsCapability(h) && KindsKept(m.store) && MakesKinds(env)
    requires HostToGuest(env, m, h).result.Ok?
    requires Inv(later) && Extends(HostToGuest(env, m, h).membrane.store, later)
    ensures var g := HostToGuest(env, m, h).result.value;
            && HostToGuest(env, m, h) == ConvertHostCap(env, m, h)
            && HasHost(later, h) && later.h2g[ToKey(h)] == g && (g.Remotable? || g.Promise?)
            && g in later.g2h && ToKey(later.g2h[g]) == ToKey(h)
            && GuestToHost(later, g) == Ok(later.g2h[g])
  {
    ConvertHostCapGrows(env, m, h);
    ConvertHostCapKindsKept(env, m, h);
    KeyOfPlain();
    assert HostToGuest(env, m, h) == ConvertHostCap(env, m, h);
    hide HostToGuest, GuestToHost, ToKey, VowShortener, IsVow, ConvertHostCap, MakesKinds, IsCapability, Inv;
    PlainGuestBack(later, ConvertHostCap(env, m, h).result.value);
  }

  lemma PlainGuestBack(b: Store, g: Passable)
    requires g.Remotable? || g.Promise?
    ensures GuestToHost(b, g) == if g in b.g2h then Ok(b.g2h[g]) else Err(CannotSend)
  {
  }

  /**
   * The membrane round trip, with every capability taken up to its key. A host
   * value converted to a guest, and converted back in any later state before a
   * reset, comes back the same exactly when no tagged value on the way was turned
   * into something shaped like a vow.
   */
  lemma {:induction false} RoundTripByKey(env: Env, m: Membrane, h: Passable, later: Store)
    requires Inv(m.store) && KindsKept(m.store) && MakesKinds(env)
    requires HostToGuest(env, m, h).result.Ok?
    requires Inv(later) && KindsKept(later) && Extends(HostToGuest(env, m, h).membrane.store, later)
    ensures var g := HostToGuest(env, m, h).result.value;
            GuestToHost(later, g).Ok? && Same(h, GuestToHost(later, g).value) <==> NoFakeVow(h, g)
    decreases h, 1
  {
    var g := HostToGuest(env, m, h).result.value;
    if IsCapability(h) {
      CapabilityRoundTrip(env, m, h, later);
    } else {
      hide Inv, KindsKept, MakesKinds, Extends, VowShortener, IsVow;
      match h
      case Primitive(_) =>
      case CopyArray(elements) => RoundTripByKeyAll(env, m, elements, later);
      case CopyRecord(_, values) => RoundTripByKeyAll(env, m, values, later);
      case Tagged(_, payload) =>
        assert !IsVow(h);
        if IsVow(g) {
          FakeVowComesBackWrong(later, h, g);
        } else {
          RoundTripByKey(env, m, payload, later);
          var gp := HostToGuest(env, m, payload).result.value;
          if GuestToHost(later, gp).Ok? && Same(payload, GuestToHost(later, gp).value) {
            NoVowComesBack(env, m, h.tag, payload, later);
          }
        }
      case ErrorOf(_, _) =>
    }
  }

  lemma CapabilityRoundTrip(env: Env, m: Membrane, h: Passable, later: Store)
    requires Inv(m.store) && KindsKept(m.store) && MakesKinds(env) && IsCapability(h)
    requires HostToGuest(env, m, h).result.Ok?
    requires Inv(later) && KindsKept(later) && Extends(HostToGuest(env, m, h).membrane.store, later)
    ensures var g := HostToGuest(env, m, h).result.value;
            GuestToHost(later, g).Ok? && Same(h, GuestToHost(later, g).value) && NoFakeVow(h, g)
  {
    CapabilityPair(env, m, h, later);
    hide ToKey, VowShortener, HostToGuest, ConvertHostCap, MakesKinds, Inv;
  }

  /** A non-vow whose guest is not vow-shaped does not come back vow-shaped either. */
  lemma NoVowComesBack(env: Env, m: Membrane, tag: string, payload: Passable, later: Store)
    requires Inv(m.store) && KindsKept(m.store) && MakesKinds(env)
    requires HostToGuest(env, m, payload).result.Ok?
    requires Inv(later) && KindsKept(later) && Extends(HostToGuest(env, m, payload).membrane.store, later)
    requires !IsVow(Tagged(tag, payload)) && !IsVow(Tagged(tag, HostToGuest(env, m, payload).result.value))
    requires GuestToHost(later, HostToGuest(env, m, payload).result.value).Ok?
    requires Same(payload, GuestToHost(later, HostToGuest(env, m, payload).result.value).value)
    ensures !IsVow(Tagged(tag, GuestToHost(later, HostToGuest(env, m, payload).result.value).value))
  {
    var gp := HostToGuest(env, m, payload).result.value;
    var kp := GuestToHost(later, gp).value;
    if IsVow(Tagged(tag, kp)) {
      var v := VowShortener(Tagged(tag, kp)).value;
      assert kp.CopyRecord? && FieldOf(kp.names, kp.values, "vowV0") == Some(v) && v.Remotable?;
      RecordSame(payload, kp);
      var j := FieldIndex(kp.names, kp.values, "vowV0");
      assert Same(payload.values[j], v);
      RemotableComesFromCapability(payload.values[j], v);
      ElementPair(env, m, payload.values, later, j);
      BackElement(later, gp.values, j);
      FieldAt(kp.names, gp.values, "vowV0", j);
    }
  }

  lemma RecordSame(h: Passable, k: Passable)
    requires k.CopyRecord? && Same(h, k)
    ensures h.CopyRecord? && h.names == k.names && SameAll(h.values, k.values)
  {
  }

  lemma RemotableComesFromCapability(h: Passable, k: Passable)
    requires Same(h, k) && k.Remotable?
    ensures IsCapability(h) && ToKey(h) == k
  {
  }

  /** Where FieldOf finds its value. */
  lemma {:induction false} FieldIndex(names: seq<string>, values: seq<Passable>, name: string) returns (j: nat)
    requires FieldOf(names, values, name).Some?
    ensures j < |names| && j < |values| && names[j] == name && values[j] == FieldOf(names, values, name).value
    ensures forall i :: 0 <= i < j ==> names[i] != name
    decreases |names|
  {
    if names[0] == name {
      j := 0;
    } else {
      var k := FieldIndex(names[1..], values[1..], name);
      j := k + 1;
    }
  }

  lemma {:induction false} FieldAt(names: seq<string>, values: seq<Passable>, name: string, j: nat)
    requires j < |names| && j < |values| && names[j] == name
    requires forall i :: 0 <= i < j ==> names[i] != name
    ensures FieldOf(names, values, name) == Some(values[j])
    decreases |names|
  {
    if j > 0 { FieldAt(names[1..], values[1..], name, j - 1); }
  }

  lemma {:induction false} BackElement(b: Store, gs: seq<Passable>, j: nat)
    requires GuestToHostAll(b, gs).Ok? && j < |gs|
    ensures |GuestToHostAll(b, gs).value| == |gs|
    ensures GuestToHost(b, gs[j]) == Ok(GuestToHostAll(b, gs).value[j])
    decreases |gs|
  {
    hide GuestToHost;
    if j > 0 { BackElement(b, gs[1..], j - 1); }
    else if |gs| > 1 { BackElement(b, gs[1..], 0); }
  }

  /** A capability inside a converted sequence has its pair in every later store. */
  lemma {:induction false} ElementPair(env: Env, m: Membrane, hs: seq<Passable>, later: Store, j: nat)
    requires Inv(m.store) && KindsKept(m.store) && MakesKinds(env)
    requires HostToGuestAll(env, m, hs).result.Ok? && j < |hs| && IsCapability(hs[j])
    requires Inv(later) && Extends(HostToGuestAll(env, m, hs).membrane.store, later)
    ensures |HostToGuestAll(env, m, hs).result.value| == |hs|
    ensures var g := HostToGuestAll(env, m, hs).result.value[j];
            && HasHost(later, hs[j]) && later.h2g[ToKey(hs[j])] == g && (g.Remotable? || g.Promise?)
            && g in later.g2h && GuestToHost(later, g) == Ok(later.g2h[g])
    decreases |hs|
  {
    hide Inv, KindsKept, MakesKinds, Extends, HostToGuest, GuestToHost, IsCapability, ToKey;
    HostToGuestAllLength(env, m, hs);
    var first := HostToGuest(env, m, hs[0]);
    var rest := HostToGuestAll(env, first.membrane, hs[1..]);
    HostToGuestGrows(env, m, hs[0]);
    HostToGuestKindsKept(env, m, hs[0]);
    if j == 0 {
      HostToGuestAllGrows(env, first.membrane, hs[1..]);
      ExtendsTransitive(first.membrane.store, rest.membrane.store, later);
      CapabilityPair(env, m, hs[0], later);
    } else {
      ElementPair(env, first.membrane, hs[1..], later, j - 1);
    }
  }

  lemma {:induction false} HostToGuestAllLength(env: Env, m: Membrane, hs: seq<Passable>)
    requires HostToGuestAll(env, m, hs).result.Ok?
    ensures |HostToGuestAll(env, m, hs).result.value| == |hs|
    decreases |hs|
  {
    hide HostToGuest;
    if hs != [] { HostToGuestAllLength(env, HostToGuest(env, m, hs[0]).membrane, hs[1..]); }
  }

  /** A tagged value taken for a vow is looked up as a capability, so no tagged value comes back. */
  lemma FakeVowComesBackWrong(b: Store, h: Passable, g: Passable)
    requires KindsKept(b) && h.Tagged? && !IsVow(h) && IsVow(g)
    ensures GuestToHost(b, g).Ok? ==> !Same(h, GuestToHost(b, g).value)
  {
  }

  lemma {:induction false} RoundTripByKeyAll(env: Env, m: Membrane, hs: seq<Passable>, later: Store)
    requires Inv(m.store) && KindsKept(m.store) && MakesKinds(env)
    requires HostToGuestAll(env, m, hs).result.Ok?
    requires Inv(later) && KindsKept(later) && Extends(HostToGuestAll(env, m, hs).membrane.store, later)
    ensures var gs := HostToGuestAll(env, m, hs).result.value;
            && |gs| == |hs|
            && (GuestToHostAll(later, gs).Ok? && SameAll(hs, GuestToHostAll(later, gs).value)
                <==> forall i :: 0 <= i < |hs| ==> NoFakeVow(hs[i], gs[i]))
    decreases hs, 0
  {
    hide Inv, KindsKept, MakesKinds, Extends, HostToGuest, GuestToHost, Same, NoFakeVow;
    if hs != [] {
      var first := HostToGuest(env, m, hs[0]);
      var rest := HostToGuestAll(env, first.membrane, hs[1..]);
      HostToGuestGrows(env, m, hs[0]);
      HostToGuestKindsKept(env, m, hs[0]);
      HostToGuestAllGrows(env, first.membrane, hs[1..]);
      ExtendsTransitive(first.membrane.store, rest.membrane.store, later);
      RoundTripByKey(env, m, hs[0], later);
      RoundTripByKeyAll(env, first.membrane, hs[1..], later);
      var gs := [first.result.value] + rest.result.value;
      assert gs[1..] == rest.result.value;
      NoFakeVowCons(hs, gs);
      if GuestToHost(later, gs[0]).Ok? && GuestToHostAll(later, gs[1..]).Ok? {
        SameAllCons(hs, [GuestToHost(later, gs[0]).value] + GuestToHostAll(later, gs[1..]).value);
      }
    }
  }

  lemma SameAllCons(hs: seq<Passable>, ks: seq<Passable>)
    requires hs != [] && ks != []
    ensures SameAll(hs, ks) <==> Same(hs[0], ks[0]) && SameAll(hs[1..], ks[1..])
  {
    hide Same;
    if Same(hs[0], ks[0]) && SameAll(hs[1..], ks[1..]) {
      forall i | 0 <= i < |hs| ensures Same(hs[i], ks[i]) {
        if i > 0 { assert Same(hs[1..][i - 1], ks[1..][i - 1]); }
      }
    }
    if SameAll(hs, ks) {
      forall i | 0 <= i < |hs[1..]| ensures Same(hs[1..][i], ks[1..][i]) {
        assert Same(hs[i + 1], ks[i + 1]);
      }
    }
  }

  // --------------------------------------- the same condition, before the call

  /** Of each host key that is bound, whether its guest is a remotable. */
  ghost function KindsOf(b: Store): map<Passable, bool> {
    map hk | hk in b.h2g :: b.h2g[hk].Remotable?
  }

  /** The kinds once h has been converted: the first value met under a key decides. */
  ghost function KindsAfter(kinds: map<Passable, bool>, h: Passable): map<Passable, bool>
    decreases h, 1
  {
    if IsCapability(h) then (if ToKey(h) in kinds then kinds else kinds[ToKey(h) := h.Remotable?])
    else
      match h
      case CopyArray(elements) => KindsAfterAll(kinds, elements)
      case CopyRecord(_, values) => KindsAfterAll(kinds, values)
      case Tagged(_, payload) => KindsAfter(kinds, payload)
      case _ => kinds
  }

  ghost function KindsAfterAll(kinds: map<Passable, bool>, hs: seq<Passable>): map<Passable, bool>
    decreases hs, 0
  {
    if hs == [] then kinds else KindsAfterAll(KindsAfter(kinds, hs[0]), hs[1..])
  }

  /** This tagged value would get a remotable in the place where a vow has its shortener. */
  ghost predicate TurnsIntoVow(kinds: map<Passable, bool>, tag: string, payload: Passable) {
    && tag == "Vow" && payload.CopyRecord?
    && var v := FieldOf(payload.names, payload.values, "vowV0");
       && v.Some? && IsCapability(v.value)
       && ToKey(v.value) in KindsAfter(kinds, payload) && KindsAfter(kinds, payload)[ToKey(v.value)]
  }

  /**
   * What a caller can check of h and the bijection before converting: no value
   * tagged 'Vow', not itself a vow, holds in its vowV0 a vow whose shortener is
   * bound to a remotable already, or is met on its own before it.
   */
  ghost predicate NoVowToBe(kinds: map<Passable, bool>, h: Passable)
    decreases h, 1
  {
    match h
    case CopyArray(elements) => NoVowToBeAll(kinds, elements)
    case CopyRecord(_, values) => NoVowToBeAll(kinds, values)
    case Tagged(tag, payload) => IsVow(h) || (!TurnsIntoVow(kinds, tag, payload) && NoVowToBe(kinds, payload))
    case _ => true
  }

  ghost predicate NoVowToBeAll(kinds: map<Passable, bool>, hs: seq<Passable>)
    decreases hs, 0
  {
    hs == [] || (NoVowToBe(kinds, hs[0]) && NoVowToBeAll(KindsAfter(kinds, hs[0]), hs[1..]))
  }

  lemma CapabilityKinds(env: Env, m: Membrane, h: Passable)
    requires Inv(m.store) && MakesKinds(env) && IsCapability(h) && ConvertHostCap(env, m, h).result.Ok?
    ensures KindsOf(ConvertHostCap(env, m, h).membrane.store) == KindsAfter(KindsOf(m.store), h)
  {
    hide ToKey, VowShortener, Inv;
    if !HasHost(m.store, h) {
      var g := if h.Remotable? then env.makeGuestForHostRemotable(h, m.made) else env.makeGuestForHostVow(h, m.made);
      UnwrapInitResult(m.store, g, env.unwrap(h, g), h);
      assert env.unwrap(h, g).Remotable? <==> h.Remotable?;
    }
  }

  lemma {:induction false} HostToGuestKinds(env: Env, m: Membrane, h: Passable)
    requires Inv(m.store) && MakesKinds(env) && HostToGuest(env, m, h).result.Ok?
    ensures KindsOf(HostToGuest(env, m, h).membrane.store) == KindsAfter(KindsOf(m.store), h)
    decreases h, 1
  {
    assert IsCapability(h) ==> HostToGuest(env, m, h) == ConvertHostCap(env, m, h);
    hide Inv, MakesKinds, KindsOf, ConvertHostCap, VowShortener, ToKey;
    if IsCapability(h) {
      CapabilityKinds(env, m, h);
    } else {
      match h
      case CopyArray(elements) => HostToGuestAllKinds(env, m, elements);
      case CopyRecord(_, values) => HostToGuestAllKinds(env, m, values);
      case Tagged(_, payload) => HostToGuestKinds(env, m, payload);
      case _ =>
    }
  }

  lemma {:induction false} HostToGuestAllKinds(env: Env, m: Membrane, hs: seq<Passable>)
    requires Inv(m.store) && MakesKinds(env) && HostToGuestAll(env, m, hs).result.Ok?
    ensures KindsOf(HostToGuestAll(env, m, hs).membrane.store) == KindsAfterAll(KindsOf(m.store), hs)
    decreases hs, 0
  {
    hide Inv, MakesKinds, KindsOf, HostToGuest, KindsAfter;
    if hs != [] {
      HostToGuestKinds(env, m, hs[0]);
      HostToGuestGrows(env, m, hs[0]);
      HostToGuestAllKinds(env, HostToGuest(env, m, hs[0]).membrane, hs[1..]);
    }
  }

  /** Only capabilities become remotables. */
  lemma RemotableGuest(env: Env, m: Membrane, h: Passable)
    requires HostToGuest(env, m, h).result.Ok?
    ensures HostToGuest(env, m, h).result.value.Remotable? ==> IsCapability(h)
  {
  }

  lemma {:induction false} RemotableGuestAt(env: Env, m: Membrane, hs: seq<Passable>, j: nat)
    requires HostToGuestAll(env, m, hs).result.Ok? && j < |hs|
    ensures |HostToGuestAll(env, m, hs).result.value| == |hs|
    ensures HostToGuestAll(env, m, hs).result.value[j].Remotable? ==> IsCapability(hs[j])
    decreases |hs|
  {
    hide HostToGuest, IsCapability;
    HostToGuestAllLength(env, m, hs);
    if j == 0 {
      RemotableGuest(env, m, hs[0]);
    } else {
      RemotableGuestAt(env, HostToGuest(env, m, hs[0]).membrane, hs[1..], j - 1);
    }
  }

  /** A tagged value that is no vow has a vow-shaped guest exactly when TurnsIntoVow says so beforehand. */
  lemma TurnsIntoVowIff(env: Env, m: Membrane, tag: string, payload: Passable)
    requires Inv(m.store) && KindsKept(m.store) && MakesKinds(env)
    requires !IsVow(Tagged(tag, payload)) && HostToGuest(env, m, payload).result.Ok?
    ensures IsVow(Tagged(tag, HostToGuest(env, m, payload).result.value)) <==> TurnsIntoVow(KindsOf(m.store), tag, payload)
  {
    var gp := HostToGuest(env, m, payload).result.value;
    if payload.CopyRecord? {
      RecordTurnsIntoVow(env, m, tag, payload.names, payload.values);
    } else {
      hide Inv, KindsKept, MakesKinds, KindsAfter;
      if IsCapability(payload) { NoRecordGuest(env, m, payload); }
    }
  }

  lemma NoRecordGuest(env: Env, m: Membrane, h: Passable)
    requires Inv(m.store) && KindsKept(m.store) && MakesKinds(env)
    requires IsCapability(h) && HostToGuest(env, m, h).result.Ok?
    ensures !HostToGuest(env, m, h).result.value.CopyRecord?
  {
    HostToGuestGrows(env, m, h);
    ExtendsReflexive(HostToGuest(env, m, h).membrane.store);
    CapabilityPair(env, m, h, HostToGuest(env, m, h).membrane.store);
  }

  lemma RecordTurnsIntoVow(env: Env, m: Membrane, tag: string, names: seq<string>, values: seq<Passable>)
    requires Inv(m.store) && KindsKept(m.store) && MakesKinds(env)
    requires !IsVow(Tagged(tag, CopyRecord(names, values))) && HostToGuestAll(env, m, values).result.Ok?
    ensures IsVow(Tagged(tag, CopyRecord(names, HostToGuestAll(env, m, values).result.value)))
            <==> TurnsIntoVow(KindsOf(m.store), tag, CopyRecord(names, values))
  {
    HostToGuestAllLength(env, m, values);
    var gs := HostToGuestAll(env, m, values).result.value;
    VowShape(tag, names, values);
    VowShape(tag, names, gs);
    hide Inv, KindsKept, MakesKinds, HostToGuestAll, HostToGuest, KindsAfterAll, IsVow, VowShortener, ToKey, FieldOf, KindsOf;
    assert KindsAfter(KindsOf(m.store), CopyRecord(names, values)) == KindsAfterAll(KindsOf(m.store), values) by {
      NoCapabilityRecord(names, values);
    }
    hide KindsAfter, IsCapability;
    var hf, gf := FieldOf(names, values, "vowV0"), FieldOf(names, gs, "vowV0");
    if hf.Some? {
      var j := FieldIndex(names, values, "vowV0");
      FieldAt(names, gs, "vowV0", j);
      ElementKind(env, m, values, j);
    } else if gf.Some? {
      var j := FieldIndex(names, gs, "vowV0");
      FieldAt(names, values, "vowV0", j);
    }
  }

  /** The guest of an element is a remotable iff the element is a capability of a remotable's kind by then. */
  lemma ElementKind(env: Env, m: Membrane, hs: seq<Passable>, j: nat)
    requires Inv(m.store) && KindsKept(m.store) && MakesKinds(env)
    requires HostToGuestAll(env, m, hs).result.Ok? && j < |hs|
    ensures |HostToGuestAll(env, m, hs).result.value| == |hs|
    ensures var kinds := KindsAfterAll(KindsOf(m.store), hs);
            HostToGuestAll(env, m, hs).result.value[j].Remotable?
            <==> IsCapability(hs[j]) && ToKey(hs[j]) in kinds && kinds[ToKey(hs[j])]
  {
    HostToGuestAllKinds(env, m, hs);
    HostToGuestAllGrows(env, m, hs);
    RemotableGuestAt(env, m, hs, j);
    var after := HostToGuestAll(env, m, hs).membrane.store;
    ExtendsReflexive(after);
    hide Inv, KindsKept, MakesKinds, Extends, HostToGuestAll, HostToGuest, KindsAfterAll, ToKey, IsCapability;
    if IsCapability(hs[j]) { ElementPair(env, m, hs, after, j); }
  }

  lemma VowShape(tag: string, names: seq<string>, values: seq<Passable>)
    ensures IsVow(Tagged(tag, CopyRecord(names, values)))
            <==> tag == "Vow" && FieldOf(names, values, "vowV0").Some? && FieldOf(names, values, "vowV0").value.Remotable?
    ensures forall r: Passable :: r.Remotable? ==> IsCapability(r)
  {
  }

  lemma NoCapabilityRecord(names: seq<string>, values: seq<Passable>)
    ensures !IsCapability(CopyRecord(names, values))
  {
  }

  lemma {:induction false} NoVowToBeIff(env: Env, m: Membrane, h: Passable)
    requires Inv(m.store) && KindsKept(m.store) && MakesKinds(env) && HostToGuest(env, m, h).result.Ok?
    ensures NoFakeVow(h, HostToGuest(env, m, h).result.value) <==> NoVowToBe(KindsOf(m.store), h)
    decreases h, 1
  {
    hide Inv, KindsKept, MakesKinds, KindsOf, ConvertHostCap, VowShortener, IsVow, TurnsIntoVow, KindsAfter, NoFakeVow;
    match h
    case CopyArray(elements) =>
      NoVowToBeAllIff(env, m, elements);
      NoFakeVowArray(elements, HostToGuestAll(env, m, elements).result.value);
    case CopyRecord(names, values) =>
      NoVowToBeAllIff(env, m, values);
      NoFakeVowRecord(names, values, HostToGuestAll(env, m, values).result.value);
    case Tagged(tag, payload) =>
      if !IsVow(h) {
        NoVowToBeIff(env, m, payload);
        TurnsIntoVowIff(env, m, tag, payload);
      }
      NoFakeVowTagged(tag, payload, HostToGuest(env, m, h).result.value);
    case _ => NoFakeVowLeaf(h);
  }

  lemma NoFakeVowArray(hs: seq<Passable>, gs: seq<Passable>)
    ensures NoFakeVow(CopyArray(hs), CopyArray(gs)) <==> |gs| == |hs| && forall i :: 0 <= i < |hs| ==> NoFakeVow(hs[i], gs[i])
  {
  }

  lemma NoFakeVowRecord(names: seq<string>, hs: seq<Passable>, gs: seq<Passable>)
    ensures NoFakeVow(CopyRecord(names, hs), CopyRecord(names, gs))
            <==> |gs| == |hs| && forall i :: 0 <= i < |hs| ==> NoFakeVow(hs[i], gs[i])
  {
  }

  lemma NoFakeVowTagged(tag: string, payload: Passable, g: Passable)
    ensures NoFakeVow(Tagged(tag, payload), g) <==> IsVow(Tagged(tag, payload)) || (g.Tagged? && !IsVow(g) && NoFakeVow(payload, g.payload))
  {
  }

  lemma NoFakeVowLeaf(h: Passable)
    requires !h.CopyArray? && !h.CopyRecord? && !h.Tagged?
    ensures forall g :: NoFakeVow(h, g)
  {
  }

  lemma {:induction false} NoVowToBeAllIff(env: Env, m: Membrane, hs: seq<Passable>)
    requires Inv(m.store) && KindsKept(m.store) && MakesKinds(env) && HostToGuestAll(env, m, hs).result.Ok?
    ensures var gs := HostToGuestAll(env, m, hs).result.value;
            && |gs| == |hs|
            && ((forall i :: 0 <= i < |hs| ==> NoFakeVow(hs[i], gs[i])) <==> NoVowToBeAll(KindsOf(m.store), hs))
    decreases hs, 0
  {
    hide Inv, KindsKept, MakesKinds, KindsOf, HostToGuest, KindsAfter, NoFakeVow, NoVowToBe;
    HostToGuestAllLength(env, m, hs);
    if hs != [] {
      var first := HostToGuest(env, m, hs[0]);
      var rest := HostToGuestAll(env, first.membrane, hs[1..]);
      HostToGuestGrows(env, m, hs[0]);
      HostToGuestKindsKept(env, m, hs[0]);
      HostToGuestKinds(env, m, hs[0]);
      NoVowToBeIff(env, m, hs[0]);
      NoVowToBeAllIff(env, first.membrane, hs[1..]);
      NoFakeVowCons(hs, [first.result.value] + rest.result.value);
      assert ([first.result.value] + rest.result.value)[1..] == rest.result.value;
    }
  }

  lemma NoFakeVowCons(hs: seq<Passable>, gs: seq<Passable>)
    requires hs != [] && |gs| == |hs|
    ensures (forall i :: 0 <= i < |hs| ==> NoFakeVow(hs[i], gs[i]))
            <==> NoFakeVow(hs[0], gs[0]) && (forall i :: 0 <= i < |hs[1..]| ==> NoFakeVow(hs[1..][i], gs[1..][i]))
  {
    hide NoFakeVow;
    if NoFakeVow(hs[0], gs[0]) && (forall i :: 0 <= i < |hs[1..]| ==> NoFakeVow(hs[1..][i], gs[1..][i])) {
      forall i | 0 <= i < |hs| ensures NoFakeVow(hs[i], gs[i]) {
        if i > 0 { assert NoFakeVow(hs[1..][i - 1], gs[1..][i - 1]); }
      }
    }
    if forall i :: 0 <= i < |hs| ==> NoFakeVow(hs[i], gs[i]) {
      forall i | 0 <= i < |hs[1..]| ensures NoFakeVow(hs[1..][i], gs[1..][i]) {
        assert NoFakeVow(hs[i + 1], gs[i + 1]);
      }
    }
  }

  /** The same, in terms of what a caller can check before converting. */
  lemma RoundTripByKeyIff(env: Env, m: Membrane, h: Passable, later: Store)
    requires Inv(m.store) && KindsKept(m.store) && MakesKinds(env)
    requires HostToGuest(env, m, h).result.Ok?
    requires Inv(later) && KindsKept(later) && Extends(HostToGuest(env, m, h).membrane.store, later)
    ensures var g := HostToGuest(env, m, h).result.value;
            GuestToHost(later, g).Ok? && Same(h, GuestToHost(later, g).value) <==> NoVowToBe(KindsOf(m.store), h)
  {
    RoundTripByKey(env, m, h, later);
    hide Inv, KindsKept, MakesKinds, Extends, HostToGuest, GuestToHost, Same, NoFakeVow, NoVowToBe, KindsOf;
    NoVowToBeIff(env, m, h);
  }

  // --------------------------------------- the same host remotables, exactly

  /** The same structure, with the very same host remotables and promises, and vows the same up to their shortener. */
  ghost predicate SameExactly(h: Passable, k: Passable)
    decreases h
  {
    if IsVow(h) then ToKey(k) == ToKey(h) && IsCapability(k)
    else
      match h
      case Remotable(_) => k == h
      case Promise(_) => k == h
      case Primitive(_) => k == h
      case CopyArray(elements) => k.CopyArray? && SameExactlyAll(elements, k.elements)
      case CopyRecord(names, values) => k.CopyRecord? && k.names == names && SameExactlyAll(values, k.values)
      case Tagged(tag, payload) => k.Tagged? && !IsVow(k) && k.tag == tag && SameExactly(payload, k.payload)
      case ErrorOf(name, message) => SameError(name, message, k)
      case NotPassable(_) => false
  }

  ghost predicate SameExactlyAll(hs: seq<Passable>, ks: seq<Passable>)
    decreases hs
  {
    |hs| == |ks| && forall i :: 0 <= i < |hs| ==> SameExactly(hs[i], ks[i])
  }

  /**
   * What a caller can check before converting: no remotable in h is the shortener
   * of a vow that is bound already, or is met before it.
   */
  ghost predicate NoVowFirst(kinds: map<Passable, bool>, h: Passable)
    decreases h, 1
  {
    match h
    case Remotable(_) => h !in kinds || kinds[h]
    case CopyArray(elements) => NoVowFirstAll(kinds, elements)
    case CopyRecord(_, values) => NoVowFirstAll(kinds, values)
    case Tagged(_, payload) => IsVow(h) || NoVowFirst(kinds, payload)
    case _ => true
  }

  ghost predicate NoVowFirstAll(kinds: map<Passable, bool>, hs: seq<Passable>)
    decreases hs, 0
  {
    hs == [] || (NoVowFirst(kinds, hs[0]) && NoVowFirstAll(KindsAfter(kinds, hs[0]), hs[1..]))
  }

  lemma {:induction false} ExactlyMeansSame(h: Passable, k: Passable)
    requires SameExactly(h, k)
    ensures Same(h, k)
    decreases h
  {
    match h
    case CopyArray(elements) =>
      forall i | 0 <= i < |elements| ensures Same(elements[i], k.elements[i]) { ExactlyMeansSame(elements[i], k.elements[i]); }
    case CopyRecord(_, values) =>
      forall i | 0 <= i < |values| ensures Same(values[i], k.values[i]) { ExactlyMeansSame(values[i], k.values[i]); }
    case Tagged(_, payload) => if !IsVow(h) { ExactlyMeansSame(payload, k.payload); }
    case _ =>
  }

  lemma CapabilityExactIff(env: Env, m: Membrane, h: Passable, later: Store)
    requires Inv(m.store) && KindsKept(m.store) && MakesKinds(env) && IsCapability(h)
    requires HostToGuest(env, m, h).result.Ok?
    requires Inv(later) && KindsKept(later) && Extends(HostToGuest(env, m, h).membrane.store, later)
    ensures var back := GuestToHost(later, HostToGuest(env, m, h).result.value);
            back.Ok? && (SameExactly(h, back.value) <==> NoVowFirst(KindsOf(m.store), h))
  {
    CapabilityRoundTrip(env, m, h, later);
    CapabilityComesBack(env, m, h, later);
    var back := GuestToHost(later, HostToGuest(env, m, h).result.value);
    ExactCapability(h, back.value);
    assert IsCapability(back.value);
    hide Inv, KindsKept, MakesKinds, Extends, HostToGuest, GuestToHost, ToKey, IsVow, VowShortener, KindsOf, Same, SameExactly, NoVowFirst,
      LookupHost, HasHost, IsCapability;
    CapabilityFirst(KindsOf(m.store), h);
    if !IsVow(h) {
      PlainCapability(h);
      FirstUnderKey(m.store, h);
    }
  }

  lemma PlainCapability(h: Passable)
    requires IsCapability(h) && !IsVow(h)
    ensures h.Remotable? || h.Promise?
  {
  }

  lemma ExactCapability(h: Passable, k: Passable)
    requires IsCapability(h)
    ensures SameExactly(h, k) <==> if IsVow(h) then ToKey(k) == ToKey(h) && IsCapability(k) else k == h
  {
  }

  lemma CapabilityFirst(kinds: map<Passable, bool>, h: Passable)
    requires IsCapability(h)
    ensures NoVowFirst(kinds, h) <==> IsVow(h) || h.Promise? || h !in kinds || kinds[h]
  {
  }

  /** Whether a capability is, or would be, the first entered under its key. */
  lemma FirstUnderKey(b: Store, h: Passable)
    requires Inv(b) && KindsKept(b) && (h.Remotable? || h.Promise?)
    ensures var first := !HasHost(b, h) || LookupHost(b, b.h2g[ToKey(h)]) == Ok(h);
            first <==> h.Promise? || h !in KindsOf(b) || KindsOf(b)[h]
  {
    KeyOfPlain();
    if HasHost(b, h) {
      var g := b.h2g[h];
      assert ToKey(g) == g && ToKey(b.g2h[g]) == h;
      assert b.g2h[g].Remotable? || b.g2h[g].Promise? ==> b.g2h[g] == h;
      assert h.Promise? ==> b.g2h[g] == h by { KeyOfVow(b.g2h[g]); }
    }
  }

  lemma KeyOfVow(p: Passable)
    ensures IsVow(p) ==> ToKey(p).Remotable?
  {
  }

  /** What came back the same up to keys came back exactly the same iff no vow took the place of a remotable. */
  lemma {:induction false} ExactIff(env: Env, m: Membrane, h: Passable, later: Store)
    requires Inv(m.store) && KindsKept(m.store) && MakesKinds(env)
    requires HostToGuest(env, m, h).result.Ok?
    requires Inv(later) && KindsKept(later) && Extends(HostToGuest(env, m, h).membrane.store, later)
    requires var back := GuestToHost(later, HostToGuest(env, m, h).result.value); back.Ok? && Same(h, back.value)
    ensures SameExactly(h, GuestToHost(later, HostToGuest(env, m, h).result.value).value) <==> NoVowFirst(KindsOf(m.store), h)
    decreases h, 1
  {
    var g := HostToGuest(env, m, h).result.value;
    if IsCapability(h) {
      CapabilityExactIff(env, m, h, later);
    } else {
      hide Inv, KindsKept, MakesKinds, Extends, VowShortener, IsVow, ToKey, KindsOf, KindsAfter;
      match h
      case CopyArray(elements) => ExactAllIff(env, m, elements, later);
      case CopyRecord(_, values) => ExactAllIff(env, m, values, later);
      case Tagged(_, payload) =>
        assert !IsVow(h);
        if IsVow(g) { FakeVowComesBackWrong(later, h, g); }
        else { ExactIff(env, m, payload, later); }
      case _ =>
    }
  }

  lemma {:induction false} ExactAllIff(env: Env, m: Membrane, hs: seq<Passable>, later: Store)
    requires Inv(m.store) && KindsKept(m.store) && MakesKinds(env)
    requires HostToGuestAll(env, m, hs).result.Ok?
    requires Inv(later) && KindsKept(later) && Extends(HostToGuestAll(env, m, hs).membrane.store, later)
    requires var back := GuestToHostAll(later, HostToGuestAll(env, m, hs).result.value); back.Ok? && SameAll(hs, back.value)
    ensures SameExactlyAll(hs, GuestToHostAll(later, HostToGuestAll(env, m, hs).result.value).value)
            <==> NoVowFirstAll(KindsOf(m.store), hs)
    decreases hs, 0
  {
    hide Inv, KindsKept, MakesKinds, Extends, HostToGuest, GuestToHost, Same, SameExactly, NoVowFirst, KindsOf, KindsAfter;
    if hs != [] {
      var first := HostToGuest(env, m, hs[0]);
      var rest := HostToGuestAll(env, first.membrane, hs[1..]);
      HostToGuestGrows(env, m, hs[0]);
      HostToGuestKindsKept(env, m, hs[0]);
      HostToGuestKinds(env, m, hs[0]);
      HostToGuestAllGrows(env, first.membrane, hs[1..]);
      ExtendsTransitive(first.membrane.store, rest.membrane.store, later);
      var gs := [first.result.value] + rest.result.value;
      assert gs[0] == first.result.value && gs[1..] == rest.result.value;
      var ks := [GuestToHost(later, gs[0]).value] + GuestToHostAll(later, gs[1..]).value;
      assert ks[0] == GuestToHost(later, gs[0]).value && ks[1..] == GuestToHostAll(later, gs[1..]).value;
      SameAllCons(hs, ks);
      SameExactlyAllCons(hs, ks);
      ExactIff(env, m, hs[0], later);
      ExactAllIff(env, first.membrane, hs[1..], later);
    }
  }

  lemma SameExactlyAllCons(hs: seq<Passable>, ks: seq<Passable>)
    requires hs != [] && ks != []
    ensures SameExactlyAll(hs, ks) <==> SameExactly(hs[0], ks[0]) && SameExactlyAll(hs[1..], ks[1..])
  {
    hide SameExactly;
    if SameExactly(hs[0], ks[0]) && SameExactlyAll(hs[1..], ks[1..]) {
      forall i | 0 <= i < |hs| ensures SameExactly(hs[i], ks[i]) {
        if i > 0 { assert SameExactly(hs[1..][i - 1], ks[1..][i - 1]); }
      }
    }
    if SameExactlyAll(hs, ks) {
      forall i | 0 <= i < |hs[1..]| ensures SameExactly(hs[1..][i], ks[1..][i]) {
        assert SameExactly(hs[i + 1], ks[i + 1]);
      }
    }
  }

  /**
   * The membrane round trip, exactly, in terms of what a caller can check before
   * converting: the same structure, the same host remotables, vows up to their
   * shortener, and errors with the same message and known name.
   */
  lemma RoundTripIff(env: Env, m: Membrane, h: Passable, later: Store)
    requires Inv(m.store) && KindsKept(m.store) && MakesKinds(env)
    requires HostToGuest(env, m, h).result.Ok?
    requires Inv(later) && KindsKept(later) && Extends(HostToGuest(env, m, h).membrane.store, later)
    ensures var back := GuestToHost(later, HostToGuest(env, m, h).result.value);
            back.Ok? && SameExactly(h, back.value)
            <==> NoVowToBe(KindsOf(m.store), h) && NoVowFirst(KindsOf(m.store), h)
  {
    RoundTripByKeyIff(env, m, h, later);
    var back := GuestToHost(later, HostToGuest(env, m, h).result.value);
    if back.Ok? {
      if SameExactly(h, back.value) { ExactlyMeansSame(h, back.value); }
      if Same(h, back.value) { ExactIff(env, m, h, later); }
    }
    hide Inv, KindsKept, MakesKinds, Extends, HostToGuest, GuestToHost, Same, SameExactly, NoVowToBe, NoVowFirst, KindsOf;
  }

  /** The tag 'Vow' is used for vows only. */
  ghost predicate VowTagReserved(h: Passable)
    decreases h
  {
    match h
    case CopyArray(elements) => forall i :: 0 <= i < |elements| ==> VowTagReserved(elements[i])
    case CopyRecord(_, values) => forall i :: 0 <= i < |values| ==> VowTagReserved(values[i])
    case Tagged(tag, payload) => IsVow(h) || (tag != "Vow" && VowTagReserved(payload))
    case _ => true
  }

  /**
   * Where the tag 'Vow' is used for vows only, the round trip up to keys always
   * holds, and the exact one unless a vow comes before its bare shortener.
   */
  lemma RoundTripWhenReserved(env: Env, m: Membrane, h: Passable, later: Store)
    requires Inv(m.store) && KindsKept(m.store) && MakesKinds(env) && VowTagReserved(h)
    requires HostToGuest(env, m, h).result.Ok?
    requires Inv(later) && KindsKept(later) && Extends(HostToGuest(env, m, h).membrane.store, later)
    ensures var g := HostToGuest(env, m, h).result.value;
            && GuestToHost(later, g).Ok? && Same(h, GuestToHost(later, g).value)
            && (SameExactly(h, GuestToHost(later, g).value) <==> NoVowFirst(KindsOf(m.store), h))
  {
    RoundTripByKey(env, m, h, later);
    ReservedMeansNoFake(env, m, h);
    ExactIff(env, m, h, later);
  }

  lemma {:induction false} ReservedMeansNoFake(env: Env, m: Membrane, h: Passable)
    requires VowTagReserved(h) && HostToGuest(env, m, h).result.Ok?
    ensures NoFakeVow(h, HostToGuest(env, m, h).result.value)
    decreases h, 1
  {
    hide ConvertHostCap;
    match h
    case CopyArray(elements) => ReservedMeansNoFakeAll(env, m, elements);
    case CopyRecord(_, values) => ReservedMeansNoFakeAll(env, m, values);
    case Tagged(_, payload) => if !IsVow(h) { ReservedMeansNoFake(env, m, payload); }
    case _ =>
  }

  lemma {:induction false} ReservedMeansNoFakeAll(env: Env, m: Membrane, hs: seq<Passable>)
    requires HostToGuestAll(env, m, hs).result.Ok?
    requires forall i :: 0 <= i < |hs| ==> VowTagReserved(hs[i])
    ensures |HostToGuestAll(env, m, hs).result.value| == |hs|
    ensures forall i :: 0 <= i < |hs| ==> NoFakeVow(hs[i], HostToGuestAll(env, m, hs).result.value[i])
    decreases hs, 0
  {
    hide HostToGuest, NoFakeVow;
    if hs != [] {
      ReservedMeansNoFake(env, m, hs[0]);
      ReservedMeansNoFakeAll(env, HostToGuest(env, m, hs[0]).membrane, hs[1..]);
    }
  }

  // -------------------------------------------------------- when it succeeds

  /** The keys a new guest of h takes up in the store. */
  function GuestKeys(env: Env, h: Passable, n: nat): set<Passable> {
    var g := if h.Remotable? then env.makeGuestForHostRemotable(h, n) else env.makeGuestForHostVow(h, n);
    {ToKey(g), ToKey(env.unwrap(h, g))}
  }

  /** Guests yet to be made are bound nowhere, and no two of them share a key. */
  ghost predicate FreshGuests(env: Env, m: Membrane) {
    && (forall h: Passable, n: nat :: n >= m.made ==> GuestKeys(env, h, n) !! m.store.g2h.Keys)
    && (forall h: Passable, n: nat, h': Passable, n': nat :: m.made <= n < n' ==> GuestKeys(env, h, n) !! GuestKeys(env, h', n'))
    && (forall h: Passable, n: nat :: n >= m.made ==> OneKeyIffUnwrapped(env, h, n))
  }

  ghost predicate OneKeyIffUnwrapped(env: Env, h: Passable, n: nat) {
    var g := if h.Remotable? then env.makeGuestForHostRemotable(h, n) else env.makeGuestForHostVow(h, n);
    env.unwrap(h, g) != g ==> ToKey(env.unwrap(h, g)) != ToKey(g)
  }

  ghost predicate AllPassable(h: Passable)
    decreases h
  {
    match h
    case CopyArray(elements) => forall i :: 0 <= i < |elements| ==> AllPassable(elements[i])
    case CopyRecord(_, values) => forall i :: 0 <= i < |values| ==> AllPassable(values[i])
    case Tagged(_, payload) => IsVow(h) || AllPassable(payload)
    case NotPassable(_) => false
    case _ => true
  }

  lemma ConvertHostCapSucceeds(env: Env, m: Membrane, h: Passable)
    requires Inv(m.store) && FreshGuests(env, m)
    ensures ConvertHostCap(env, m, h).result.Ok? && FreshGuests(env, ConvertHostCap(env, m, h).membrane)
  {
    hide ToKey, IsVow, VowShortener;
    if !HasHost(m.store, h) {
      var g := if h.Remotable? then env.makeGuestForHostRemotable(h, m.made) else env.makeGuestForHostVow(h, m.made);
      var u := env.unwrap(h, g);
      assert ToKey(g) in GuestKeys(env, h, m.made) && ToKey(u) in GuestKeys(env, h, m.made);
      assert OneKeyIffUnwrapped(env, h, m.made);
      UnwrapInitResult(m.store, g, u, h);
      hide Inv, Has, OneKeyIffUnwrapped;
      var c := ConvertHostCap(env, m, h);
      assert c.membrane.store.g2h.Keys <= m.store.g2h.Keys + GuestKeys(env, h, m.made);
    }
  }

  /** With makers that return unbound guests, every passable value converts. */
  lemma {:induction false} HostToGuestSucceeds(env: Env, m: Membrane, specimen: Passable)
    requires Inv(m.store) && FreshGuests(env, m) && AllPassable(specimen)
    ensures HostToGuest(env, m, specimen).result.Ok? && FreshGuests(env, HostToGuest(env, m, specimen).membrane)
    decreases specimen, 1
  {
    hide Inv, FreshGuests, VowShortener, IsVow, ConvertHostCap;
    match specimen
    case CopyArray(elements) => HostToGuestAllSucceeds(env, m, elements);
    case CopyRecord(_, values) => HostToGuestAllSucceeds(env, m, values);
    case Tagged(_, payload) =>
      if IsVow(specimen) { ConvertHostCapSucceeds(env, m, specimen); } else { HostToGuestSucceeds(env, m, payload); }
    case Remotable(_) => ConvertHostCapSucceeds(env, m, specimen);
    case Promise(_) => ConvertHostCapSucceeds(env, m, specimen);
    case _ =>
  }

  lemma {:induction false} HostToGuestAllSucceeds(env: Env, m: Membrane, specimens: seq<Passable>)
    requires Inv(m.store) && FreshGuests(env, m) && forall i :: 0 <= i < |specimens| ==> AllPassable(specimens[i])
    ensures HostToGuestAll(env, m, specimens).result.Ok?
    ensures FreshGuests(env, HostToGuestAll(env, m, specimens).membrane)
    decreases specimens, 0
  {
    hide Inv, FreshGuests, HostToGuest, AllPassable;
    if specimens != [] {
      HostToGuestSucceeds(env, m, specimens[0]);
      HostToGuestGrows(env, m, specimens[0]);
      HostToGuestAllSucceeds(env, HostToGuest(env, m, specimens[0]).membrane, specimens[1..]);
    }
  }

  // ----------------------------------------------- where the round trip breaks

  /** Makers that number their guests, with nothing to unwrap. */
  const PLAIN: Env := Env(
    (h: Passable, n: nat) => Remotable(100 + n),
    (h: Passable, n: nat) => Promise(100 + n),
    (h: Passable, g: Passable) => g)

  function MakeVow(shortener: nat): Passable {
    Tagged("Vow", CopyRecord(["vowV0"], [Remotable(shortener)]))
  }

  /**
   * A value tagged 'Vow' whose vowV0 is itself a vow, converted after that vow's
   * shortener was converted on its own: its guest is vow-shaped, and what comes
   * back is the bare shortener.
   */
  lemma FakeVowExample(r: nat)
    ensures var m := Membrane(EMPTY, 0);
            var first := HostToGuest(PLAIN, m, Remotable(r));
            var h := Tagged("Vow", CopyRecord(["vowV0"], [MakeVow(r)]));
            var c := HostToGuest(PLAIN, first.membrane, h);
            && !IsVow(h) && c.result.Ok? && IsVow(c.result.value)
            && GuestToHost(c.membrane.store, c.result.value) == Ok(Remotable(r))
  {
    var h := Tagged("Vow", CopyRecord(["vowV0"], [MakeVow(r)]));
    var first := HostToGuest(PLAIN, Membrane(EMPTY, 0), Remotable(r));
    assert FieldOf(["vowV0"], [MakeVow(r)], "vowV0") == Some(MakeVow(r));
    assert !IsVow(h) && IsVow(MakeVow(r)) && ToKey(MakeVow(r)) == Remotable(r);
    assert first == Conversion(Membrane(AddPair(EMPTY, Remotable(100), Remotable(r)), 1), Ok(Remotable(100)));
    var m := first.membrane;
    assert HostToGuest(PLAIN, m, MakeVow(r)) == Conversion(m, Ok(Remotable(100)));
    assert HostToGuestAll(PLAIN, m, [MakeVow(r)]) == Conversion(m, Ok([Remotable(100)])) by {
      assert [MakeVow(r)][1..] == [] && HostToGuestAll(PLAIN, m, []) == Conversion(m, Ok([]));
      assert [Remotable(100)] + [] == [Remotable(100)];
    }
    assert HostToGuest(PLAIN, m, h) == Conversion(m, Ok(MakeVow(100)));
  }

  /** A vow and its bare shortener share one key: converted after the vow, the shortener comes back as the vow. */
  lemma BareShortenerExample(r: nat)
    ensures var first := HostToGuest(PLAIN, Membrane(EMPTY, 0), MakeVow(r));
            var c := HostToGuest(PLAIN, first.membrane, Remotable(r));
            && c.result.Ok? && GuestToHost(c.membrane.store, c.result.value) == Ok(MakeVow(r))
  {
  }

  // ---------------------------------------------------------- the convert kit

  class ConvertKit {
    const bijection: BijectionMap
    const env: Env
    var made: nat

    ghost predicate Valid()
      reads this, bijection
    {
      bijection.unwrap == env.unwrap && Inv(bijection.Abs())
    }

    ghost function Abs(): Membrane
      reads this, bijection
    {
      Membrane(bijection.Abs(), made)
    }

    constructor (bijection: BijectionMap, env: Env)
      requires bijection.unwrap == env.unwrap && Inv(bijection.Abs())
      ensures Valid() && this.bijection == bijection && this.env == env && made == 0
    {
      this.bijection, this.env, made := bijection, env, 0;
    }

    method ConvertHostCapability(h: Passable) returns (r: Result<Passable, MembraneError>)
      requires Valid()
      modifies this, bijection
      ensures Valid()
      ensures var c := ConvertHostCap(env, old(Abs()), h); Abs() == c.membrane && r == c.result
    {
      hide Inv, ToKey, IsVow, VowShortener, UnwrapInit, Extends;
      if ToKey(h) in bijection.hostToGuest { return Ok(bijection.hostToGuest[ToKey(h)]); }
      var g := if h.Remotable? then env.makeGuestForHostRemotable(h, made) else env.makeGuestForHostVow(h, made);
      made := made + 1;
      r := bijection.Init(g, h);
    }

    method ConvertToGuest(specimen: Passable) returns (r: Result<Passable, MembraneError>)
      requires Valid()
      modifies this, bijection
      ensures Valid()
      ensures var c := HostToGuest(env, old(Abs()), specimen); Abs() == c.membrane && r == c.result
      decreases specimen, 1
    {
      hide Inv, IsVow, VowShortener, ConvertHostCap;
      match specimen
      case Primitive(_) => r := Ok(specimen);
      case CopyArray(elements) =>
        var converted := ConvertAllToGuest(elements);
        r := if converted.Ok? then Ok(CopyArray(converted.value)) else Err(converted.error);
      case CopyRecord(names, values) =>
        var converted := ConvertAllToGuest(values);
        r := if converted.Ok? then Ok(CopyRecord(names, converted.value)) else Err(converted.error);
      case Tagged(tag, payload) =>
        if IsVow(specimen) {
          r := ConvertHostCapability(specimen);
        } else {
          r := ConvertToGuest(payload);
          r := if r.Ok? then Ok(Tagged(tag, r.value)) else r;
        }
      case ErrorOf(name, message) => r := Ok(ConvertError(name, message));
      case Remotable(_) => r := ConvertHostCapability(specimen);
      case Promise(_) => r := ConvertHostCapability(specimen);
      case NotPassable(_) => r := Err(UnexpectedPassStyle);
    }

    /** specimen.map over elements or property values */
    method ConvertAllToGuest(specimens: seq<Passable>) returns (r: Result<seq<Passable>, MembraneError>)
      requires Valid()
      modifies this, bijection
      ensures Valid()
      ensures var c := HostToGuestAll(env, old(Abs()), specimens); Abs() == c.membrane && r == c.result
      decreases specimens, 0
    {
      hide Inv, HostToGuest;
      var converted: seq<Passable> := [];
      assert specimens[0..] == specimens;
      ghost var all := HostToGuestAll(env, Abs(), specimens);
      assert all.result.Ok? ==> [] + all.result.value == all.result.value;
      for k := 0 to |specimens|
        invariant Valid()
        invariant var rest := HostToGuestAll(env, Abs(), specimens[k..]);
                  && all.membrane == rest.membrane
                  && all.result == (if rest.result.Ok? then Ok(converted + rest.result.value) else rest.result)
      {
        assert specimens[k..][0] == specimens[k] && specimens[k..][1..] == specimens[k + 1..];
        var element := ConvertToGuest(specimens[k]);
        if element.Err? { return Err(element.error); }
        ghost var rest := HostToGuestAll(env, Abs(), specimens[k + 1..]);
        assert rest.result.Ok? ==> converted + ([element.value] + rest.result.value) == (converted + [element.value]) + rest.result.value;
        converted := converted + [element.value];
      }
      assert converted + [] == converted;
      return Ok(converted);
    }
  }
}
