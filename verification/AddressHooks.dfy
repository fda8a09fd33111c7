/**
 * Hooked addresses: golang/cosmos/types/address_hooks.go. An address is its
 * bech32 prefix and its decoded payload.
 */
module AddressHooks {
  import opened Wrappers

  type Byte = b: int | 0 <= b < 256

  datatype Address = Address(prefix: string, payload: seq<Byte>)
  datatype Hooked = Hooked(base: Address, hookData: seq<Byte>)
  datatype HookError = UnsupportedVersion(version: nat) | TooShort | BaseLongerThanPayload | BaseTooLong

  const ADDRESS_HOOK_VERSION: nat := 0
  const BASE_ADDRESS_LENGTH_BYTES: nat := 2
  /** The magic prefix; the low nibble of its last byte holds the version. */
  const MAGIC: seq<Byte> := [0x78, 0xf1]
  const LAST_PREFIX_HIGH_NIBBLE: Byte := 0x70
  /** 1 << (8 * 2 - 1) + 1, where the shift binds tighter. */
  const MAX_BASE: nat := 0x8001

  function BigEndian(bytes: seq<Byte>): nat {
    if bytes == [] then 0 else 256 * BigEndian(bytes[..|bytes| - 1]) + bytes[|bytes| - 1]
  }

  /** The n low-order bytes of b, most significant first. */
  function ToBytes(b: nat, n: nat): (r: seq<Byte>)
    ensures |r| == n
  {
    if n == 0 then [] else ToBytes(b / 256, n - 1) + [b % 256]
  }

  function Pow256(n: nat): nat { if n == 0 then 1 else 256 * Pow256(n - 1) }

  lemma {:induction false} LengthRoundTrip(b: nat, n: nat)
    requires b < Pow256(n)
    ensures BigEndian(ToBytes(b, n)) == b
  {
    if n > 0 {
      LengthRoundTrip(b / 256, n - 1);
      assert ToBytes(b, n)[..n - 1] == ToBytes(b / 256, n - 1);
    }
  }

  lemma {:induction false} BytesRoundTrip(bytes: seq<Byte>)
    ensures ToBytes(BigEndian(bytes), |bytes|) == bytes && BigEndian(bytes) < Pow256(|bytes|)
  {
    if bytes != [] { BytesRoundTrip(bytes[..|bytes| - 1]); }
  }

  predicate IsHooked(payload: seq<Byte>) {
    |payload| > 2 && payload[..2] == MAGIC && payload[2] / 16 * 16 == LAST_PREFIX_HIGH_NIBBLE
  }

  function Split(addr: Address): Result<Hooked, HookError> {
    var payload := addr.payload;
    if !IsHooked(payload) then Ok(Hooked(addr, []))
    else
      var version := payload[2] % 16;
      var bz := payload[3..];
      if version != ADDRESS_HOOK_VERSION then Err(UnsupportedVersion(version))
      else if |bz| < BASE_ADDRESS_LENGTH_BYTES then Err(TooShort)
      else
        var payloadEnd := |bz| - BASE_ADDRESS_LENGTH_BYTES;
        var b := BigEndian(bz[payloadEnd..]);
        if b > payloadEnd then Err(BaseLongerThanPayload)
        else Ok(Hooked(Address(addr.prefix, bz[..b]), bz[b..payloadEnd]))
  }

  function Join(base: Address, hookData: seq<Byte>): Result<Address, HookError> {
    var b := |base.payload|;
    if b > MAX_BASE then Err(BaseTooLong)
    else Ok(Address(base.prefix, MAGIC + [LAST_PREFIX_HIGH_NIBBLE] + base.payload + hookData + ToBytes(b, BASE_ADDRESS_LENGTH_BYTES)))
  }

  // ------------------------------------------------------------- the loops

  /** The decoding loop of SplitHookedAddress over the last bytes of bz. */
  method DecodeLength(bz: seq<Byte>) returns (b: nat)
    requires |bz| >= BASE_ADDRESS_LENGTH_BYTES
    ensures b == BigEndian(bz[|bz| - BASE_ADDRESS_LENGTH_BYTES..])
  {
    b := 0;
    var i := BASE_ADDRESS_LENGTH_BYTES - 1;
    ghost var tail := bz[|bz| - BASE_ADDRESS_LENGTH_BYTES..];
    while i >= 0
      invariant -1 <= i < BASE_ADDRESS_LENGTH_BYTES
      invariant b == BigEndian(tail[..BASE_ADDRESS_LENGTH_BYTES - 1 - i])
      decreases i
    {
      var byteVal := bz[|bz| - 1 - i];
      ghost var done := tail[..BASE_ADDRESS_LENGTH_BYTES - i];
      assert done[..|done| - 1] == tail[..BASE_ADDRESS_LENGTH_BYTES - 1 - i] && done[|done| - 1] == byteVal;
      b := b * 256 + byteVal;
      i := i - 1;
    }
    assert tail[..BASE_ADDRESS_LENGTH_BYTES] == tail;
  }

  function Shift(b: nat, n: nat): nat { if n == 0 then b else Shift(b, n - 1) / 256 }

  lemma {:induction false} ToBytesAt(b: nat, n: nat, i: nat)
    requires i < n
    ensures ToBytes(b, n)[i] == Shift(b, n - 1 - i) % 256
  {
    if i < n - 1 {
      ToBytesAt(b / 256, n - 1, i);
      ShiftOnce(b, n - 2 - i);
    }
  }

  lemma {:induction false} ShiftOnce(b: nat, n: nat)
    ensures Shift(b / 256, n) == Shift(b, n + 1)
  {
    if n > 0 { ShiftOnce(b, n - 1); }
  }

  /** The encoding loop of JoinHookedAddress, which fills baLen from its last byte while shifting b. */
  method EncodeLength(length: nat) returns (baLen: array<Byte>)
    ensures fresh(baLen) && baLen[..] == ToBytes(length, BASE_ADDRESS_LENGTH_BYTES)
  {
    baLen := new Byte[BASE_ADDRESS_LENGTH_BYTES](_ => 0);
    var b := length;
    var i := BASE_ADDRESS_LENGTH_BYTES - 1;
    while i >= 0
      invariant -1 <= i < BASE_ADDRESS_LENGTH_BYTES
      invariant b == Shift(length, BASE_ADDRESS_LENGTH_BYTES - 1 - i)
      invariant forall k :: i < k < BASE_ADDRESS_LENGTH_BYTES ==> baLen[k] == ToBytes(length, BASE_ADDRESS_LENGTH_BYTES)[k]
      decreases i
    {
      ToBytesAt(length, BASE_ADDRESS_LENGTH_BYTES, i);
      baLen[i] := b % 256;
      b := b / 256;
      i := i - 1;
    }
  }

  method SplitHookedAddress(addr: Address) returns (r: Result<Hooked, HookError>)
    ensures r == Split(addr)
  {
    var payload := addr.payload;
    var bz := if |payload| >= 2 && payload[..2] == MAGIC then payload[2..] else payload;
    if |bz| == |payload| || |bz| == 0 || bz[0] / 16 * 16 != LAST_PREFIX_HIGH_NIBBLE {
      return Ok(Hooked(addr, []));
    }
    var version := bz[0] % 16;
    bz := bz[1..];
    assert bz == payload[3..];
    if version != ADDRESS_HOOK_VERSION { return Err(UnsupportedVersion(version)); }
    if |bz| < BASE_ADDRESS_LENGTH_BYTES { return Err(TooShort); }
    var b := DecodeLength(bz);
    var payloadEnd := |bz| - BASE_ADDRESS_LENGTH_BYTES;
    if b > payloadEnd { return Err(BaseLongerThanPayload); }
    return Ok(Hooked(Address(addr.prefix, bz[0..b]), bz[b..payloadEnd]));
  }

  method JoinHookedAddress(baseAddr: Address, hookData: seq<Byte>) returns (r: Result<Address, HookError>)
    ensures r == Join(baseAddr, hookData)
  {
    var b := |baseAddr.payload|;
    if b > MAX_BASE { return Err(BaseTooLong); }
    var payload := MAGIC + [LAST_PREFIX_HIGH_NIBBLE];
    payload := payload + baseAddr.payload;
    payload := payload + hookData;
    var baLen := EncodeLength(b);
    payload := payload + baLen[..];
    return Ok(Address(baseAddr.prefix, payload));
  }

  // ------------------------------------------------------------ properties

  /** Byte by byte: the magic prefix with version 0, the base, the hook and the base's length in two bytes. */
  lemma JoinIs(base: Address, hookData: seq<Byte>)
    ensures var b := |base.payload|;
            if b > 0x8001 then Join(base, hookData) == Err(BaseTooLong)
            else Join(base, hookData)
                 == Ok(Address(base.prefix, [0x78, 0xf1, 0x70] + base.payload + hookData + [b / 256, b % 256]))
  {
    var b := |base.payload|;
    if b <= 0x8001 {
      assert ToBytes(b, 2) == ToBytes(b / 256, 1) + [b % 256];
      assert ToBytes(b / 256, 1) == ToBytes(b / 256 / 256, 0) + [b / 256 % 256];
      assert b / 256 % 256 == b / 256 && ToBytes(b, 2) == [b / 256, b % 256];
      assert MAGIC + [LAST_PREFIX_HIGH_NIBBLE] == [0x78, 0xf1, 0x70];
    }
  }

  /** Which payloads are hooked, and what splitting one gives, byte by byte. */
  lemma SplitIs(addr: Address)
    ensures var p := addr.payload;
            var n := |p|;
            if n < 3 || p[0] != 0x78 || p[1] != 0xf1 || p[2] < 0x70 || p[2] > 0x7f then Split(addr) == Ok(Hooked(addr, []))
            else if p[2] != 0x70 then Split(addr) == Err(UnsupportedVersion(p[2] - 0x70))
            else if n < 5 then Split(addr) == Err(TooShort)
            else
              var b := 256 * (p[n - 2] as int) + p[n - 1];
              if b > n - 5 then Split(addr) == Err(BaseLongerThanPayload)
              else Split(addr) == Ok(Hooked(Address(addr.prefix, p[3..3 + b]), p[3 + b..n - 2]))
  {
    var p := addr.payload;
    var n := |p|;
    if n >= 3 { assert p[..2] == [p[0], p[1]]; }
    if n >= 5 {
      var bz := p[3..];
      var last := bz[|bz| - 2..];
      assert last == [p[n - 2], p[n - 1]];
      assert BigEndian(last[..1]) == 256 * BigEndian(last[..1][..0]) + last[0];
      assert BigEndian(last) == 256 * BigEndian(last[..1]) + last[1];
      var b := 256 * (p[n - 2] as int) + p[n - 1];
      if b <= n - 5 {
        assert bz[..b] == p[3..3 + b] && bz[b..|bz| - 2] == p[3 + b..n - 2];
      }
    }
  }

  /** Split undoes Join, for every base Join accepts and every hook; the two-byte length never wraps. */
  lemma SplitUndoesJoin(base: Address, hookData: seq<Byte>)
    ensures Join(base, hookData).Ok? <==> |base.payload| <= MAX_BASE
    ensures Join(base, hookData).Ok? ==>
              IsHooked(Join(base, hookData).value.payload) && Split(Join(base, hookData).value) == Ok(Hooked(base, hookData))
  {
    if Join(base, hookData).Ok? {
      var b := |base.payload|;
      var payload := Join(base, hookData).value.payload;
      var bz := payload[3..];
      var payloadEnd := |bz| - BASE_ADDRESS_LENGTH_BYTES;
      assert payload[..2] == MAGIC;
      assert bz == base.payload + hookData + ToBytes(b, BASE_ADDRESS_LENGTH_BYTES);
      assert bz[payloadEnd..] == ToBytes(b, BASE_ADDRESS_LENGTH_BYTES);
      assert Pow256(2) == 256 * Pow256(1) == 65536;
      LengthRoundTrip(b, BASE_ADDRESS_LENGTH_BYTES);
      assert bz[..b] == base.payload && bz[b..payloadEnd] == hookData;
    }
  }

  /** Join rebuilds a hooked address that Split accepts, exactly when its base is one that Join accepts. */
  lemma JoinUndoesSplit(addr: Address)
    requires IsHooked(addr.payload) && Split(addr).Ok?
    ensures Join(Split(addr).value.base, Split(addr).value.hookData) == Ok(addr)
            <==> |Split(addr).value.base.payload| <= MAX_BASE
  {
    var h := Split(addr).value;
    var payload := addr.payload;
    var bz := payload[3..];
    var payloadEnd := |bz| - BASE_ADDRESS_LENGTH_BYTES;
    var b := BigEndian(bz[payloadEnd..]);
    if b <= MAX_BASE {
      BytesRoundTrip(bz[payloadEnd..]);
      assert payload[..3] == MAGIC + [LAST_PREFIX_HIGH_NIBBLE];
      assert payload == payload[..3] + bz[..b] + bz[b..payloadEnd] + bz[payloadEnd..];
    }
  }

  /** Different bases or different hooks never join to the same address. */
  lemma JoinInjective(base: Address, hookData: seq<Byte>, base': Address, hookData': seq<Byte>)
    requires Join(base, hookData).Ok? && Join(base, hookData) == Join(base', hookData')
    ensures base == base' && hookData == hookData'
  {
    SplitUndoesJoin(base, hookData);
    SplitUndoesJoin(base', hookData');
  }

  /** Hooks joined one over the other, the first hook innermost. */
  function JoinAll(base: Address, hooks: seq<seq<Byte>>): Result<Address, HookError>
  {
    if hooks == [] then Ok(base)
    else
      var inner :- JoinAll(base, hooks[..|hooks| - 1]);
      Join(inner, hooks[|hooks| - 1])
  }

  /** The hooks that n splits peel off, in the order they come off, and the address that is left. */
  function Peel(addr: Address, n: nat): Result<(Address, seq<seq<Byte>>), HookError>
    decreases n
  {
    if n == 0 then Ok((addr, []))
    else
      var outer :- Split(addr);
      var rest :- Peel(outer.base, n - 1);
      Ok((rest.0, [outer.hookData] + rest.1))
  }

  function Reverse(hooks: seq<seq<Byte>>): seq<seq<Byte>> {
    if hooks == [] then [] else [hooks[|hooks| - 1]] + Reverse(hooks[..|hooks| - 1])
  }

  function Sum(hooks: seq<seq<Byte>>): nat {
    if hooks == [] then 0 else Sum(hooks[..|hooks| - 1]) + |hooks[|hooks| - 1]|
  }

  /**
   * How many joins can be nested: all succeed iff each time what is joined already
   * fits, the base with all earlier hooks and 5 bytes for each of them.
   */
  lemma {:induction false} JoinAllSucceedsIff(base: Address, hooks: seq<seq<Byte>>)
    ensures JoinAll(base, hooks).Ok? <==>
            forall k :: 0 <= k < |hooks| ==> |base.payload| + Sum(hooks[..k]) + 5 * k <= MAX_BASE
    ensures JoinAll(base, hooks).Ok? ==>
              |JoinAll(base, hooks).value.payload| == |base.payload| + Sum(hooks) + 5 * |hooks|
  {
    if hooks != [] {
      var n := |hooks| - 1;
      JoinAllSucceedsIff(base, hooks[..n]);
      assert forall k :: 0 <= k < n ==> hooks[..n][..k] == hooks[..k];
      if JoinAll(base, hooks[..n]).Ok? { JoinLength(JoinAll(base, hooks[..n]).value, hooks[n]); }
      hide Join;
    }
  }

  lemma JoinLength(base: Address, hookData: seq<Byte>)
    ensures Join(base, hookData).Ok? <==> |base.payload| <= MAX_BASE
    ensures Join(base, hookData).Ok? ==> |Join(base, hookData).value.payload| == |base.payload| + |hookData| + 5
  {
  }

  /** n nested joins are peeled off in reverse order. */
  lemma {:induction false} PeelUndoesJoinAll(base: Address, hooks: seq<seq<Byte>>)
    requires JoinAll(base, hooks).Ok?
    ensures Peel(JoinAll(base, hooks).value, |hooks|) == Ok((base, Reverse(hooks)))
  {
    if hooks != [] {
      var inner := JoinAll(base, hooks[..|hooks| - 1]).value;
      PeelUndoesJoinAll(base, hooks[..|hooks| - 1]);
      SplitUndoesJoin(inner, hooks[|hooks| - 1]);
    }
  }

  /** An address without the magic prefix comes back verbatim, with no hook data. */
  lemma UnhookedIsVerbatim(addr: Address)
    ensures !IsHooked(addr.payload) ==> Split(addr) == Ok(Hooked(addr, []))
    ensures Split(addr).Ok? && Split(addr).value.base == addr <==> !IsHooked(addr.payload)
  {
  }
}
