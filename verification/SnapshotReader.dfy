/**
 * The chunk-buffering reader of XS snapshots: makeReader in
 * packages/SwingSet/misc-tools/ingest-xs-snapshot.js. Callers await each read
 * before the next.
 */
module SnapshotReader {

  type Byte = b: int | 0 <= b < 256

  /** Diverges: pumping a stream that has already ended neither throws nor delivers, so the caller waits for ever. */
  datatype Outcome<+T> = Got(value: T) | EndOfInput | Diverges | WrongTag | TooMany | OddRest | OutOfRange

  datatype Buffer = Buffer(
    buffered: seq<Byte>,
    offset: int,
    totalOffset: int,
    chunks: seq<seq<Byte>>,   // what the stream has yet to deliver
    ended: bool)              // the pump has thrown

  function JsIndex(i: int, n: nat): (k: nat)
    ensures k <= n
  {
    if i < 0 then (if n + i < 0 then 0 else n + i) else if i > n then n else i
  }

  /** TypedArray.prototype.slice: a negative index counts from the end. */
  function JsSlice(s: seq<Byte>, start: int, end: int): seq<Byte> {
    var a, b := JsIndex(start, |s|), JsIndex(end, |s|);
    if a < b then s[a..b] else []
  }

  function PadTo(s: seq<Byte>, n: int): seq<Byte> {
    if |s| >= n then s else s + seq(n - |s|, _ => 0)
  }

  /** The pump's turn: what is left of the buffer moves to the front of a bigger one. */
  function Pump(b: Buffer): Buffer
    requires b.chunks != []
  {
    var remaining := |b.buffered| - b.offset;
    Buffer(PadTo(JsSlice(b.buffered, b.offset, |b.buffered|), remaining) + b.chunks[0], 0,
           b.totalOffset + b.offset, b.chunks[1..], b.ended)
  }

  function Gather(b: Buffer, needed: int): (Buffer, Outcome<seq<Byte>>)
    decreases |b.chunks|
  {
    if |b.buffered| - b.offset >= needed then
      (b.(offset := b.offset + needed), Got(JsSlice(b.buffered, b.offset, b.offset + needed)))
    else if b.ended then (b, Diverges)
    else if b.chunks == [] then (b.(ended := true), EndOfInput)
    else Gather(Pump(b), needed)
  }

  function Flatten(chunks: seq<seq<Byte>>): seq<Byte> {
    if chunks == [] then [] else chunks[0] + Flatten(chunks[1..])
  }

  /** b is somewhere in reading `whole`: what is buffered and to come is the part of it from totalOffset on. */
  ghost predicate Sound(b: Buffer, whole: seq<Byte>) {
    && 0 <= b.offset <= |b.buffered|
    && 0 <= b.totalOffset <= |whole|
    && whole[b.totalOffset..] == b.buffered + Flatten(b.chunks)
  }

  /** The number of bytes handed out. */
  function Position(b: Buffer): int { b.totalOffset + b.offset }

  function Start(chunks: seq<seq<Byte>>): Buffer { Buffer([], 0, 0, chunks, false) }

  /** One evaluation of the loop condition of gather. */
  lemma GatherUnroll(b: Buffer, needed: int)
    ensures |b.buffered| - b.offset >= needed ==>
              Gather(b, needed) == (b.(offset := b.offset + needed), Got(JsSlice(b.buffered, b.offset, b.offset + needed)))
    ensures |b.buffered| - b.offset < needed && b.ended ==> Gather(b, needed) == (b, Diverges)
    ensures |b.buffered| - b.offset < needed && !b.ended && b.chunks == [] ==>
              Gather(b, needed) == (b.(ended := true), EndOfInput)
    ensures |b.buffered| - b.offset < needed && !b.ended && b.chunks != [] ==> Gather(b, needed) == Gather(Pump(b), needed)
  {
  }

  lemma StartSound(chunks: seq<seq<Byte>>)
    ensures Sound(Start(chunks), Flatten(chunks)) && Position(Start(chunks)) == 0
  {
    assert [] + Flatten(chunks) == Flatten(chunks);
  }

  lemma PumpSound(b: Buffer, whole: seq<Byte>)
    requires Sound(b, whole) && b.chunks != []
    ensures Sound(Pump(b), whole) && Position(Pump(b)) == Position(b)
  {
    var rest := b.buffered[b.offset..];
    assert Pump(b) == Buffer(rest + b.chunks[0], 0, b.totalOffset + b.offset, b.chunks[1..], b.ended);
    PositionInRange(b, whole);
    UnreadRest(whole, b.totalOffset, b.offset, b.buffered, b.chunks[0], Flatten(b.chunks[1..]));
    hide Pump, JsSlice;
  }

  /** What is unread, before and after the buffer gives up its first bytes and takes in the next chunk. */
  lemma UnreadRest(whole: seq<Byte>, start: nat, offset: nat, buffered: seq<Byte>, chunk: seq<Byte>, later: seq<Byte>)
    requires offset <= |buffered| && start + offset <= |whole| && whole[start..] == buffered + (chunk + later)
    ensures whole[start + offset..] == (buffered[offset..] + chunk) + later
  {
    assert whole[start + offset..] == whole[start..][offset..];
    assert whole[start..][offset..] == buffered[offset..] + (chunk + later);
    assert buffered[offset..] + (chunk + later) == (buffered[offset..] + chunk) + later;
  }

  /** A position counted from the end when negative, and kept within the sequence. */
  ghost predicate Clamped(i: int, n: nat, k: int) {
    if i >= 0 then k == (if i < n then i else n) else k == (if -i < n then n - -i else 0)
  }

  /** slice: the elements between the two positions, in order. */
  lemma JsSliceIs(s: seq<Byte>, start: int, end: int, a: int, b: int)
    requires Clamped(start, |s|, a) && Clamped(end, |s|, b)
    ensures |JsSlice(s, start, end)| == if a < b then b - a else 0
    ensures forall k :: 0 <= k < |JsSlice(s, start, end)| ==> JsSlice(s, start, end)[k] == s[a + k]
  {
  }

  /**
   * A pump's turn with the position before the buffer's start: the last -offset
   * bytes of the buffer, or all of them, come first, then zeros up to what was
   * counted as left, then the chunk.
   */
  lemma PumpOutOfRange(b: Buffer)
    requires b.chunks != [] && b.offset < 0
    ensures var n, left := |b.buffered|, |b.buffered| - b.offset;
            var kept := if -b.offset < n then -b.offset else n;
            var t := Pump(b);
            && |t.buffered| == left + |b.chunks[0]| && t.buffered[left..] == b.chunks[0]
            && (forall k :: 0 <= k < kept ==> t.buffered[k] == b.buffered[n - kept + k])
            && (forall k :: kept <= k < left ==> t.buffered[k] == 0)
            && t.offset == 0 && t.totalOffset == b.totalOffset + b.offset && t.chunks == b.chunks[1..] && t.ended == b.ended
  {
    var n, left := |b.buffered|, |b.buffered| - b.offset;
    var kept := if -b.offset < n then -b.offset else n;
    JsSliceIs(b.buffered, b.offset, n, n - kept, n);
    hide JsSlice;
  }

  /** What gather must do, in terms of the whole input only. */
  ghost predicate GatherEffect(b: Buffer, whole: seq<Byte>, needed: nat, t: Buffer, r: Outcome<seq<Byte>>)
    requires Sound(b, whole)
  {
    var p := Position(b);
    && Sound(t, whole)
    && if p + needed <= |whole| then r == Got(whole[p..p + needed]) && Position(t) == p + needed && t.ended == b.ended
       else r == (if b.ended then Diverges else EndOfInput) && Position(t) == p && t.ended
  }

  /** Gathering hands out the next bytes of the whole input, or reports its end once and then diverges. */
  lemma {:induction false} GatherCorrect(b: Buffer, whole: seq<Byte>, needed: nat)
    requires Sound(b, whole) && (b.ended ==> b.chunks == [])
    ensures GatherEffect(b, whole, needed, Gather(b, needed).0, Gather(b, needed).1)
    ensures Gather(b, needed).0.ended ==> Gather(b, needed).0.chunks == []
    decreases |b.chunks|
  {
    var p := Position(b);
    if |b.buffered| - b.offset >= needed {
      assert whole[p..p + needed] == whole[b.totalOffset..][b.offset..b.offset + needed];
      assert whole[b.totalOffset..][b.offset..b.offset + needed] == b.buffered[b.offset..b.offset + needed];
      assert needed == 0 ==> whole[p..p + needed] == [];
    } else if b.chunks == [] {
      assert |whole[b.totalOffset..]| == |b.buffered|;
    } else {
      PumpSound(b, whole);
      GatherCorrect(Pump(b), whole, needed);
    }
  }

  /**
   * A negative length, which a section header declaring less than 8 bytes leads
   * to, moves the position back instead of reading.
   */
  lemma NegativeLengthRewinds(b: Buffer, whole: seq<Byte>, needed: int)
    requires Sound(b, whole) && needed < 0
    ensures Position(Gather(b, needed).0) == Position(b) + needed
    ensures Sound(Gather(b, needed).0, whole) <==> b.offset + needed >= 0
  {
  }

  // ------------------------------------------------------------ the commands

  function BigEndian4(bytes: seq<Byte>): nat
    requires |bytes| == 4
  {
    (bytes[0] as int) * 0x100_0000 + (bytes[1] as int) * 0x1_0000 + (bytes[2] as int) * 0x100 + (bytes[3] as int)
  }

  /** Decoding bytes as ASCII clears the highest bit of each. */
  function Ascii(bytes: seq<Byte>): (text: seq<Byte>)
    ensures |text| == |bytes|
  {
    seq(|bytes|, i requires 0 <= i < |bytes| => bytes[i] % 128)
  }

  lemma LastDigit(q: nat, b: Byte)
    ensures (256 * q + b) / 256 == q && (256 * q + b) % 256 == b
  {
  }

  /** The bytes are the number's base-256 digits, the first counting most. */
  lemma BigEndian4Iff(bytes: seq<Byte>, n: nat)
    requires |bytes| == 4
    ensures n == BigEndian4(bytes)
            <==> n / 256 / 256 / 256 < 256 && bytes == [n / 256 / 256 / 256, n / 256 / 256 % 256, n / 256 % 256, n % 256]
  {
    var q1 := bytes[0] as int;
    var q2 := 256 * q1 + bytes[1];
    var q3 := 256 * q2 + bytes[2];
    assert BigEndian4(bytes) == 256 * q3 + bytes[3];
    LastDigit(q1, bytes[1]);
    LastDigit(q2, bytes[2]);
    LastDigit(q3, bytes[3]);
    hide BigEndian4;
    if n == BigEndian4(bytes) { assert bytes == [bytes[0], bytes[1], bytes[2], bytes[3]]; }
  }

  /** Bytes that are ASCII already stay what they are, and any other byte loses its highest bit. */
  lemma AsciiIs(bytes: seq<Byte>, i: nat)
    requires i < |bytes|
    ensures Ascii(bytes)[i] < 128 && (Ascii(bytes)[i] == bytes[i] || Ascii(bytes)[i] + 128 == bytes[i])
  {
  }

  /**
   * Where bytes come from: the reader's buffer, or the whole input, of which the
   * reader holds at least the last `held` bytes before the position and what
   * follows up to the furthest position reached so far.
   */
  datatype Source =
    | Chunked(buffer: Buffer)
    | Sliced(whole: seq<Byte>, position: int, ended: bool, held: nat, reached: nat)

  /** gather, by buffering chunks or by slicing; a negative length moves the position back. */
  function Take(src: Source, needed: int): (Source, Outcome<seq<Byte>>) {
    match src
    case Chunked(b) =>
      var (t, r) := Gather(b, needed);
      (Chunked(t), r)
    case Sliced(whole, p, ended, held, reached) =>
      if needed < 0 then (Sliced(whole, p + needed, ended, if held + needed >= 0 then held + needed else 0, reached), Got([]))
      else if 0 <= p && p + needed <= |whole| then
        (if p + needed <= reached then Sliced(whole, p + needed, ended, held + needed, reached)
         else Sliced(whole, p + needed, ended, needed, p + needed),
         Got(whole[p..p + needed]))
      else if ended then (src, Diverges)
      else (Sliced(whole, p, true, 0, |whole|), EndOfInput)
  }

  /** readBE4: a number out of fewer than four bytes is a RangeError. */
  function TakeBE4(src: Source): (Source, Outcome<nat>) {
    var (t, bytes) := Take(src, 4);
    (t, match bytes
        case Got(value) => if |value| == 4 then Got(BigEndian4(value)) else OutOfRange
        case EndOfInput => EndOfInput
        case _ => Diverges)
  }

  function TakeTag(src: Source): (Source, Outcome<seq<Byte>>) {
    var (t, bytes) := Take(src, 4);
    (t, match bytes
        case Got(value) => Got(Ascii(value))
        case _ => bytes)
  }

  /** startSection: what is left of the declared size after the header. */
  function TakeHeader(src: Source, expectedTag: seq<Byte>): (Source, Outcome<int>) {
    var (s1, size) := TakeBE4(src);
    if !size.Got? then (s1, size)
    else
      var (s2, tag) := TakeTag(s1);
      (s2, match tag
           case Got(value) => if value != expectedTag then WrongTag else Got(size.value - 8)
           case EndOfInput => EndOfInput
           case _ => Diverges)
  }

  /** readN, with what is left of the section. */
  function TakeN(src: Source, remaining: int, len: int): (Source, int, Outcome<seq<Byte>>) {
    if len > remaining then (src, remaining, TooMany)
    else
      var (t, r) := Take(src, len);
      (t, remaining - len, r)
  }

  function TakeRest(src: Source, remaining: int): (Source, int, Outcome<()>) {
    if remaining == 0 then (src, 0, Got(()))
    else
      var (t, r) := Take(src, remaining);
      match r
      case Got(_) => (t, 0, Got(()))
      case EndOfInput => (t, remaining, EndOfInput)
      case _ => (t, remaining, Diverges)
  }

  /** iterN, run to its end. Units of no bytes are yielded for ever. */
  function TakeUnits(src: Source, remaining: int, unitSize: nat): (Source, int, seq<seq<Byte>>, Outcome<()>)
    decreases if remaining >= 0 then remaining + 1 else 0
  {
    if unitSize == 0 && remaining >= 0 then (src, remaining, [], Diverges)
    else if remaining < unitSize then (src, remaining, [], if remaining != 0 then OddRest else Got(()))
    else
      var (t, left, r) := TakeN(src, remaining, unitSize);
      match r
      case Got(unit) =>
        var (u, rest, units, end) := TakeUnits(t, left, unitSize);
        (u, rest, [unit] + units, end)
      case EndOfInput => (t, left, [], EndOfInput)
      case _ => (t, left, [], Diverges)
  }

  datatype Command =
    | DoReadBE4
    | DoReadTag
    | DoSkipN(count: int)
    | DoStartSection(expectedTag: seq<Byte>)
    | DoReadN(section: nat, len: int)
    | DoReadAll(section: nat)
    | DoIterN(section: nat, unitSize: nat)
    | DoSkipSection(section: nat)

  /** What a call yields, the number it reads or declares if it does, and how it ends. */
  datatype Reply = Reply(units: seq<seq<Byte>>, number: int, end: Outcome<()>)

  /** A reader in use: its source, and what remains of each section started so far. */
  datatype Reading = Reading(source: Source, sections: seq<int>)

  function Ended<T>(r: Outcome<T>): Outcome<()> {
    match r
    case Got(_) => Got(())
    case EndOfInput => EndOfInput
    case Diverges => Diverges
    case WrongTag => WrongTag
    case TooMany => TooMany
    case OddRest => OddRest
    case OutOfRange => OutOfRange
  }

  function BytesReply(r: Outcome<seq<Byte>>): Reply {
    Reply(if r.Got? then [r.value] else [], 0, Ended(r))
  }

  /** One call. A section that was never started is not there to be called. */
  function Call(st: Reading, c: Command): (Reading, Reply) {
    match c
    case DoReadBE4 =>
      var (t, r) := TakeBE4(st.source);
      (st.(source := t), Reply([], if r.Got? then r.value else 0, Ended(r)))
    case DoReadTag =>
      var (t, r) := TakeTag(st.source);
      (st.(source := t), BytesReply(r))
    case DoSkipN(count) =>
      var (t, r) := Take(st.source, count);
      (st.(source := t), Reply([], 0, Ended(r)))
    case DoStartSection(tag) =>
      var (t, r) := TakeHeader(st.source, tag);
      (Reading(t, if r.Got? then st.sections + [r.value] else st.sections), Reply([], if r.Got? then r.value else 0, Ended(r)))
    case DoReadN(i, len) =>
      if i >= |st.sections| then (st, Reply([], 0, Got(())))
      else
        var (t, left, r) := TakeN(st.source, st.sections[i], len);
        (Reading(t, st.sections[i := left]), BytesReply(r))
    case DoReadAll(i) =>
      if i >= |st.sections| then (st, Reply([], 0, Got(())))
      else
        var (t, left, r) := TakeN(st.source, st.sections[i], st.sections[i]);
        (Reading(t, st.sections[i := left]), BytesReply(r))
    case DoIterN(i, unitSize) =>
      if i >= |st.sections| then (st, Reply([], 0, Got(())))
      else
        var (t, left, units, end) := TakeUnits(st.source, st.sections[i], unitSize);
        (Reading(t, st.sections[i := left]), Reply(units, 0, end))
    case DoSkipSection(i) =>
      if i >= |st.sections| then (st, Reply([], 0, Got(())))
      else
        var (t, left, r) := TakeRest(st.source, st.sections[i]);
        (Reading(t, st.sections[i := left]), Reply([], 0, r))
  }

  /** The replies to calls made one after another, each awaited; none comes after one that never ends. */
  function Run(st: Reading, commands: seq<Command>): seq<Reply>
    decreases |commands|
  {
    if commands == [] then []
    else
      var (t, r) := Call(st, commands[0]);
      [r] + if r.end.Diverges? then [] else Run(t, commands[1..])
  }

  // ---------------------------------------------- reading chunks is slicing

  /** The position after what is buffered. */
  function End(b: Buffer): int { b.totalOffset + |b.buffered| }

  /** One byte in each chunk, and an empty chunk at the end. */
  function Bytewise(s: seq<Byte>): seq<seq<Byte>> {
    if s == [] then [[]] else [s[..1]] + Bytewise(s[1..])
  }

  /**
   * The buffer is at this position of the input, and holds at least what it is said
   * to; with the input cut into bytes, `exactly` that.
   */
  ghost predicate Alike(b: Source, s: Source, exactly: bool) {
    && b.Chunked? && s.Sliced?
    && Sound(b.buffer, s.whole) && (b.buffer.ended ==> b.buffer.chunks == [])
    && Position(b.buffer) == s.position && b.buffer.ended == s.ended
    && b.buffer.offset >= s.held && s.position <= s.reached <= End(b.buffer) && s.reached <= |s.whole|
    && (exactly ==> b.buffer.offset == s.held && HoldsExactly(b.buffer, s.whole, s.reached))
  }

  ghost predicate HoldsExactly(b: Buffer, whole: seq<Byte>, reached: int) {
    && 0 <= reached <= |whole| && End(b) == reached
    && if b.ended then reached == |whole| && b.chunks == [] else b.chunks == Bytewise(whole[reached..])
  }

  /** How gathering moves the buffer: not at all within it, and otherwise to the position it started from. */
  lemma {:induction false} GatherKeeps(b: Buffer, whole: seq<Byte>, needed: nat)
    requires Sound(b, whole)
    ensures var t := Gather(b, needed).0;
            && End(t) >= End(b)
            && (b.ended && Position(b) + needed > End(b) ==> t == b)
            && (Position(b) + needed <= End(b) ==> t == b.(offset := b.offset + needed))
            && (Gather(b, needed).1.Got? ==> End(t) >= Position(b) + needed && t.offset >= needed)
            && (Gather(b, needed).1.EndOfInput? ==> End(t) >= |whole| && t.offset >= 0)
    decreases |b.chunks|
  {
    PositionInRange(b, whole);
    GatherUnroll(b, needed);
    hide Gather;
    if |b.buffered| - b.offset < needed && !b.ended {
      if b.chunks == [] {
        assert |whole[b.totalOffset..]| == |b.buffered|;
      } else {
        PumpSound(b, whole);
        PumpLonger(b);
        GatherKeeps(Pump(b), whole, needed);
        hide Sound, Pump;
      }
    }
  }

  lemma PumpLonger(b: Buffer)
    requires b.chunks != [] && 0 <= b.offset <= |b.buffered|
    ensures End(Pump(b)) == End(b) + |b.chunks[0]| && Pump(b).offset == 0 && Pump(b).ended == b.ended
    ensures |Pump(b).chunks| < |b.chunks|
  {
  }

  /** Cut into bytes, gathering beyond what is buffered leaves in the buffer what was gathered and no more. */
  lemma {:induction false} GatherBytewise(b: Buffer, whole: seq<Byte>, needed: nat)
    requires Sound(b, whole) && HoldsExactly(b, whole, End(b)) && !b.ended && Position(b) + needed > End(b)
    ensures var (t, r) := Gather(b, needed);
            if Position(b) + needed <= |whole| then
              t.offset == needed && End(t) == Position(b) + needed && HoldsExactly(t, whole, End(t)) && !t.ended
            else
              t.offset == 0 && t.ended && HoldsExactly(t, whole, |whole|)
    decreases |b.chunks|
  {
    PositionInRange(b, whole);
    GatherUnroll(b, needed);
    PumpSound(b, whole);
    PumpBytewise(b, whole);
    GatherUnroll(Pump(b), needed);
    hide Gather, Sound, Pump, JsSlice, HoldsExactly;
    if End(b) < |whole| {
      if Position(b) + needed > End(b) + 1 { GatherBytewise(Pump(b), whole, needed); }
    } else {
      assert HoldsExactly(Pump(b).(ended := true), whole, |whole|);
    }
  }

  lemma PumpBytewise(b: Buffer, whole: seq<Byte>)
    requires Sound(b, whole) && HoldsExactly(b, whole, End(b)) && !b.ended
    ensures b.chunks != []
    ensures var t := Pump(b);
            && t.offset == 0 && !t.ended && |t.chunks| < |b.chunks|
            && (End(b) < |whole| ==> End(t) == End(b) + 1 && HoldsExactly(t, whole, End(t)))
            && (End(b) >= |whole| ==> End(t) == |whole| && t.chunks == [] && HoldsExactly(t.(ended := true), whole, |whole|))
  {
    PumpLonger(b);
    if End(b) < |whole| { assert whole[End(b)..][1..] == whole[End(b) + 1..]; } else { assert whole[End(b)..] == []; }
    hide Pump;
    assert Pump(b).chunks == b.chunks[1..] by { PumpDelivers(b); }
  }

  lemma TakeAlike(b: Source, s: Source, needed: int, exactly: bool)
    requires Alike(b, s, exactly) && needed + s.held >= 0
    ensures Take(b, needed).1 == Take(s, needed).1 && Alike(Take(b, needed).0, Take(s, needed).0, exactly)
  {
    if needed >= 0 {
      TakeOn(b, s, needed, exactly);
    } else {
      GatherUnroll(b.buffer, needed);
      hide Gather;
    }
  }

  lemma TakeOn(b: Source, s: Source, needed: nat, exactly: bool)
    requires Alike(b, s, exactly)
    ensures Take(b, needed).1 == Take(s, needed).1 && Alike(Take(b, needed).0, Take(s, needed).0, exactly)
  {
    PositionInRange(b.buffer, s.whole);
    GatherCorrect(b.buffer, s.whole, needed);
    GatherKeeps(b.buffer, s.whole, needed);
    if exactly { GatherHoldsExactly(b.buffer, s.whole, needed); }
    hide Gather, Sound, HoldsExactly;
    var (t, r) := Gather(b.buffer, needed);
    var (u, q) := Take(s, needed);
    assert r == q && Position(t) == u.position && t.ended == u.ended && u.whole == s.whole;
    assert t.offset >= u.held && u.position <= u.reached <= End(t) && u.reached <= |u.whole|;
    assert exactly ==> t.offset == u.held && End(t) == u.reached;
  }

  lemma GatherHoldsExactly(b: Buffer, whole: seq<Byte>, needed: nat)
    requires Sound(b, whole) && HoldsExactly(b, whole, End(b))
    ensures var t := Gather(b, needed).0;
            && HoldsExactly(t, whole, End(t))
            && (Position(b) + needed <= End(b) ==> End(t) == End(b))
            && (End(b) < Position(b) + needed <= |whole| ==> End(t) == Position(b) + needed && t.offset == needed)
            && (!b.ended && Position(b) + needed > |whole| ==> End(t) == |whole| && t.offset == 0)
  {
    PositionInRange(b, whole);
    GatherKeeps(b, whole, needed);
    if Position(b) + needed > End(b) && !b.ended { GatherBytewise(b, whole, needed); }
    hide Gather, Sound;
  }

  lemma TakeBE4Alike(b: Source, s: Source, exactly: bool)
    requires Alike(b, s, exactly)
    ensures TakeBE4(b).1 == TakeBE4(s).1 && Alike(TakeBE4(b).0, TakeBE4(s).0, exactly)
  {
    TakeAlike(b, s, 4, exactly);
    hide Take, Alike, BigEndian4;
  }

  lemma TakeTagAlike(b: Source, s: Source, exactly: bool)
    requires Alike(b, s, exactly)
    ensures TakeTag(b).1 == TakeTag(s).1 && Alike(TakeTag(b).0, TakeTag(s).0, exactly)
  {
    TakeAlike(b, s, 4, exactly);
    hide Take, Alike, Ascii;
  }

  lemma TakeHeaderAlike(b: Source, s: Source, tag: seq<Byte>, exactly: bool)
    requires Alike(b, s, exactly)
    ensures TakeHeader(b, tag).1 == TakeHeader(s, tag).1 && Alike(TakeHeader(b, tag).0, TakeHeader(s, tag).0, exactly)
  {
    TakeBE4Alike(b, s, exactly);
    hide TakeBE4, TakeTag, Alike;
    TakeTagAlike(TakeBE4(b).0, TakeBE4(s).0, exactly);
  }

  lemma TakeNAlike(b: Source, s: Source, remaining: int, len: int, exactly: bool)
    requires Alike(b, s, exactly) && (len <= remaining ==> len + s.held >= 0)
    ensures TakeN(b, remaining, len).1 == TakeN(s, remaining, len).1 && TakeN(b, remaining, len).2 == TakeN(s, remaining, len).2
    ensures Alike(TakeN(b, remaining, len).0, TakeN(s, remaining, len).0, exactly)
  {
    hide Take, Alike;
    if len <= remaining { TakeAlike(b, s, len, exactly); }
  }

  lemma TakeRestAlike(b: Source, s: Source, remaining: int, exactly: bool)
    requires Alike(b, s, exactly) && remaining + s.held >= 0
    ensures TakeRest(b, remaining).1 == TakeRest(s, remaining).1 && TakeRest(b, remaining).2 == TakeRest(s, remaining).2
    ensures Alike(TakeRest(b, remaining).0, TakeRest(s, remaining).0, exactly)
  {
    TakeAlike(b, s, remaining, exactly);
    hide Take, Alike;
  }

  lemma {:induction false} TakeUnitsAlike(b: Source, s: Source, remaining: int, unitSize: nat, exactly: bool)
    requires Alike(b, s, exactly)
    ensures var (t, left, units, end) := TakeUnits(b, remaining, unitSize);
            var (u, left', units', end') := TakeUnits(s, remaining, unitSize);
            left == left' && units == units' && end == end' && Alike(t, u, exactly)
    decreases if remaining >= 0 then remaining + 1 else 0
  {
    if remaining >= unitSize && unitSize > 0 {
      TakeNAlike(b, s, remaining, unitSize, exactly);
      hide TakeN, Alike;
      var (t, left, r) := TakeN(b, remaining, unitSize);
      if r.Got? {
        LeftOver(b, remaining, unitSize);
        TakeUnitsAlike(t, TakeN(s, remaining, unitSize).0, left, unitSize, exactly);
      }
    }
  }

  lemma LeftOver(src: Source, remaining: int, len: int)
    requires len <= remaining
    ensures TakeN(src, remaining, len).1 == remaining - len
  {
  }

  function Held(src: Source): nat { if src.Sliced? then src.held else 0 }

  /** How far the call reads on, or back when negative; a refused call does not read. */
  function Need(st: Reading, c: Command): int {
    match c
    case DoSkipN(count) => count
    case DoReadN(i, len) => if i < |st.sections| && len <= st.sections[i] then len else 0
    case DoReadAll(i) => if i < |st.sections| then st.sections[i] else 0
    case DoSkipSection(i) => if i < |st.sections| then st.sections[i] else 0
    case _ => 0
  }

  lemma CallAlike(b: Reading, s: Reading, c: Command, exactly: bool)
    requires Alike(b.source, s.source, exactly) && b.sections == s.sections && Need(s, c) + Held(s.source) >= 0
    ensures Call(b, c).1 == Call(s, c).1 && Alike(Call(b, c).0.source, Call(s, c).0.source, exactly)
    ensures Call(b, c).0.sections == Call(s, c).0.sections
  {
    assert s.source.Sliced? && Held(s.source) == s.source.held;
    hide Alike, Take, TakeBE4, TakeTag, TakeHeader, TakeN, TakeRest, TakeUnits;
    match c
    case DoReadBE4 => TakeBE4Alike(b.source, s.source, exactly);
    case DoReadTag => TakeTagAlike(b.source, s.source, exactly);
    case DoSkipN(count) => TakeAlike(b.source, s.source, count, exactly);
    case DoStartSection(tag) => TakeHeaderAlike(b.source, s.source, tag, exactly);
    case DoReadN(i, len) => if i < |s.sections| { TakeNAlike(b.source, s.source, s.sections[i], len, exactly); }
    case DoReadAll(i) => if i < |s.sections| { TakeNAlike(b.source, s.source, s.sections[i], s.sections[i], exactly); }
    case DoIterN(i, unitSize) => if i < |s.sections| { TakeUnitsAlike(b.source, s.source, s.sections[i], unitSize, exactly); }
    case DoSkipSection(i) => if i < |s.sections| { TakeRestAlike(b.source, s.source, s.sections[i], exactly); }
  }

  /**
   * What a caller can check against the whole input: no call goes further back
   * than the start of the last read that went beyond all earlier ones.
   */
  ghost predicate StaysHeld(s: Reading, commands: seq<Command>)
    decreases |commands|
  {
    commands != [] ==>
      && Need(s, commands[0]) + Held(s.source) >= 0
      && (Call(s, commands[0]).1.end.Diverges? || StaysHeld(Call(s, commands[0]).0, commands[1..]))
  }

  /** In this state and after each call, the buffer is the part of the input it is taken for. */
  ghost predicate StaysSound(b: Reading, whole: seq<Byte>, commands: seq<Command>)
    decreases |commands|
  {
    && b.source.Chunked? && Sound(b.source.buffer, whole)
    && (commands != [] ==>
          Call(b, commands[0]).1.end.Diverges? || StaysSound(Call(b, commands[0]).0, whole, commands[1..]))
  }

  lemma {:induction false} RunAlike(b: Reading, s: Reading, commands: seq<Command>, exactly: bool)
    requires Alike(b.source, s.source, exactly) && b.sections == s.sections
    ensures StaysHeld(s, commands) ==> Run(b, commands) == Run(s, commands) && StaysSound(b, s.source.whole, commands)
    ensures exactly && !StaysHeld(s, commands) ==> !StaysSound(b, s.source.whole, commands)
    decreases |commands|
  {
    AlikeIsSound(b.source, s.source, exactly);
    hide Alike, Call, Need, Sound;
    if commands != [] {
      var c := commands[0];
      if Need(s, c) + Held(s.source) >= 0 {
        CallAlike(b, s, c, exactly);
        CallKeepsWhole(s, c);
        if !Call(s, c).1.end.Diverges? { RunAlike(Call(b, c).0, Call(s, c).0, commands[1..], exactly); }
      } else if exactly {
        CallTooFarBack(b, s, c);
      }
    }
  }

  lemma AlikeIsSound(b: Source, s: Source, exactly: bool)
    requires Alike(b, s, exactly)
    ensures b.Chunked? && s.Sliced? && Sound(b.buffer, s.whole)
  {
  }

  lemma CallKeepsWhole(s: Reading, c: Command)
    requires s.source.Sliced?
    ensures Call(s, c).0.source.Sliced? && Call(s, c).0.source.whole == s.source.whole
  {
    match c
    case DoIterN(i, unitSize) => if i < |s.sections| { UnitsKeepWhole(s.source, s.sections[i], unitSize); }
    case _ =>
  }

  lemma {:induction false} UnitsKeepWhole(s: Source, remaining: int, unitSize: nat)
    requires s.Sliced?
    ensures TakeUnits(s, remaining, unitSize).0.Sliced? && TakeUnits(s, remaining, unitSize).0.whole == s.whole
    decreases if remaining >= 0 then remaining + 1 else 0
  {
    if remaining >= unitSize && unitSize > 0 {
      LeftOver(s, remaining, unitSize);
      UnitsKeepWhole(TakeN(s, remaining, unitSize).0, remaining - unitSize, unitSize);
    }
  }

  /** Going back further than the bytes held leaves the front of the buffer. */
  lemma CallTooFarBack(b: Reading, s: Reading, c: Command)
    requires Alike(b.source, s.source, true) && b.sections == s.sections && Need(s, c) + Held(s.source) < 0
    ensures !Call(b, c).1.end.Diverges? && Call(b, c).0.source.Chunked? && !Sound(Call(b, c).0.source.buffer, s.source.whole)
  {
    GatherUnroll(b.source.buffer, Need(s, c));
    hide Gather, TakeUnits;
  }

  function OpenChunked(chunks: seq<seq<Byte>>): Reading { Reading(Chunked(Start(chunks)), []) }

  function OpenWhole(whole: seq<Byte>): Reading { Reading(Sliced(whole, 0, false, 0, 0), []) }

  /**
   * For every way of cutting the input into chunks, any sequence of reads and
   * section reads replies what slicing the whole input replies.
   */
  lemma ReadsAreSlices(chunks: seq<seq<Byte>>, commands: seq<Command>)
    requires StaysHeld(OpenWhole(Flatten(chunks)), commands)
    ensures Run(OpenChunked(chunks), commands) == Run(OpenWhole(Flatten(chunks)), commands)
  {
    StartSound(chunks);
    RunAlike(OpenChunked(chunks), OpenWhole(Flatten(chunks)), commands, false);
  }

  lemma ChunkingDoesNotMatter(chunks: seq<seq<Byte>>, other: seq<seq<Byte>>, commands: seq<Command>)
    requires Flatten(chunks) == Flatten(other) && StaysHeld(OpenWhole(Flatten(chunks)), commands)
    ensures Run(OpenChunked(chunks), commands) == Run(OpenChunked(other), commands)
  {
    ReadsAreSlices(chunks, commands);
    ReadsAreSlices(other, commands);
  }

  lemma {:induction false} FlattenBytewise(s: seq<Byte>)
    ensures Flatten(Bytewise(s)) == s
    decreases |s|
  {
    if s == [] {
      assert Flatten([[]]) == [] + Flatten([]);
    } else {
      FlattenBytewise(s[1..]);
      assert Bytewise(s)[1..] == Bytewise(s[1..]);
      assert s[..1] + s[1..] == s;
    }
  }

  /**
   * That is exactly when the reader can be trusted: however the input is cut, its
   * buffer is at every step the part of the input it is taken for. When a call goes
   * further back, cutting the input into single bytes breaks it.
   */
  lemma StaysHeldIff(whole: seq<Byte>, commands: seq<Command>)
    ensures StaysHeld(OpenWhole(whole), commands)
            <==> forall chunks :: Flatten(chunks) == whole ==> StaysSound(OpenChunked(chunks), whole, commands)
  {
    hide StaysHeld, StaysSound;
    if StaysHeld(OpenWhole(whole), commands) {
      forall chunks | Flatten(chunks) == whole ensures StaysSound(OpenChunked(chunks), whole, commands) {
        StartSound(chunks);
        RunAlike(OpenChunked(chunks), OpenWhole(whole), commands, false);
      }
    } else {
      var bytes := Bytewise(whole);
      FlattenBytewise(whole);
      StartSound(bytes);
      assert whole[0..] == whole;
      RunAlike(OpenChunked(bytes), OpenWhole(whole), commands, true);
    }
  }

  /** Every section started declares at least its header, and no length passed is negative. */
  ghost predicate WellDeclared(s: Reading, commands: seq<Command>)
    decreases |commands|
  {
    commands != [] ==>
      && (commands[0].DoSkipN? ==> commands[0].count >= 0)
      && (commands[0].DoReadN? ==> commands[0].len >= 0)
      && (commands[0].DoStartSection? ==> Call(s, commands[0]).1.number >= 0)
      && (Call(s, commands[0]).1.end.Diverges? || WellDeclared(Call(s, commands[0]).0, commands[1..]))
  }

  lemma CallWellDeclared(s: Reading, c: Command)
    requires forall i :: 0 <= i < |s.sections| ==> s.sections[i] >= 0
    requires (c.DoSkipN? ==> c.count >= 0) && (c.DoReadN? ==> c.len >= 0) && (c.DoStartSection? ==> Call(s, c).1.number >= 0)
    ensures Need(s, c) >= 0
    ensures forall i :: 0 <= i < |Call(s, c).0.sections| ==> Call(s, c).0.sections[i] >= 0
  {
    hide Take, TakeBE4, TakeTag, TakeHeader, TakeUnits;
    match c
    case DoIterN(i, unitSize) => if i < |s.sections| { UnitsLeave(s.source, s.sections[i], unitSize); }
    case _ =>
  }

  lemma {:induction false} UnitsLeave(src: Source, remaining: int, unitSize: nat)
    requires remaining >= 0
    ensures 0 <= TakeUnits(src, remaining, unitSize).1
    decreases remaining
  {
    hide Take;
    if remaining >= unitSize && unitSize > 0 {
      var (t, left, r) := TakeN(src, remaining, unitSize);
      if r.Got? { UnitsLeave(t, left, unitSize); }
    }
  }

  lemma {:induction false} WellDeclaredStaysHeld(s: Reading, commands: seq<Command>)
    requires forall i :: 0 <= i < |s.sections| ==> s.sections[i] >= 0
    requires WellDeclared(s, commands)
    ensures StaysHeld(s, commands)
    decreases |commands|
  {
    hide Call, Need;
    if commands != [] {
      CallWellDeclared(s, commands[0]);
      if !Call(s, commands[0]).1.end.Diverges? { WellDeclaredStaysHeld(Call(s, commands[0]).0, commands[1..]); }
    }
  }

  /** So for a file whose sections each declare at least 8 bytes, the cutting never matters. */
  lemma WellDeclaredReads(chunks: seq<seq<Byte>>, commands: seq<Command>)
    requires WellDeclared(OpenWhole(Flatten(chunks)), commands)
    ensures Run(OpenChunked(chunks), commands) == Run(OpenWhole(Flatten(chunks)), commands)
  {
    WellDeclaredStaysHeld(OpenWhole(Flatten(chunks)), commands);
    ReadsAreSlices(chunks, commands);
  }

  // ----------------------------------------- where the cutting does matter

  /** A section is started, its rest is read, and the next section is started. */
  function ReadSectionTwice(tag: seq<Byte>): seq<Command> { [DoStartSection(tag), DoReadAll(0), DoStartSection(tag)] }

  ghost predicate HasHeader(whole: seq<Byte>, tag: seq<Byte>) {
    |whole| >= 8 && Ascii(whole[4..8]) == tag
  }

  function DeclaredSize(whole: seq<Byte>): nat
    requires |whole| >= 8
  {
    BigEndian4(whole[..4])
  }

  lemma RunThree(st: Reading, a: Command, b: Command, c: Command)
    ensures var (s1, r1) := Call(st, a);
            var (s2, r2) := Call(s1, b);
            var (s3, r3) := Call(s2, c);
            !r1.end.Diverges? && !r2.end.Diverges? ==> Run(st, [a, b, c]) == [r1, r2, r3]
  {
    hide Call;
    assert [a, b, c][1..] == [b, c] && [b, c][1..] == [c] && [c][1..] == [];
    var (s1, r1) := Call(st, a);
    var (s2, r2) := Call(s1, b);
    var (s3, r3) := Call(s2, c);
    assert Run(s3, []) == [];
    assert Run(s2, [c]) == [r3];
  }

  lemma StartsAndEnds(st: Reading, tag: seq<Byte>)
    ensures var (t, header) := TakeHeader(st.source, tag);
            && Call(st, DoStartSection(tag)).1.end == Ended(header)
            && (header.Got? ==> Ended(header) == Got(()) && Call(st, DoStartSection(tag)).0 == Reading(t, st.sections + [header.value]))
  {
    hide TakeHeader;
  }

  lemma ReadsBack(b: Buffer, d: int)
    requires b.offset <= |b.buffered| && d > 0
    ensures var (t, r) := Call(Reading(Chunked(b), [-d]), DoReadAll(0));
            t.source == Chunked(b.(offset := b.offset - d)) && r.end == Got(())
  {
    GatherUnroll(b, -d);
    hide Gather, JsSlice;
  }

  lemma Twice(tag: seq<Byte>)
    ensures ReadSectionTwice(tag) == [DoStartSection(tag), DoReadAll(0), DoStartSection(tag)]
  {
  }

  /** Two buffers that read the same header, and have then gone back by the same number of bytes. */
  lemma AfterShortSection(st: Reading, b: Buffer, whole: seq<Byte>, tag: seq<Byte>)
    requires HasHeader(whole, tag) && DeclaredSize(whole) < 4 && st.sections == []
    requires TakeHeader(st.source, tag) == (Chunked(b), Got(DeclaredSize(whole) - 8))
    requires |b.buffered| - b.offset >= 0
    ensures var d := 8 - DeclaredSize(whole);
            var back := b.(offset := b.offset - d);
            && |Run(st, ReadSectionTwice(tag))| == 3
            && Run(st, ReadSectionTwice(tag))[2].end
               == Ended(TakeHeader(Chunked(back), tag).1)
  {
    var d := 8 - DeclaredSize(whole);
    var back := b.(offset := b.offset - d);
    var start, rest := DoStartSection(tag), DoReadAll(0);
    hide *;
    var s1, s2 := Reading(Chunked(b), [-d]), Call(Reading(Chunked(b), [-d]), rest).0;
    StartsAndEnds(st, tag);
    ReadsBack(b, d);
    StartsAndEnds(s2, tag);
    RunThree(st, start, rest, start);
    assert ReadSectionTwice(tag) == [start, rest, start] by { Twice(tag); }
  }

  lemma HeaderRead(src: Source, s1: Source, s2: Source, whole: seq<Byte>, tag: seq<Byte>)
    requires HasHeader(whole, tag) && Take(src, 4) == (s1, Got(whole[..4])) && Take(s1, 4) == (s2, Got(whole[4..8]))
    ensures TakeHeader(src, tag) == (s2, Got(DeclaredSize(whole) - 8))
  {
    hide Take, BigEndian4, Ascii;
  }

  /** Read from one chunk, the bytes gone back over are still there. */
  lemma OneChunkHeader(whole: seq<Byte>, tag: seq<Byte>)
    requires HasHeader(whole, tag)
    ensures TakeHeader(Chunked(Start([whole])), tag) == (Chunked(Buffer(whole, 8, 0, [], false)), Got(DeclaredSize(whole) - 8))
  {
    var b1 := Buffer(whole, 0, 0, [], false);
    hide BigEndian4, Ascii, TakeHeader;
    assert Pump(Start([whole])) == b1 by { assert [whole][1..] == [] && [] + whole == whole; }
    assert JsSlice(whole, 0, 4) == whole[..4] && JsSlice(whole, 4, 8) == whole[4..8];
    GatherUnroll(Start([whole]), 4);
    GatherUnroll(b1, 4);
    GatherUnroll(b1.(offset := 4), 4);
    hide Gather, Pump, JsSlice;
    HeaderRead(Chunked(Start([whole])), Chunked(b1.(offset := 4)), Chunked(b1.(offset := 8)), whole, tag);
  }

  /** Read from a chunk that ends after the size, the size is gone. */
  lemma TwoChunksHeader(whole: seq<Byte>, tag: seq<Byte>)
    requires HasHeader(whole, tag)
    ensures TakeHeader(Chunked(Start([whole[..4], whole[4..]])), tag)
            == (Chunked(Buffer(whole[4..], 4, 4, [], false)), Got(DeclaredSize(whole) - 8))
  {
    var first, rest := whole[..4], whole[4..];
    var b0, b1, b2 := Start([first, rest]), Buffer(first, 0, 0, [rest], false), Buffer(rest, 0, 4, [], false);
    var none: seq<seq<Byte>> := [];
    assert [first, rest][1..] == [rest] && [rest][1..] == none;
    assert Pump(b0) == b1 by { assert [] + first == first; }
    assert Pump(b1.(offset := 4)) == b2 by { assert [] + rest == rest; }
    GatherUnroll(b0, 4);
    GatherUnroll(b1, 4);
    GatherUnroll(b1.(offset := 4), 4);
    GatherUnroll(b2, 4);
    assert JsSlice(first, 0, 4) == whole[..4] && JsSlice(rest, 0, 4) == whole[4..8];
    hide Gather, Pump, JsSlice, BigEndian4, Ascii, TakeHeader;
    HeaderRead(Chunked(b0), Chunked(b1.(offset := 4)), Chunked(b2.(offset := 4)), whole, tag);
  }

  /** Four bytes at a position before the buffer are never all there. */
  lemma BeforeTheBuffer(rest: seq<Byte>, d: int, tag: seq<Byte>)
    requires |rest| >= 4 && 5 <= d <= 8
    ensures TakeHeader(Chunked(Buffer(rest, 4 - d, 4, [], false)), tag).1 == OutOfRange
  {
    GatherUnroll(Buffer(rest, 4 - d, 4, [], false), 4);
    assert |JsSlice(rest, 4 - d, 8 - d)| < 4;
    hide Gather;
  }

  lemma WithinTheBuffer(src: Source, tag: seq<Byte>)
    requires Take(src, 4).1.Got? && |Take(src, 4).1.value| == 4
    ensures TakeHeader(src, tag).1 != OutOfRange
  {
    hide Take;
  }

  lemma WholeStillThere(whole: seq<Byte>, d: int, tag: seq<Byte>)
    requires |whole| >= 8 && 5 <= d <= 8
    ensures TakeHeader(Chunked(Buffer(whole, 8 - d, 0, [], false)), tag).1 != OutOfRange
    ensures TakeHeader(Sliced(whole, 8 - d, false, 0, 8), tag).1 != OutOfRange
  {
    GatherUnroll(Buffer(whole, 8 - d, 0, [], false), 4);
    hide Gather;
    WithinTheBuffer(Chunked(Buffer(whole, 8 - d, 0, [], false)), tag);
    WithinTheBuffer(Sliced(whole, 8 - d, false, 0, 8), tag);
  }

  /**
   * An input whose first section declares fewer than 4 bytes, cut in two ways: in
   * one piece, and after the size. Reading the rest of that section and starting
   * the next one throws in one of them only.
   */
  lemma NegativeLengthExample(whole: seq<Byte>, tag: seq<Byte>)
    requires HasHeader(whole, tag) && DeclaredSize(whole) < 4
    ensures Flatten([whole]) == Flatten([whole[..4], whole[4..]]) == whole
    ensures Run(OpenChunked([whole]), ReadSectionTwice(tag)) != Run(OpenChunked([whole[..4], whole[4..]]), ReadSectionTwice(tag))
    ensures Run(OpenChunked([whole[..4], whole[4..]]), ReadSectionTwice(tag)) != Run(OpenWhole(whole), ReadSectionTwice(tag))
  {
    var d := 8 - DeclaredSize(whole);
    FlattenTwo(whole);
    OneChunkHeader(whole, tag);
    TwoChunksHeader(whole, tag);
    hide Gather, TakeHeader, Run, Flatten, ReadSectionTwice, Ascii, BigEndian4, DeclaredSize;
    AfterShortSection(OpenChunked([whole]), Buffer(whole, 8, 0, [], false), whole, tag);
    AfterShortSection(OpenChunked([whole[..4], whole[4..]]), Buffer(whole[4..], 4, 4, [], false), whole, tag);
    BeforeTheBuffer(whole[4..], d, tag);
    WholeStillThere(whole, d, tag);
    SlicedShortSection(whole, tag);
  }

  lemma FlattenTwo(whole: seq<Byte>)
    requires |whole| >= 8
    ensures Flatten([whole]) == Flatten([whole[..4], whole[4..]]) == whole
  {
    assert [whole][1..] == [] && whole + [] == whole;
    assert [whole[..4], whole[4..]][1..] == [whole[4..]] && [whole[4..]][1..] == [];
    assert Flatten([whole[4..]]) == whole[4..] + Flatten([]);
    assert whole[..4] + whole[4..] == whole;
  }

  lemma SlicedHeader(whole: seq<Byte>, tag: seq<Byte>)
    requires HasHeader(whole, tag)
    ensures TakeHeader(OpenWhole(whole).source, tag) == (Sliced(whole, 8, false, 4, 8), Got(DeclaredSize(whole) - 8))
  {
    assert whole[0..0 + 4] == whole[..4] && whole[4..4 + 4] == whole[4..8];
    hide BigEndian4, Ascii;
  }

  lemma SlicedShortSection(whole: seq<Byte>, tag: seq<Byte>)
    requires HasHeader(whole, tag) && DeclaredSize(whole) < 4
    ensures |Run(OpenWhole(whole), ReadSectionTwice(tag))| == 3
    ensures Run(OpenWhole(whole), ReadSectionTwice(tag))[2].end != OutOfRange
  {
    var d := 8 - DeclaredSize(whole);
    SlicedHeader(whole, tag);
    WholeStillThere(whole, d, tag);
    hide TakeHeader;
    RunThree(OpenWhole(whole), DoStartSection(tag), DoReadAll(0), DoStartSection(tag));
  }

  /**
   * Exactly when the cutting matters to that: the header is there, and the section
   * declares fewer than 4 bytes. Down to 4 the reader still holds what it goes
   * back over.
   */
  lemma ShortSectionIff(whole: seq<Byte>, tag: seq<Byte>)
    requires HasHeader(whole, tag)
    ensures (forall chunks :: Flatten(chunks) == whole ==>
               Run(OpenChunked(chunks), ReadSectionTwice(tag)) == Run(OpenWhole(whole), ReadSectionTwice(tag)))
            <==> DeclaredSize(whole) >= 4
  {
    if DeclaredSize(whole) >= 4 {
      ShortSectionHeld(whole, tag);
      hide Run, StaysHeld;
      forall chunks | Flatten(chunks) == whole
        ensures Run(OpenChunked(chunks), ReadSectionTwice(tag)) == Run(OpenWhole(whole), ReadSectionTwice(tag))
      {
        ReadsAreSlices(chunks, ReadSectionTwice(tag));
      }
    } else {
      hide Run;
      NegativeLengthExample(whole, tag);
    }
  }

  lemma ShortSectionHeld(whole: seq<Byte>, tag: seq<Byte>)
    requires HasHeader(whole, tag) && DeclaredSize(whole) >= 4
    ensures StaysHeld(OpenWhole(whole), ReadSectionTwice(tag))
  {
    SlicedHeader(whole, tag);
    hide TakeHeader;
    var start, rest := DoStartSection(tag), DoReadAll(0);
    var cmds := [start, rest, start];
    assert cmds[1..] == [rest, start] && [rest, start][1..] == [start] && [start][1..] == [];
    var s1 := Call(OpenWhole(whole), start).0;
    var s2 := Call(s1, rest).0;
    assert s1.sections == [DeclaredSize(whole) - 8] && Held(s1.source) == 4;
    StaysHeldLast(s2, start);
    assert StaysHeld(s1, [rest, start]);
  }

  lemma StaysHeldLast(s: Reading, c: Command)
    requires Need(s, c) >= 0
    ensures StaysHeld(s, [c])
  {
    hide Call, Need;
    assert [c][1..] == [];
    assert StaysHeld(Call(s, c).0, []);
  }

  // -------------------------------------------------------------- the reader

  class Reader {
    var buffered: seq<Byte>
    var offset: int
    var totalOffset: int
    var chunks: seq<seq<Byte>>
    var ended: bool
    ghost const whole: seq<Byte>

    ghost function Abs(): Buffer
      reads this
    {
      Buffer(buffered, offset, totalOffset, chunks, ended)
    }

    ghost function Src(): Source
      reads this
    {
      Chunked(Abs())
    }

    ghost predicate Valid()
      reads this
    {
      Sound(Abs(), whole) && (ended ==> chunks == [])
    }

    ghost function At(): int
      reads this
    {
      totalOffset + offset
    }

    constructor (chunks: seq<seq<Byte>>)
      ensures Src() == OpenChunked(chunks).source
      ensures Valid() && whole == Flatten(chunks) && At() == 0 && !ended
    {
      buffered, offset, totalOffset, ended := [], 0, 0, false;
      this.chunks := chunks;
      whole := Flatten(chunks);
      new;
      hide Sound, Flatten;
      assert Abs() == Start(chunks);
      StartSound(chunks);
    }

    /** One turn of the pump. */
    method PumpChunk()
      requires chunks != []
      modifies this`buffered, this`offset, this`totalOffset, this`chunks
      ensures Abs() == Pump(old(Abs()))
    {
      var remaining := |buffered| - offset;
      var bigger := PadTo(JsSlice(buffered, offset, |buffered|), remaining) + chunks[0];
      buffered, totalOffset, offset, chunks := bigger, totalOffset + offset, 0, chunks[1..];
    }

    /** gather */
    method GatherBytes(needed: int) returns (r: Outcome<seq<Byte>>)
      modifies this
      ensures (Src(), r) == Take(old(Src()), needed)
      ensures needed >= 0 && old(Valid()) ==> Valid() && GatherEffect(old(Abs()), whole, needed, Abs(), r)
    {
      ghost var start := Abs();
      if needed >= 0 && Valid() { GatherCorrect(start, whole, needed); }
      hide Sound, GatherEffect, JsSlice, Pump, Gather;
      while |buffered| - offset < needed
        invariant Gather(start, needed) == Gather(Abs(), needed)
        decreases |chunks|
      {
        GatherUnroll(Abs(), needed);
        if ended { return Diverges; }
        if chunks == [] {
          ended := true;
          return EndOfInput;
        }
        PumpDelivers(Abs());
        PumpChunk();
      }
      GatherUnroll(Abs(), needed);
      var data := JsSlice(buffered, offset, offset + needed);
      offset := offset + needed;
      return Got(data);
    }

    /** readBE4: the next four bytes as a number. */
    method ReadBE4() returns (r: Outcome<nat>)
      modifies this
      ensures (Src(), r) == TakeBE4(old(Src()))
      ensures old(Valid()) ==> Valid() && 0 <= old(At()) <= |whole|
      ensures old(Valid()) ==>
                var p := old(At());
                if p + 4 <= |whole| then r == Got(BigEndian4(whole[p..p + 4])) && At() == p + 4 && ended == old(ended)
                else r == (if old(ended) then Diverges else EndOfInput) && At() == p && ended
    {
      if Valid() { PositionInRange(Abs(), whole); }
      var bytes := GatherBytes(4);
      hide Sound, Gather, Take;
      match bytes {
        case Got(value) => return if |value| == 4 then Got(BigEndian4(value)) else OutOfRange;
        case EndOfInput => return EndOfInput;
        case _ => return Diverges;
      }
    }

    /** readTag: the next four bytes as ASCII text. */
    method ReadTag() returns (r: Outcome<seq<Byte>>)
      modifies this
      ensures (Src(), r) == TakeTag(old(Src()))
      ensures old(Valid()) ==> Valid() && 0 <= old(At()) <= |whole|
      ensures old(Valid()) ==>
                var p := old(At());
                if p + 4 <= |whole| then r == Got(Ascii(whole[p..p + 4])) && At() == p + 4 && ended == old(ended)
                else r == (if old(ended) then Diverges else EndOfInput) && At() == p && ended
    {
      if Valid() { PositionInRange(Abs(), whole); }
      var bytes := GatherBytes(4);
      hide Sound, Gather, Take;
      match bytes {
        case Got(value) => return Got(Ascii(value));
        case _ => return bytes;
      }
    }

    /**
     * startSection: size and tag, then a section of what is left of the size. A tag
     * is accepted iff its bytes agree with the expected ones in their lower seven
     * bits. A header cut short is read as far as it goes by fours.
     */
    method StartSection(expectedTag: seq<Byte>) returns (r: Outcome<Section>)
      modifies this
      ensures var (t, header) := TakeHeader(old(Src()), expectedTag);
              && Src() == t && (r.Got? <==> header.Got?) && Ended(r) == Ended(header)
              && (r.Got? ==> fresh(r.value) && r.value.reader == this && r.value.remaining == header.value)
      ensures old(Valid()) ==> Valid() && 0 <= old(At()) <= |whole|
      ensures old(Valid()) ==>
                var p := old(At());
                if p + 8 <= |whole| then
                  && At() == p + 8 && ended == old(ended)
                  && (r.WrongTag? <==> Ascii(whole[p + 4..p + 8]) != expectedTag)
                  && (r.Got? <==> Ascii(whole[p + 4..p + 8]) == expectedTag)
                  && (r.Got? ==> r.value.remaining == BigEndian4(whole[p..p + 4]) - 8)
                else
                  && r == (if old(ended) then Diverges else EndOfInput)
                  && At() == (if p + 4 <= |whole| then p + 4 else p) && ended
    {
      hide Sound, Gather, GatherEffect, BigEndian4, Ascii, Take;
      var size := ReadBE4();
      if !size.Got? { return match size case EndOfInput => EndOfInput case OutOfRange => OutOfRange case _ => Diverges; }
      var tag := ReadTag();
      if tag.EndOfInput? { return EndOfInput; }
      if !tag.Got? { return Diverges; }
      if tag.value != expectedTag { return WrongTag; }
      var declared: int := size.value;
      var section := new Section(this, declared - 8);
      return Got(section);
    }
  }

  class Section {
    const reader: Reader
    var remaining: int

    constructor (reader: Reader, remaining: int)
      ensures this.reader == reader && this.remaining == remaining
    {
      this.reader, this.remaining := reader, remaining;
    }

    /** readN: the next len bytes of the section, and of the input; more than the section has left is refused. */
    method ReadN(len: int) returns (r: Outcome<seq<Byte>>)
      modifies this, reader
      ensures (reader.Src(), remaining, r) == TakeN(old(reader.Src()), old(remaining), len)
      ensures r.TooMany? <==> len > old(remaining)
      ensures r.TooMany? ==> remaining == old(remaining) && reader.Abs() == old(reader.Abs())
      ensures !r.TooMany? ==> remaining == old(remaining) - len
      ensures len >= 0 && old(reader.Valid()) ==> reader.Valid()
      ensures len >= 0 && old(reader.Valid()) && !r.TooMany? ==> GatherEffect(old(reader.Abs()), reader.whole, len, reader.Abs(), r)
    {
      GatherNeverRefuses(reader.Abs(), len);
      hide Gather, GatherEffect, Sound;
      if len > remaining { return TooMany; }
      r := reader.GatherBytes(len);
      remaining := remaining - len;
    }

    /** readAll: the rest of the section in one piece. */
    method ReadAll() returns (r: Outcome<seq<Byte>>)
      modifies this, reader
      ensures (reader.Src(), remaining, r) == TakeN(old(reader.Src()), old(remaining), old(remaining))
      ensures remaining == 0 && !r.TooMany?
      ensures old(remaining) >= 0 && old(reader.Valid()) ==>
                reader.Valid() && GatherEffect(old(reader.Abs()), reader.whole, old(remaining), reader.Abs(), r)
    {
      hide Gather, GatherEffect, Sound, Take;
      r := ReadN(remaining);
    }

    /** skipSection */
    method SkipSection() returns (r: Outcome<()>)
      modifies this, reader
      ensures (reader.Src(), remaining, r) == TakeRest(old(reader.Src()), old(remaining))
      ensures old(remaining) >= 0 && old(reader.Valid()) ==>
                && reader.Valid()
                && (r.Got? <==> old(reader.At()) + old(remaining) <= |reader.whole| || old(remaining) == 0)
      ensures old(remaining) < 0 ==> old(reader.Valid()) ==> r.Got?
      ensures r.Got? && old(reader.Valid()) ==> remaining == 0 && reader.At() == old(reader.At()) + old(remaining)
    {
      if remaining < 0 && reader.Valid() { NegativeLengthRewinds(reader.Abs(), reader.whole, remaining); }
      if remaining == 0 { return Got(()); }
      var skipped := reader.GatherBytes(remaining);
      hide Gather, Sound;
      if skipped.EndOfInput? { return EndOfInput; }
      if !skipped.Got? { return Diverges; }
      remaining := 0;
      return Got(());
    }

    /**
     * iterN: the units a consumer receives, and how the iteration ends. With
     * enough input they are exactly the section, cut into equal units, and the
     * iteration throws iff something shorter than a unit is left over. Units of no
     * bytes are yielded for ever while the section has not been overdrawn.
     */
    method IterN(unitSize: nat) returns (units: seq<seq<Byte>>, end: Outcome<()>)
      modifies this, reader
      ensures (reader.Src(), remaining, units, end) == TakeUnits(old(reader.Src()), old(remaining), unitSize)
      ensures unitSize == 0 && old(remaining) >= 0 ==> end.Diverges?
      ensures end.Got? || end.OddRest? ==> remaining < unitSize && (end.Got? <==> remaining == 0)
      ensures old(reader.Valid()) ==>
                UnitsEffect(old(reader.Abs()), reader.whole, old(remaining), unitSize, reader.Abs(), remaining, units, end)
    {
      units, end := [], Got(());
      ghost var first, was := remaining, reader.Src();
      ghost var all := TakeUnits(was, first, unitSize);
      if reader.Valid() { UnitsCut(reader.Abs(), reader.whole, remaining, unitSize); }
      UnitsEnd(was, first, unitSize);
      hide Sound, Gather, TakeUnits, TakeN, Take, GatherEffect, Prepend, UnitsEffect;
      UnitsBegin(was, first, unitSize);
      while remaining >= unitSize
        invariant end.Got? && all == Prepend(units, TakeUnits(reader.Src(), remaining, unitSize))
        decreases remaining
      {
        UnitsUnroll(reader.Src(), remaining, unitSize, units);
        if unitSize == 0 {
          end := Diverges;
          break;
        }
        var unit := ReadN(unitSize);
        if !unit.Got? {
          end := if unit.EndOfInput? then EndOfInput else Diverges;
          break;
        }
        units := units + [unit.value];
      }
      if end.Got? {
        UnitsUnroll(reader.Src(), remaining, unitSize, units);
        if remaining != 0 { end := OddRest; }
      }
      assert all == (reader.Src(), remaining, units, end);
    }
  }

  /** What iterN must do, in terms of the whole input only. */
  ghost predicate UnitsEffect(b: Buffer, whole: seq<Byte>, remaining: int, unitSize: nat,
                              t: Buffer, left: int, units: seq<seq<Byte>>, end: Outcome<()>)
  {
    var p, q := Position(b), Position(t);
    && Sound(t, whole) && (t.ended ==> t.chunks == [])
    && 0 <= p <= q <= |whole| && CutsInto(whole[p..q], units, unitSize)
    && (end.Got? || end.OddRest? ==> left == remaining - (q - p))
    && (unitSize > 0 && remaining >= 0 && p + remaining <= |whole| ==> end.Got? || end.OddRest?)
  }

  lemma NothingTaken(b: Buffer, whole: seq<Byte>, remaining: int, unitSize: nat)
    requires Sound(b, whole) && (b.ended ==> b.chunks == []) && (unitSize == 0 || remaining < unitSize)
    ensures var (t, left, units, end) := TakeUnits(Chunked(b), remaining, unitSize);
            t == Chunked(b) && UnitsEffect(b, whole, remaining, unitSize, b, left, units, end)
  {
    PositionInRange(b, whole);
    assert whole[Position(b)..Position(b)] == [] && CutsInto([], [], unitSize);
    hide Sound;
  }

  lemma {:induction false} UnitsCut(b: Buffer, whole: seq<Byte>, remaining: int, unitSize: nat)
    requires Sound(b, whole) && (b.ended ==> b.chunks == [])
    ensures var (t, left, units, end) := TakeUnits(Chunked(b), remaining, unitSize);
            t.Chunked? && UnitsEffect(b, whole, remaining, unitSize, t.buffer, left, units, end)
    decreases if remaining >= 0 then remaining + 1 else 0
  {
    hide Sound, CutsInto, UnitsEffect;
    if unitSize == 0 || remaining < unitSize {
      NothingTaken(b, whole, remaining, unitSize);
    } else {
      PositionInRange(b, whole);
      GatherCorrect(b, whole, unitSize);
      GatherNeverRefuses(b, unitSize);
      hide Gather;
      var (t, r) := Gather(b, unitSize);
      assert TakeN(Chunked(b), remaining, unitSize) == (Chunked(t), remaining - unitSize, r);
      hide TakeN;
      if r.Got? {
        UnitsCut(t, whole, remaining - unitSize, unitSize);
        var (u, left, units, end) := TakeUnits(Chunked(t), remaining - unitSize, unitSize);
        UnitsCutMore(b, whole, remaining, unitSize, t, u.buffer, left, units, end, r.value);
      } else {
        NoUnits(b, whole, remaining, unitSize, t, remaining - unitSize, r);
      }
    }
  }

  lemma UnitsCutMore(b: Buffer, whole: seq<Byte>, remaining: int, unitSize: nat, t: Buffer,
                     u: Buffer, left: int, units: seq<seq<Byte>>, end: Outcome<()>, unit: seq<Byte>)
    requires Sound(b, whole) && GatherEffect(b, whole, unitSize, t, Got(unit))
    requires UnitsEffect(t, whole, remaining - unitSize, unitSize, u, left, units, end)
    requires 0 < unitSize <= remaining && 0 <= Position(b)
    ensures UnitsEffect(b, whole, remaining, unitSize, u, left, [unit] + units, end)
  {
    var p, q, r := Position(b), Position(t), Position(u);
    assert whole[p..q] + whole[q..r] == whole[p..r];
    assert ([unit] + units)[1..] == units;
    hide Sound;
  }

  lemma NoUnits(b: Buffer, whole: seq<Byte>, remaining: int, unitSize: nat, t: Buffer, left: int, r: Outcome<seq<Byte>>)
    requires Sound(b, whole) && GatherEffect(b, whole, unitSize, t, r) && !r.Got? && (r.EndOfInput? || r.Diverges?)
    requires (t.ended ==> t.chunks == []) && 0 <= Position(b) <= |whole| && unitSize <= remaining
    ensures UnitsEffect(b, whole, remaining, unitSize, t, left, [], if r.EndOfInput? then EndOfInput else Diverges)
  {
    assert whole[Position(b)..Position(b)] == [];
    hide Sound;
  }

  lemma {:induction false} UnitsEnd(src: Source, remaining: int, unitSize: nat)
    ensures var (t, left, units, end) := TakeUnits(src, remaining, unitSize);
            && (unitSize == 0 && remaining >= 0 ==> end.Diverges?)
            && (end.Got? || end.OddRest? ==> left < unitSize && (end.Got? <==> left == 0))
    decreases if remaining >= 0 then remaining + 1 else 0
  {
    hide TakeN;
    if remaining >= unitSize && unitSize > 0 {
      var (t, left, r) := TakeN(src, remaining, unitSize);
      if r.Got? {
        LeftOver(src, remaining, unitSize);
        UnitsEnd(t, left, unitSize);
      }
    }
  }

  /** Units received already, and then what is left to receive. */
  function Prepend(units: seq<seq<Byte>>, rest: (Source, int, seq<seq<Byte>>, Outcome<()>)): (Source, int, seq<seq<Byte>>, Outcome<()>) {
    (rest.0, rest.1, units + rest.2, rest.3)
  }

  lemma UnitsBegin(src: Source, remaining: int, unitSize: nat)
    ensures Prepend([], TakeUnits(src, remaining, unitSize)) == TakeUnits(src, remaining, unitSize)
  {
    hide TakeUnits;
    assert [] + TakeUnits(src, remaining, unitSize).2 == TakeUnits(src, remaining, unitSize).2;
  }

  /** One turn of iterN. */
  lemma UnitsUnroll(src: Source, remaining: int, unitSize: nat, units: seq<seq<Byte>>)
    ensures var rest := Prepend(units, TakeUnits(src, remaining, unitSize));
            if unitSize == 0 && remaining >= 0 then rest == (src, remaining, units, Diverges)
            else if remaining < unitSize then rest == (src, remaining, units, if remaining != 0 then OddRest else Got(()))
            else
              var (t, left, r) := TakeN(src, remaining, unitSize);
              match r
              case Got(unit) => rest == Prepend(units + [unit], TakeUnits(t, left, unitSize))
              case EndOfInput => rest == (t, left, units, EndOfInput)
              case _ => rest == (t, left, units, Diverges)
  {
    hide TakeN;
    assert units + [] == units;
    if remaining >= unitSize > 0 {
      var (t, left, r) := TakeN(src, remaining, unitSize);
      if r.Got? {
        assert left == remaining - unitSize by { LeftOver(src, remaining, unitSize); }
        var more := TakeUnits(t, left, unitSize).2;
        assert units + ([r.value] + more) == (units + [r.value]) + more;
      }
    }
  }

  /** The units are equal pieces of `bytes`, in order and without a gap. */
  ghost predicate CutsInto(bytes: seq<Byte>, units: seq<seq<Byte>>, unitSize: nat) {
    Flatten(units) == bytes && forall i :: 0 <= i < |units| ==> |units[i]| == unitSize
  }

  lemma {:induction false} GatherNeverRefuses(b: Buffer, needed: int)
    ensures Gather(b, needed).1.Got? || Gather(b, needed).1.EndOfInput? || Gather(b, needed).1.Diverges?
    decreases |b.chunks|
  {
    hide JsSlice, Pump;
    if |b.buffered| - b.offset < needed && !b.ended && b.chunks != [] {
      PumpDelivers(b);
      GatherNeverRefuses(Pump(b), needed);
    }
  }

  lemma PumpDelivers(b: Buffer)
    requires b.chunks != []
    ensures |Pump(b).chunks| < |b.chunks| && Pump(b).chunks == b.chunks[1..]
  {
  }

  lemma PositionInRange(b: Buffer, whole: seq<Byte>)
    requires Sound(b, whole)
    ensures 0 <= Position(b) <= |whole|
  {
    assert |whole[b.totalOffset..]| == |b.buffered| + |Flatten(b.chunks)|;
  }
}
