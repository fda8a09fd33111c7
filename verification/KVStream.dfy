/**
 * Streams of key/value entries: golang/cosmos/types/kv_entry.go and
 * kv_entry_helpers.go. An entry's value may be missing, which is not the same as
 * empty.
 */
module KVStream {
  import opened Wrappers
  import opened JsonText

  datatype KVEntry = KVEntry(key: string, value: Option<string>)

  datatype KVError =
    | CannotBeNull
    | BadLength(n: nat)
    | BadKey
    | CannotMarshal
    | ReaderClosed
    | OutOfBounds
    | EmptyIteratorKey
    | Source(why: string)
    | BadJson

  predicate IsValidKey(e: KVEntry) { e.key != "" }

  /** UnmarshalJSON, from the array of nullable strings it decodes first; null decodes to none. */
  function Unmarshal(generic: Option<seq<Option<string>>>): Result<KVEntry, KVError> {
    if generic.None? then Err(CannotBeNull)
    else if |generic.value| != 1 && |generic.value| != 2 then Err(BadLength(|generic.value|))
    else
      var key := generic.value[0];
      if key.None? || key.value == "" then Err(BadKey)
      else Ok(KVEntry(key.value, if |generic.value| == 2 then generic.value[1] else None))
  }

  /** MarshalJSON, up to the strings of the array it writes. */
  function Marshal(e: KVEntry): Result<seq<string>, KVError> {
    if !IsValidKey(e) then Err(CannotMarshal)
    else if e.value.Some? then Ok([e.key, e.value.value])
    else Ok([e.key])
  }

  /** Unmarshalling what was marshalled gives the entry back, so missing and empty values stay apart. */
  lemma MarshalRoundTrip(e: KVEntry)
    ensures Marshal(e).Ok? <==> IsValidKey(e)
    ensures Marshal(e).Ok? ==> Marshal(e).value != [] && Unmarshal(Some(Strings(Marshal(e).value))) == Ok(e)
    ensures Marshal(KVEntry(e.key, None)) == Marshal(KVEntry(e.key, Some(""))) ==> !IsValidKey(e)
  {
  }

  /** What unmarshals, and what it marshals back to: the same array, except that a null value is dropped. */
  lemma UnmarshalAccepts(generic: Option<seq<Option<string>>>)
    ensures Unmarshal(generic).Ok? <==>
            generic.Some? && 1 <= |generic.value| <= 2 && generic.value[0].Some? && generic.value[0].value != ""
    ensures Unmarshal(generic).Ok? ==>
              && IsValidKey(Unmarshal(generic).value)
              && (Strings(Marshal(Unmarshal(generic).value).value) == generic.value
                  <==> |generic.value| == 1 || generic.value[1].Some?)
              && (Unmarshal(generic).value.value.None? <==> |generic.value| == 1 || generic.value[1].None?)
              && Some(Unmarshal(generic).value.key) == generic.value[0]
    ensures Unmarshal(generic).Err? ==>
              Unmarshal(generic).error
              == if generic.None? then CannotBeNull
                 else if 1 <= |generic.value| <= 2 then BadKey else BadLength(|generic.value|)
  {
  }

  // ----------------------------------------------------------------- readers

  datatype ReadResult = Entry(entry: KVEntry) | EndOfFile | Failed(error: KVError)

  /** kvEntriesReader: a slice, possibly nil, read through a conversion. Closing it drops the slice. */
  class EntriesReader<T> {
    var entries: Option<seq<T>>
    const toKVEntry: T -> Result<KVEntry, KVError>
    var nextIndex: nat

    constructor (entries: Option<seq<T>>, toKVEntry: T -> Result<KVEntry, KVError>)
      ensures this.entries == entries && this.toKVEntry == toKVEntry && nextIndex == SliceIndex(entries, 0)
    {
      this.entries, this.toKVEntry, nextIndex := entries, toKVEntry, 0;
    }

    /** After k reads, the next one is read k of SliceReads, and leaves the reader as after k + 1 reads. */
    method Read() returns (r: ReadResult)
      modifies this`nextIndex
      ensures r == ReadAt(entries, toKVEntry, old(nextIndex))
      ensures nextIndex == if entries.Some? && old(nextIndex) <= |entries.value| then old(nextIndex) + 1 else old(nextIndex)
      ensures forall k: nat :: old(nextIndex) == SliceIndex(entries, k) ==>
                r == SliceReads(entries, toKVEntry)(k) && nextIndex == SliceIndex(entries, k + 1)
    {
      if entries.None? { return Failed(ReaderClosed); }
      var length := |entries.value|;
      if nextIndex < length {
        var entry := toKVEntry(entries.value[nextIndex]);
        nextIndex := nextIndex + 1;
        if entry.Err? { return Failed(entry.error); }
        if !IsValidKey(entry.value) { return Failed(BadKey); }
        return Entry(entry.value);
      } else if nextIndex == length {
        nextIndex := nextIndex + 1;
        return EndOfFile;
      } else {
        return Failed(OutOfBounds);
      }
    }

    method Close()
      modifies this`entries
      ensures entries == None
    {
      entries := None;
    }
  }

  function ReadAt<T>(entries: Option<seq<T>>, toKVEntry: T -> Result<KVEntry, KVError>, k: nat): ReadResult {
    if entries.None? then Failed(ReaderClosed)
    else if k < |entries.value| then
      match toKVEntry(entries.value[k])
      case Err(why) => Failed(why)
      case Ok(e) => if IsValidKey(e) then Entry(e) else Failed(BadKey)
    else if k == |entries.value| then EndOfFile
    else Failed(OutOfBounds)
  }

  /** A pair yielded by an iterator; a nil value is missing. */
  class IteratorReader {
    const pairs: seq<(string, Option<string>)>
    var position: nat

    constructor (pairs: seq<(string, Option<string>)>)
      ensures this.pairs == pairs && position == 0
    {
      this.pairs, position := pairs, 0;
    }

    /** An empty key is reported without advancing, so it is reported for ever. */
    method Read() returns (r: ReadResult)
      modifies this`position
      ensures r == IterateAt(pairs, old(position))
      ensures position == if r.Entry? then old(position) + 1 else old(position)
    {
      if position >= |pairs| { return EndOfFile; }
      var (key, value) := pairs[position];
      if |key| == 0 { return Failed(EmptyIteratorKey); }
      position := position + 1;
      return Entry(KVEntry(key, value));
    }
  }

  function IterateAt(pairs: seq<(string, Option<string>)>, k: nat): ReadResult {
    if k >= |pairs| then EndOfFile
    else if |pairs[k].0| == 0 then Failed(EmptyIteratorKey)
    else Entry(KVEntry(pairs[k].0, pairs[k].1))
  }

  // ---------------------------------------- readers as their successive reads

  /** A reader is known by the result of each read, the first of them at 0. */
  type Reads = nat -> ReadResult

  function SliceReads<T>(entries: Option<seq<T>>, toKVEntry: T -> Result<KVEntry, KVError>): Reads {
    (k: nat) => ReadAt(entries, toKVEntry, k)
  }

  /** Where a slice reader stands after k reads: at the k-th element, up to one past the end; a nil slice stays closed. */
  function SliceIndex<T>(entries: Option<seq<T>>, k: nat): nat {
    if entries.None? then 0 else if k <= |entries.value| then k else |entries.value| + 1
  }

  /** Where an iterator reader stops advancing: at the first empty key, or at the end. */
  function Stop(pairs: seq<(string, Option<string>)>): (k: nat)
    ensures k <= |pairs| && (forall j :: 0 <= j < k ==> pairs[j].0 != "") && (k < |pairs| ==> pairs[k].0 == "")
  {
    if pairs == [] || pairs[0].0 == "" then 0 else 1 + Stop(pairs[1..])
  }

  function IteratorReads(pairs: seq<(string, Option<string>)>): Reads {
    (k: nat) => IterateAt(pairs, if k < Stop(pairs) then k else Stop(pairs))
  }

  /** The position of an iterator reader after k reads, and how the next read moves it. */
  lemma IteratorReadsInTurn(pairs: seq<(string, Option<string>)>, k: nat)
    ensures var at := if k < Stop(pairs) then k else Stop(pairs);
            var next := if k + 1 < Stop(pairs) then k + 1 else Stop(pairs);
            && IteratorReads(pairs)(k) == IterateAt(pairs, at)
            && next == (if IterateAt(pairs, at).Entry? then at + 1 else at)
    ensures !IteratorReads(pairs)(Stop(pairs)).Entry?
  {
    var stop := Stop(pairs);
    assert IteratorReads(pairs)(stop) == IterateAt(pairs, stop);
    assert stop < |pairs| ==> pairs[stop].0 == "";
  }

  /** What onRead makes of a read: it sees each entry read, and may turn it into an error. */
  function Hooked(r: ReadResult, onRead: KVEntry -> Result<(), KVError>): ReadResult {
    if r.Entry? && onRead(r.entry).Err? then Failed(onRead(r.entry).error) else r
  }

  function HookedReads(source: Reads, onRead: KVEntry -> Result<(), KVError>): Reads {
    (k: nat) => Hooked(source(k), onRead)
  }

  /** kvHookingReader over any reader. */
  class HookingReader {
    const source: Reads
    const closeSource: () -> Result<(), KVError>
    const onRead: KVEntry -> Result<(), KVError>
    const onClose: () -> Result<(), KVError>
    var position: nat

    constructor (source: Reads, closeSource: () -> Result<(), KVError>,
                 onRead: KVEntry -> Result<(), KVError>, onClose: () -> Result<(), KVError>)
      ensures this.source == source && this.closeSource == closeSource && this.onRead == onRead && this.onClose == onClose
      ensures position == 0
    {
      this.source, this.closeSource, this.onRead, this.onClose, position := source, closeSource, onRead, onClose, 0;
    }

    method Read() returns (next: ReadResult)
      modifies this`position
      ensures next == HookedReads(source, onRead)(old(position)) && position == old(position) + 1
      ensures var read := source(old(position));
              && (next.Entry? ==> next == read && onRead(next.entry).Ok?)
              && (!read.Entry? ==> next == read)
              && (read.Entry? && !next.Entry? ==> onRead(read.entry).Err? && next == Failed(onRead(read.entry).error))
    {
      next := source(position);
      position := position + 1;
      if next.Entry? {
        var seen := onRead(next.entry);
        if seen.Err? { return Failed(seen.error); }
      }
    }

    /** onClose is asked only when the source closed. */
    method Close() returns (r: Result<(), KVError>)
      ensures closeSource().Err? ==> r == closeSource()
      ensures closeSource().Ok? ==> r == onClose()
    {
      r := closeSource();
      if r.Ok? { r := onClose(); }
    }
  }

  // ---------------------------------------------------------------- encoding

  /** One line of the stream. */
  function LineOf(style: Style, e: KVEntry): string
    requires IsStyle(style) && IsValidKey(e)
  {
    WriteArray(style, Marshal(e).value) + "\n"
  }

  function Lines(style: Style, entries: seq<KVEntry>): string
    requires IsStyle(style) && forall e :: e in entries ==> IsValidKey(e)
  {
    if entries == [] then "" else LineOf(style, entries[0]) + Lines(style, entries[1..])
  }

  lemma {:induction false} LinesAppend(style: Style, entries: seq<KVEntry>, e: KVEntry)
    requires IsStyle(style) && IsValidKey(e) && forall x :: x in entries ==> IsValidKey(x)
    ensures forall x :: x in entries + [e] ==> IsValidKey(x)
    ensures Lines(style, entries + [e]) == Lines(style, entries) + LineOf(style, e)
    decreases |entries|
  {
    hide LineOf, IsStyle, IsValidKey;
    if entries == [] {
      assert [] + [e] == [e] && [e][1..] == [];
      assert LineOf(style, e) + "" == LineOf(style, e);
    } else {
      LinesAppend(style, entries[1..], e);
      assert (entries + [e])[1..] == entries[1..] + [e];
      assert LineOf(style, entries[0]) + (Lines(style, entries[1..]) + LineOf(style, e))
             == (LineOf(style, entries[0]) + Lines(style, entries[1..])) + LineOf(style, e);
    }
  }

  /** The entries with a valid key that a reader yields before it first does anything else. */
  function Yield(read: Reads, k: nat, end: nat): seq<KVEntry>
    decreases end - k
  {
    if k >= end then []
    else
      match read(k)
      case Entry(e) => if IsValidKey(e) then [e] + Yield(read, k + 1, end) else []
      case _ => []
  }

  lemma YieldUnroll(read: Reads, end: nat, done: seq<KVEntry>)
    requires |done| <= end && !read(end).Entry?
    ensures var r := read(|done|);
            && (r.Entry? ==> |done| < end)
            && (r.Entry? && IsValidKey(r.entry) ==>
                  done + Yield(read, |done|, end) == (done + [r.entry]) + Yield(read, |done| + 1, end))
            && (!r.Entry? || !IsValidKey(r.entry) ==> done + Yield(read, |done|, end) == done)
  {
  }

  /** What a reader yields is each of its reads in order, up to the first that is not an entry with a valid key. */
  lemma {:induction false} YieldEach(read: Reads, k: nat, end: nat)
    requires k <= end
    ensures var y := Yield(read, k, end);
            && k + |y| <= end
            && (forall j :: 0 <= j < |y| ==> read(k + j) == Entry(y[j]) && IsValidKey(y[j]))
            && (k + |y| < end ==> !read(k + |y|).Entry? || !IsValidKey(read(k + |y|).entry))
    decreases end - k
  {
    hide IsValidKey;
    var y := Yield(read, k, end);
    if y != [] {
      YieldEach(read, k + 1, end);
      forall j | 0 <= j < |y| ensures read(k + j) == Entry(y[j]) && IsValidKey(y[j]) {
        if j > 0 { assert y[j] == y[1..][j - 1] && read(k + j) == read(k + 1 + (j - 1)); }
      }
    }
  }

  /**
   * A slice reader yields its elements converted, up to the first that does not
   * convert to an entry with a valid key; a nil slice yields nothing but an error.
   */
  lemma SliceYields<T>(entries: Option<seq<T>>, toKVEntry: T -> Result<KVEntry, KVError>, end: nat)
    requires entries.Some? ==> end == |entries.value|
    ensures var read := SliceReads(entries, toKVEntry);
            var y := Yield(read, 0, end);
            if entries.None? then y == [] && forall k: nat :: read(k) == Failed(ReaderClosed)
            else
              && |y| <= |entries.value|
              && (forall j :: 0 <= j < |y| ==> toKVEntry(entries.value[j]) == Ok(y[j]) && IsValidKey(y[j]))
              && (|y| < |entries.value| ==> toKVEntry(entries.value[|y|]).Err? || !IsValidKey(toKVEntry(entries.value[|y|]).value))
              && (|y| < |entries.value| ==>
                    read(|y|) == Failed(if toKVEntry(entries.value[|y|]).Err? then toKVEntry(entries.value[|y|]).error else BadKey))
              && (|y| == |entries.value| ==> read(|y|) == EndOfFile)
              && (forall k: nat :: k > |entries.value| ==> read(k) == Failed(OutOfBounds))
  {
    var read := SliceReads(entries, toKVEntry);
    YieldEach(read, 0, end);
    hide IsValidKey;
    var y := Yield(read, 0, end);
    forall j | 0 <= j < |y| ensures entries.Some? && toKVEntry(entries.value[j]) == Ok(y[j]) && IsValidKey(y[j]) {
      assert read(0 + j) == Entry(y[j]);
      assert read(j) == ReadAt(entries, toKVEntry, j);
    }
    assert read(|y|) == ReadAt(entries, toKVEntry, |y|);
  }

  /** An iterator reader yields its pairs up to the first empty key. */
  lemma IteratorYields(pairs: seq<(string, Option<string>)>)
    ensures var y := Yield(IteratorReads(pairs), 0, |pairs|);
            && |y| <= |pairs|
            && (forall j :: 0 <= j < |y| ==> y[j] == KVEntry(pairs[j].0, pairs[j].1) && pairs[j].0 != "")
            && (|y| < |pairs| ==> pairs[|y|].0 == "")
            && (forall k: nat :: k >= |y| ==>
                  IteratorReads(pairs)(k) == if |y| == |pairs| then EndOfFile else Failed(EmptyIteratorKey))
  {
    var read := IteratorReads(pairs);
    YieldEach(read, 0, |pairs|);
    var y := Yield(read, 0, |pairs|);
    forall j | 0 <= j < |y| ensures j < Stop(pairs) && y[j] == KVEntry(pairs[j].0, pairs[j].1) && pairs[j].0 != "" {
      assert read(0 + j) == Entry(y[j]);
      IteratorReadsInTurn(pairs, j);
    }
    IteratorReadsInTurn(pairs, |y|);
    assert |y| > 0 ==> |y| - 1 < Stop(pairs);
    assert |y| == Stop(pairs);
    forall k: nat | k >= |y| ensures read(k) == if |y| == |pairs| then EndOfFile else Failed(EmptyIteratorKey) {
      IteratorReadsInTurn(pairs, k);
    }
  }

  /** A hooked reader yields what its source does, up to the first entry that the hook refuses. */
  lemma {:induction false} HookedYields(source: Reads, onRead: KVEntry -> Result<(), KVError>, k: nat, end: nat)
    ensures var y, all := Yield(HookedReads(source, onRead), k, end), Yield(source, k, end);
            && y <= all
            && (forall e :: e in y ==> onRead(e).Ok?)
            && (|y| < |all| ==> onRead(all[|y|]).Err?)
    decreases end - k
  {
    hide IsValidKey;
    if k < end {
      assert HookedReads(source, onRead)(k) == Hooked(source(k), onRead);
      HookedYields(source, onRead, k + 1, end);
    }
  }

  /**
   * EncodeKVEntryReaderToJsonl over any reader that ends or fails some time, at
   * the latest at read `end`: a line for each entry until then, and the error.
   */
  method EncodeToJsonl(read: Reads, ghost end: nat, style: Style) returns (text: string, err: Option<KVError>)
    requires IsStyle(style) && !read(end).Entry?
    ensures forall e :: e in Yield(read, 0, end) ==> IsValidKey(e)
    ensures text == Lines(style, Yield(read, 0, end))
    ensures err == match read(|Yield(read, 0, end)|)
                   case Failed(why) => Some(why)
                   case Entry(_) => Some(CannotMarshal)
                   case EndOfFile => None
  {
    hide IsStyle, LineOf, IsValidKey, Yield, Lines;
    text, err := "", None;
    ghost var done: seq<KVEntry> := [];
    ghost var all := Yield(read, 0, end);
    assert [] + all == all;
    NoLines(style);
    var position := 0;
    while true
      invariant position == |done| <= end
      invariant forall e :: e in done ==> IsValidKey(e)
      invariant text == Lines(style, done)
      invariant all == done + Yield(read, |done|, end)
      decreases end - |done|
    {
      YieldUnroll(read, end, done);
      var r := read(position);
      position := position + 1;
      match r {
        case EndOfFile => return;
        case Failed(why) => err := Some(why); return;
        case Entry(entry) =>
          MarshalRoundTrip(entry);
          var items := Marshal(entry);
          if items.Err? { err := Some(CannotMarshal); return; }
          LinesAppend(style, done, entry);
          text := text + LineOf(style, entry);
          done := done + [entry];
      }
    }
  }

  lemma NoLines(style: Style)
    requires IsStyle(style)
    ensures Lines(style, []) == ""
  {
  }

  // ---------------------------------------------------------------- decoding

  /** jsonlKVEntryDecoderReader: the next value of the text. A value that is not an entry is consumed. */
  function Decode(text: string): (ReadResult, string) {
    var t := SkipSpace(text);
    if t == [] then (EndOfFile, t)
    else
      match ReadValue(t)
      case None => (Failed(BadJson), t)
      case Some((generic, rest)) =>
        (match Unmarshal(generic) case Ok(e) => Entry(e) case Err(why) => Failed(why), rest)
  }

  ghost predicate StartsWithLine(text: string, style: Style, lead: string, e: KVEntry, rest: string) {
    IsStyle(style) && IsValidKey(e) && (lead == "" || lead == "\n") && text == lead + (LineOf(style, e) + rest)
  }

  class DecoderReader {
    var text: string

    constructor (text: string)
      ensures this.text == text
    {
      this.text := text;
    }

    /**
     * The next value. At a line that the encoder wrote, possibly after the line
     * feed of the line before, that is its entry, and what follows is left; where
     * only white space is left, the stream has ended.
     */
    method Read() returns (next: ReadResult)
      modifies this
      ensures (next, text) == Decode(old(text))
      ensures forall style, lead, e, rest :: StartsWithLine(old(text), style, lead, e, rest) ==> next == Entry(e) && text == "\n" + rest
      ensures SkipSpace(old(text)) == "" <==> next == EndOfFile
    {
      forall style, lead, e, rest | StartsWithLine(text, style, lead, e, rest)
        ensures Decode(text) == (Entry(e), "\n" + rest)
      {
        LineReadsBack(style, lead, e, rest);
      }
      var (r, rest) := Decode(text);
      text := rest;
      return r;
    }
  }

  function DecodeAt(text: string, k: nat): ReadResult
    decreases k
  {
    if k == 0 then Decode(text).0 else DecodeAt(Decode(text).1, k - 1)
  }

  function DecoderReads(text: string): Reads {
    (k: nat) => DecodeAt(text, k)
  }

  lemma DecodeShortens(text: string)
    ensures Decode(text).0.Entry? ==> |Decode(text).1| < |text|
  {
    ReadValueShortens(SkipSpace(text));
  }

  /** A decoder yields at most as many entries as its text has characters. */
  lemma {:induction false} DecoderEnds(text: string) returns (end: nat)
    ensures end <= |text| && !DecoderReads(text)(end).Entry?
    decreases |text|
  {
    if Decode(text).0.Entry? {
      DecodeShortens(text);
      var rest := DecoderEnds(Decode(text).1);
      end := rest + 1;
      assert DecodeAt(text, end) == DecodeAt(Decode(text).1, rest);
    } else {
      end := 0;
    }
  }

  /** The results of n reads. */
  function DecodeMany(text: string, n: nat): seq<ReadResult>
    decreases n
  {
    if n == 0 then []
    else
      var (r, rest) := Decode(text);
      [r] + DecodeMany(rest, n - 1)
  }

  ghost function EntriesThenEnd(entries: seq<KVEntry>): seq<ReadResult> {
    if entries == [] then [EndOfFile] else [Entry(entries[0])] + EntriesThenEnd(entries[1..])
  }

  /** `lead` is what the line before left unread: nothing, or its line feed. */
  lemma LineReadsBack(style: Style, lead: string, e: KVEntry, rest: string)
    requires IsStyle(style) && IsValidKey(e) && (lead == "" || lead == "\n")
    ensures Decode(lead + (LineOf(style, e) + rest)) == (Entry(e), "\n" + rest)
  {
    MarshalRoundTrip(e);
    var items := Marshal(e).value;
    ArrayReadsBack(style, items, "\n" + rest);
    hide WriteArray, ReadValue, Unmarshal, Marshal, IsStyle, IsValidKey, Decode;
    DecodeArray(lead, WriteArray(style, items), "\n" + rest, Strings(items));
    assert LineOf(style, e) + rest == WriteArray(style, items) + ("\n" + rest);
  }

  lemma DecodeArray(lead: string, written: string, tail: string, generic: seq<Option<string>>)
    requires written != "" && written[0] == '[' && (lead == "" || lead == "\n")
    requires ReadValue(written + tail) == Some((Some(generic), tail))
    ensures Decode(lead + (written + tail))
            == (match Unmarshal(Some(generic)) case Ok(e) => Entry(e) case Err(why) => Failed(why), tail)
  {
    hide ReadValue, Unmarshal;
    var t := written + tail;
    assert t[0] == '[' && SkipSpace(t) == t;
    if lead == "" {
      assert lead + t == t;
    } else {
      assert (lead + t)[1..] == t;
      assert SkipSpace(lead + t) == t;
    }
  }

  /** Text that stands for a value, after any white space, decodes as what the value unmarshals to, whatever follows. */
  lemma DecodeComplete(blank: string, w: string, value: Option<seq<Option<string>>>, rest: string)
    requires Blank(blank) && ValueText(w, value)
    ensures Decode(blank + (w + rest)) == (match Unmarshal(value) case Ok(e) => Entry(e) case Err(why) => Failed(why), rest)
  {
    hide ReadValue, Unmarshal, ValueText, Blank, SkipSpace;
    ReadValueComplete(w, value, rest);
    assert (w + rest)[0] == w[0];
    SkipsAllBlank(blank, w + rest);
  }

  /** And nothing else decodes: the end means only white space is left, and a refusal that no value comes next. */
  lemma DecodeSound(text: string) returns (blank: string, w: string)
    ensures Decode(text).0 == EndOfFile <==> Blank(text)
    ensures Decode(text).0 != EndOfFile && Decode(text).0 != Failed(BadJson) ==>
              && text == blank + (w + Decode(text).1) && Blank(blank)
              && exists value :: ValueText(w, value)
                                 && Decode(text).0 == (match Unmarshal(value) case Ok(e) => Entry(e) case Err(why) => Failed(why))
    ensures Decode(text).0 == Failed(BadJson) ==>
              forall b, v, value, rest :: Blank(b) && ValueText(v, value) ==> text != b + (v + rest)
  {
    EndIsBlank(text);
    UnmarshalReadsJson();
    hide ReadValue, Unmarshal, ValueText, Blank, SkipSpace;
    blank := SkipsBlank(text);
    w := "";
    var t := SkipSpace(text);
    if ReadValue(t).Some? && t != [] {
      w := ReadValueSound(t);
    }
    if Decode(text).0 == Failed(BadJson) {
      forall b, v, value, rest | Blank(b) && ValueText(v, value) ensures text != b + (v + rest) {
        DecodeComplete(b, v, value, rest);
      }
    }
  }

  lemma EndIsBlank(text: string)
    ensures SkipSpace(text) == "" <==> Blank(text)
  {
    var w := SkipsBlank(text);
    if SkipSpace(text) == "" { assert text == w; }
    if Blank(text) {
      SkipsAllBlank(text, "");
      assert text + "" == text;
    }
  }

  lemma UnmarshalReadsJson()
    ensures forall value :: Unmarshal(value) != Err(BadJson)
  {
  }

  lemma DecodeOne(text: string, n: nat)
    ensures DecodeMany(text, n + 1) == [Decode(text).0] + DecodeMany(Decode(text).1, n)
  {
  }

  lemma {:induction false} LinesReadBack(style: Style, lead: string, entries: seq<KVEntry>)
    requires IsStyle(style) && (lead == "" || lead == "\n") && forall e :: e in entries ==> IsValidKey(e)
    ensures DecodeMany(lead + Lines(style, entries), |entries| + 1) == EntriesThenEnd(entries)
    decreases |entries|
  {
    if entries == [] {
      assert lead + "" == lead && SkipSpace(lead) == [];
      DecodeOne(lead, 0);
    } else {
      hide Decode, LineOf, IsStyle, IsValidKey;
      var e, rest := entries[0], Lines(style, entries[1..]);
      LineReadsBack(style, lead, e, rest);
      DecodeOne(lead + (LineOf(style, e) + rest), |entries|);
      LinesReadBack(style, "\n", entries[1..]);
    }
  }

  /**
   * The stream round trip. Decoding the lines of any entries with valid keys, in
   * whatever escapes they were written, yields those entries in order and then the
   * end of the stream.
   */
  lemma StreamRoundTrip(style: Style, entries: seq<KVEntry>)
    requires IsStyle(style) && forall e :: e in entries ==> IsValidKey(e)
    ensures DecodeMany(Lines(style, entries), |entries| + 1) == EntriesThenEnd(entries)
  {
    LinesReadBack(style, "", entries);
    assert "" + Lines(style, entries) == Lines(style, entries);
  }

  /**
   * Encoding any reader and decoding the text: the sequence the reader yielded,
   * whether it reads a slice, an iterator, another stream or through a hook.
   */
  lemma ReaderRoundTrip(read: Reads, end: nat, style: Style)
    requires IsStyle(style)
    ensures forall e :: e in Yield(read, 0, end) ==> IsValidKey(e)
    ensures DecodeMany(Lines(style, Yield(read, 0, end)), |Yield(read, 0, end)| + 1) == EntriesThenEnd(Yield(read, 0, end))
  {
    YieldsValidKeys(read, 0, end);
    hide IsValidKey, IsStyle, Yield, Lines;
    StreamRoundTrip(style, Yield(read, 0, end));
  }

  lemma {:induction false} YieldsValidKeys(read: Reads, k: nat, end: nat)
    ensures forall e :: e in Yield(read, k, end) ==> IsValidKey(e)
    decreases end - k
  {
    if k < end { YieldsValidKeys(read, k + 1, end); }
  }

  /** Read k of a decoder over written lines is entry k, and after the last the end. */
  lemma {:induction false} DecoderYields(style: Style, lead: string, entries: seq<KVEntry>, k: nat)
    requires IsStyle(style) && (lead == "" || lead == "\n") && forall e :: e in entries ==> IsValidKey(e)
    requires k <= |entries|
    ensures DecodeAt(lead + Lines(style, entries), k) == if k < |entries| then Entry(entries[k]) else EndOfFile
    decreases k
  {
    if entries == [] {
      assert lead + "" == lead && SkipSpace(lead) == [];
    } else {
      var e, rest := entries[0], Lines(style, entries[1..]);
      assert LineOf(style, e) + rest == Lines(style, entries);
      hide Decode, LineOf, IsStyle, IsValidKey, Lines;
      LineReadsBack(style, lead, e, rest);
      if k > 0 { DecoderYields(style, "\n", entries[1..], k - 1); }
    }
  }
}
