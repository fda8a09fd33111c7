/**
 * JSON text of arrays of strings, as the KVEntry stream needs it: strings as in
 * section 7 of RFC 8259. Which of the permitted escapes a writer uses is left
 * open; every choice reads back the same.
 */
module JsonText {
  import opened Wrappers

  datatype EscapeStyle = Verbatim | Short | Hex

  /** How a writer writes each character. */
  type Style = char -> EscapeStyle

  predicate MustEscape(c: char) { c == '\"' || c == '\\' || c as int < 0x20 }

  function ShortLetter(c: char): Option<char> {
    if c == '\"' then Some('\"')
    else if c == '\\' then Some('\\')
    else if c == '/' then Some('/')
    else if c as int == 8 then Some('b')
    else if c as int == 12 then Some('f')
    else if c == '\n' then Some('n')
    else if c == '\r' then Some('r')
    else if c == '\t' then Some('t')
    else None
  }

  function FromShortLetter(l: char): Option<char> {
    if l == '\"' then Some('\"')
    else if l == '\\' then Some('\\')
    else if l == '/' then Some('/')
    else if l == 'b' then Some(8 as char)
    else if l == 'f' then Some(12 as char)
    else if l == 'n' then Some('\n')
    else if l == 'r' then Some('\r')
    else if l == 't' then Some('\t')
    else None
  }

  /** Quotes, backslashes and control characters are escaped, each in a form it has. */
  ghost predicate IsStyle(style: Style) {
    forall c :: && (MustEscape(c) ==> style(c) != Verbatim)
                && (style(c) == Short ==> ShortLetter(c).Some?)
                && (style(c) == Hex ==> c as int < 0x1_0000)
  }

  function HexDigit(n: nat): char
    requires n < 16
  {
    if n < 10 then (n + '0' as int) as char else (n - 10 + 'a' as int) as char
  }

  function FromHexDigit(c: char): Option<nat> {
    if '0' <= c <= '9' then Some(c as int - '0' as int)
    else if 'a' <= c <= 'f' then Some(c as int - 'a' as int + 10)
    else if 'A' <= c <= 'F' then Some(c as int - 'A' as int + 10)
    else None
  }

  function Escape(style: Style, c: char): string
    requires style(c) == Short ==> ShortLetter(c).Some?
    requires style(c) == Hex ==> c as int < 0x1_0000
  {
    match style(c)
    case Verbatim => [c]
    case Short => ['\\', ShortLetter(c).value]
    case Hex =>
      var n := c as int;
      ['\\', 'u', HexDigit(n / 4096), HexDigit(n / 256 % 16), HexDigit(n / 16 % 16), HexDigit(n % 16)]
  }

  function WriteChars(style: Style, s: string): string
    requires IsStyle(style)
  {
    if s == [] then [] else Escape(style, s[0]) + WriteChars(style, s[1..])
  }

  function WriteString(style: Style, s: string): string
    requires IsStyle(style)
  {
    "\"" + WriteChars(style, s) + "\""
  }

  /** An array of one or more strings on one line. */
  function WriteArray(style: Style, items: seq<string>): string
    requires IsStyle(style) && items != []
  {
    "[" + WriteItems(style, items) + "]"
  }

  function WriteItems(style: Style, items: seq<string>): string
    requires IsStyle(style) && items != []
  {
    WriteString(style, items[0]) + if |items| == 1 then "" else "," + WriteItems(style, items[1..])
  }

  // ----------------------------------------------------------------- reading

  /** One character of a string, and what follows it. An escaped surrogate half is not read here. */
  function ReadChar(t: string): Option<(char, string)> {
    if t == [] || (MustEscape(t[0]) && t[0] != '\\') then None
    else if t[0] != '\\' then Some((t[0], t[1..]))
    else if |t| < 2 then None
    else if t[1] != 'u' then
      var c := FromShortLetter(t[1]);
      if c.None? then None else Some((c.value, t[2..]))
    else if |t| < 6 then None
    else
      var a, b, c, d := FromHexDigit(t[2]), FromHexDigit(t[3]), FromHexDigit(t[4]), FromHexDigit(t[5]);
      if a.None? || b.None? || c.None? || d.None? then None
      else
        var n := ((a.value * 16 + b.value) * 16 + c.value) * 16 + d.value;
        if n < 0xD800 || 0xE000 <= n < 0x1_0000 then Some((n as char, t[6..])) else None
  }

  lemma ReadCharShortens(t: string)
    ensures ReadChar(t).Some? ==> |ReadChar(t).value.1| < |t|
  {
  }

  /** The rest of a string after its opening quote, and what follows the closing one. */
  function ReadChars(t: string): Option<(string, string)>
    decreases |t|
  {
    if t == [] then None
    else if t[0] == '\"' then Some(([], t[1..]))
    else
      var c := ReadChar(t);
      if c.None? then None
      else
        ReadCharShortens(t);
        var rest := ReadChars(c.value.1);
        if rest.None? then None else Some(([c.value.0] + rest.value.0, rest.value.1))
  }

  predicate IsSpace(c: char) { c == ' ' || c == '\t' || c == '\n' || c == '\r' }

  function SkipSpace(t: string): (r: string)
    ensures |r| <= |t|
    ensures r != [] ==> !IsSpace(r[0])
  {
    if t != [] && IsSpace(t[0]) then SkipSpace(t[1..]) else t
  }

  /** A string, or null as None. */
  function ReadItem(t: string): Option<(Option<string>, string)> {
    if |t| >= 4 && t[..4] == "null" then Some((None, t[4..]))
    else if t == [] || t[0] != '\"' then None
    else
      var s := ReadChars(t[1..]);
      if s.None? then None else Some((Some(s.value.0), s.value.1))
  }

  lemma {:induction false} ReadCharsShortens(t: string)
    ensures ReadChars(t).Some? ==> |ReadChars(t).value.1| < |t|
    decreases |t|
  {
    if t != [] && t[0] != '\"' && ReadChar(t).Some? {
      ReadCharShortens(t);
      ReadCharsShortens(ReadChar(t).value.1);
    }
  }

  lemma ReadItemShortens(t: string)
    ensures ReadItem(t).Some? ==> |ReadItem(t).value.1| < |t|
  {
    if t != [] { ReadCharsShortens(t[1..]); }
  }

  /** The items up to the closing bracket. */
  function ReadItems(t: string): Option<(seq<Option<string>>, string)>
    decreases |t|
  {
    var item := ReadItem(SkipSpace(t));
    if item.None? then None
    else
      ReadItemShortens(SkipSpace(t));
      var after := SkipSpace(item.value.1);
      if after == [] then None
      else if after[0] == ']' then Some(([item.value.0], after[1..]))
      else if after[0] != ',' then None
      else
        var rest := ReadItems(after[1..]);
        if rest.None? then None else Some(([item.value.0] + rest.value.0, rest.value.1))
  }

  /** A top-level value: null as None, or an array of strings and nulls. Anything else does not read. */
  function ReadValue(t: string): Option<(Option<seq<Option<string>>>, string)> {
    if |t| >= 4 && t[..4] == "null" then Some((None, t[4..]))
    else if t == [] || t[0] != '[' then None
    else
      var after := SkipSpace(t[1..]);
      if after != [] && after[0] == ']' then Some((Some([]), after[1..]))
      else
        var items := ReadItems(t[1..]);
        if items.None? then None else Some((Some(items.value.0), items.value.1))
  }

  lemma {:induction false} ReadItemsShortens(t: string)
    ensures ReadItems(t).Some? ==> |ReadItems(t).value.1| < |t|
    decreases |t|
  {
    var item := ReadItem(SkipSpace(t));
    if item.Some? {
      ReadItemShortens(SkipSpace(t));
      var after := SkipSpace(item.value.1);
      if after != [] { ReadItemsShortens(after[1..]); }
    }
  }

  lemma ReadValueShortens(t: string)
    ensures ReadValue(t).Some? ==> |ReadValue(t).value.1| < |t|
  {
    if t != [] { ReadItemsShortens(t[1..]); }
  }

  // -------------------------------------------------------------- round trip

  lemma HexRoundTrip(n: nat)
    requires n < 16
    ensures FromHexDigit(HexDigit(n)) == Some(n)
  {
  }

  lemma HexDigitsSum(n: nat)
    requires n < 0x1_0000
    ensures ((n / 4096 * 16 + n / 256 % 16) * 16 + n / 16 % 16) * 16 + n % 16 == n
    ensures n / 4096 < 16
  {
  }

  lemma EscapeReadsBack(style: Style, c: char, rest: string)
    requires IsStyle(style)
    ensures ReadChar(Escape(style, c) + rest) == Some((c, rest))
    ensures Escape(style, c) != [] && Escape(style, c)[0] != '\"'
  {
    var t := Escape(style, c) + rest;
    match style(c)
    case Verbatim => assert t[1..] == rest;
    case Short => assert t[2..] == rest;
    case Hex =>
      var n := c as int;
      HexDigitsSum(n);
      HexRoundTrip(n / 4096);
      HexRoundTrip(n / 256 % 16);
      HexRoundTrip(n / 16 % 16);
      HexRoundTrip(n % 16);
      assert t[6..] == rest;
  }

  lemma {:induction false} StringReadsBack(style: Style, s: string, rest: string)
    requires IsStyle(style)
    ensures ReadChars(WriteChars(style, s) + "\"" + rest) == Some((s, rest))
    decreases |s|
  {
    var t := WriteChars(style, s) + "\"" + rest;
    if s == [] {
      assert t == "\"" + rest && t[1..] == rest;
    } else {
      var tail := WriteChars(style, s[1..]) + "\"" + rest;
      assert t == Escape(style, s[0]) + tail;
      EscapeReadsBack(style, s[0], tail);
      assert t[0] == Escape(style, s[0])[0];
      hide *;
      StringReadsBack(style, s[1..], rest);
      ReadCharsUnroll(t, s[0], tail);
      assert [s[0]] + s[1..] == s;
    }
  }

  lemma ItemReadsBack(style: Style, s: string, rest: string)
    requires IsStyle(style)
    ensures ReadItem(WriteString(style, s) + rest) == Some((Some(s), rest))
    ensures (WriteString(style, s) + rest)[0] == '\"'
  {
    var t := WriteString(style, s) + rest;
    assert t[1..] == WriteChars(style, s) + "\"" + rest;
    StringReadsBack(style, s, rest);
  }

  function Strings(items: seq<string>): (r: seq<Option<string>>)
    ensures |r| == |items| && forall i :: 0 <= i < |items| ==> r[i] == Some(items[i])
  {
    if items == [] then [] else [Some(items[0])] + Strings(items[1..])
  }

  lemma {:induction false} ItemsReadBack(style: Style, items: seq<string>, rest: string)
    requires IsStyle(style) && items != []
    ensures ReadItems(WriteItems(style, items) + "]" + rest) == Some((Strings(items), rest))
    ensures (WriteItems(style, items) + "]" + rest)[0] == '\"'
    decreases |items|
  {
    var t := WriteItems(style, items) + "]" + rest;
    var after := if |items| == 1 then "]" + rest else "," + (WriteItems(style, items[1..]) + "]" + rest);
    assert t == WriteString(style, items[0]) + after;
    ItemReadsBack(style, items[0], after);
    assert SkipSpace(t) == t;
    assert SkipSpace(after) == after;
    if |items| == 1 {
      assert after[1..] == rest;
      assert Strings(items) == [Some(items[0])];
    } else {
      assert after[1..] == WriteItems(style, items[1..]) + "]" + rest;
      ItemsReadBack(style, items[1..], rest);
    }
  }

  /** Reading a written array gives its strings, and leaves exactly what was written after it. */
  lemma ArrayReadsBack(style: Style, items: seq<string>, rest: string)
    requires IsStyle(style) && items != []
    ensures ReadValue(WriteArray(style, items) + rest) == Some((Some(Strings(items)), rest))
    ensures WriteArray(style, items)[0] == '['
  {
    var t := WriteArray(style, items) + rest;
    assert t[1..] == WriteItems(style, items) + "]" + rest;
    ItemsReadBack(style, items, rest);
    assert SkipSpace(t[1..]) == t[1..];
  }

  /** A written array holds no line feed, so it stays on one line. */
  lemma {:induction false} NoLineFeed(style: Style, items: seq<string>)
    requires IsStyle(style) && items != []
    ensures '\n' !in WriteArray(style, items)
    decreases |items|
  {
    CharsNoLineFeed(style, items[0]);
    if |items| > 1 { NoLineFeed(style, items[1..]); }
    if |items| > 1 { assert WriteArray(style, items[1..]) == "[" + WriteItems(style, items[1..]) + "]"; }
  }

  lemma {:induction false} CharsNoLineFeed(style: Style, s: string)
    requires IsStyle(style)
    ensures '\n' !in WriteChars(style, s)
    decreases |s|
  {
    if s != [] {
      CharsNoLineFeed(style, s[1..]);
      assert MustEscape('\n');
    }
  }

  // ---------------------------------------------------------------- grammar

  // What text stands for what, as in sections 2, 5 and 7 of RFC 8259, apart from
  // how it is read or written. `w` is the text in each case.

  ghost predicate Blank(w: string) {
    forall i :: 0 <= i < |w| ==> w[i] in " \t\n\r"
  }

  ghost predicate EscapeLetter(l: char, c: char) {
    || (l == '\"' && c == '\"') || (l == '\\' && c == '\\') || (l == '/' && c == '/')
    || (l == 'b' && c as int == 8) || (l == 'f' && c as int == 12)
    || (l == 'n' && c as int == 10) || (l == 'r' && c as int == 13) || (l == 't' && c as int == 9)
  }

  ghost predicate HexLetter(l: char, n: int) {
    || (0 <= n < 10 && l == "0123456789"[n])
    || (10 <= n < 16 && (l == "abcdef"[n - 10] || l == "ABCDEF"[n - 10]))
  }

  /** A character on its own, by its short escape, or by its number. */
  ghost predicate CharText(w: string, c: char) {
    || (|w| == 1 && w[0] == c && c as int >= 0x20 && c != '\"' && c != '\\')
    || (|w| == 2 && w[0] == '\\' && EscapeLetter(w[1], c))
    || (|w| == 6 && w[0] == '\\' && w[1] == 'u' && HexText(w[2..], c as int))
  }

  ghost predicate HexText(w: string, n: int) {
    |w| == 4 && exists a, b, c, d :: HexLetter(w[0], a) && HexLetter(w[1], b) && HexLetter(w[2], c) && HexLetter(w[3], d)
                                     && n == ((a * 16 + b) * 16 + c) * 16 + d
  }

  ghost predicate CharsText(w: string, s: string)
    decreases |s|
  {
    if s == [] then w == []
    else exists k :: 0 < k <= |w| && CharText(w[..k], s[0]) && CharsText(w[k..], s[1..])
  }

  ghost predicate ItemText(w: string, item: Option<string>) {
    match item
    case None => w == "null"
    case Some(s) => |w| >= 2 && w[0] == '\"' && w[|w| - 1] == '\"' && CharsText(w[1..|w| - 1], s)
  }

  /** White space, the item and white space again take up w[..k]. */
  ghost predicate ItemAt(w: string, i: int, j: int, k: int, item: Option<string>) {
    0 <= i <= j <= k < |w| && Blank(w[..i]) && ItemText(w[i..j], item) && Blank(w[j..k])
  }

  /** One item or more, with white space around each, and the closing bracket. */
  ghost predicate ItemsText(w: string, items: seq<Option<string>>)
    decreases |items|
  {
    && items != []
    && exists i, j, k ::
         && ItemAt(w, i, j, k, items[0])
         && if |items| == 1 then w[k..] == "]" else w[k] == ',' && ItemsText(w[k + 1..], items[1..])
  }

  ghost predicate ValueText(w: string, value: Option<seq<Option<string>>>) {
    match value
    case None => w == "null"
    case Some(items) =>
      && w != [] && w[0] == '['
      && if items == [] then |w| >= 2 && Blank(w[1..|w| - 1]) && w[|w| - 1] == ']' else ItemsText(w[1..], items)
  }

  lemma BlankIs(t: string)
    ensures forall i :: 0 <= i < |t| ==> (IsSpace(t[i]) <==> t[i] in " \t\n\r")
  {
  }

  lemma {:induction false} SkipsBlank(t: string) returns (w: string)
    ensures t == w + SkipSpace(t) && Blank(w)
    decreases |t|
  {
    w := "";
    assert t == "" + t;
    if t != [] && IsSpace(t[0]) {
      BlankIs(t);
      var later := SkipsBlank(t[1..]);
      w := [t[0]] + later;
      assert t == [t[0]] + t[1..];
    }
  }

  lemma {:induction false} SkipsAllBlank(w: string, rest: string)
    requires Blank(w) && (rest == [] || rest[0] !in " \t\n\r")
    ensures SkipSpace(w + rest) == rest
    decreases |w|
  {
    BlankIs(w + rest);
    if w == [] {
      assert w + rest == rest;
    } else {
      assert (w + rest)[1..] == w[1..] + rest;
      SkipsAllBlank(w[1..], rest);
    }
  }

  lemma HexLetterIs(l: char, n: nat)
    ensures FromHexDigit(l) == Some(n) <==> HexLetter(l, n)
  {
  }

  /** The number of four hexadecimal digits. */
  function FromHex(w: string): Option<nat>
    requires |w| == 4
  {
    var a, b, c, d := FromHexDigit(w[0]), FromHexDigit(w[1]), FromHexDigit(w[2]), FromHexDigit(w[3]);
    if a.None? || b.None? || c.None? || d.None? then None
    else Some(((a.value * 16 + b.value) * 16 + c.value) * 16 + d.value)
  }

  lemma FromHexIff(w: string, n: nat)
    requires |w| == 4
    ensures FromHex(w) == Some(n) <==> HexText(w, n)
  {
    hide FromHexDigit, HexLetter;
    if HexText(w, n) {
      var a, b, c, d :| HexLetter(w[0], a) && HexLetter(w[1], b) && HexLetter(w[2], c) && HexLetter(w[3], d)
                        && n == ((a * 16 + b) * 16 + c) * 16 + d;
      hide HexText;
      HexLetterRange(w[0], a);
      HexLetterRange(w[1], b);
      HexLetterRange(w[2], c);
      HexLetterRange(w[3], d);
      HexLetterIs(w[0], a);
      HexLetterIs(w[1], b);
      HexLetterIs(w[2], c);
      HexLetterIs(w[3], d);
    } else if FromHex(w) == Some(n) {
      FromHexMeans(w, n);
    }
  }

  lemma HexLetterRange(l: char, n: int)
    requires HexLetter(l, n)
    ensures 0 <= n < 16
  {
  }

  lemma FromHexMeans(w: string, n: nat)
    requires |w| == 4 && FromHex(w) == Some(n)
    ensures HexText(w, n)
  {
    hide FromHexDigit, HexLetter;
    var a, b, c, d := FromHexDigit(w[0]).value, FromHexDigit(w[1]).value, FromHexDigit(w[2]).value, FromHexDigit(w[3]).value;
    HexLetterIs(w[0], a);
    HexLetterIs(w[1], b);
    HexLetterIs(w[2], c);
    HexLetterIs(w[3], d);
    assert n == ((a * 16 + b) * 16 + c) * 16 + d;
  }

  /** A character by its number, as it is read. */
  lemma ReadHexChar(t: string)
    requires |t| >= 6 && t[0] == '\\' && t[1] == 'u'
    ensures ReadChar(t)
            == match FromHex(t[2..6])
               case None => None
               case Some(n) => if n < 0xD800 || 0xE000 <= n < 0x1_0000 then Some((n as char, t[6..])) else None
  {
    var w := t[2..6];
    assert w[0] == t[2] && w[1] == t[3] && w[2] == t[4] && w[3] == t[5];
    hide FromHexDigit;
  }

  /** Reading a character is sound: what was consumed stands for it. */
  lemma ReadCharSound(t: string)
    requires ReadChar(t).Some?
    ensures var (c, rest) := ReadChar(t).value;
            var n := |t| - |rest|;
            n > 0 && CharText(t[..n], c) && rest == t[n..] && t[0] != '\"'
  {
    if t[0] == '\\' && t[1] == 'u' {
      ReadHexChar(t);
      hide ReadChar, FromHex, HexText;
      FromHexIff(t[2..6], FromHex(t[2..6]).value);
      assert t[..6][2..] == t[2..6];
    } else if t[0] == '\\' {
      assert EscapeLetter(t[1], ReadChar(t).value.0);
    }
  }

  /** And complete: text that stands for a character reads as it, whatever follows. */
  lemma ReadCharComplete(w: string, c: char, rest: string)
    requires CharText(w, c)
    ensures ReadChar(w + rest) == Some((c, rest)) && w[0] != '\"'
  {
    var t := w + rest;
    assert t[|w|..] == rest;
    if |w| == 6 {
      ReadHexChar(t);
      assert t[2..6] == w[2..];
      hide ReadChar, FromHex, HexText;
      FromHexIff(w[2..], c as int);
    } else if |w| == 2 {
      ReadEscaped(w[1], c);
      hide FromShortLetter, EscapeLetter;
    }
  }

  lemma ReadEscaped(l: char, c: char)
    ensures FromShortLetter(l) == Some(c) <==> EscapeLetter(l, c)
    ensures EscapeLetter(l, c) ==> l != 'u'
  {
  }

  lemma {:induction false} ReadCharsSound(t: string) returns (w: string)
    requires ReadChars(t).Some?
    ensures t == w + ("\"" + ReadChars(t).value.1) && CharsText(w, ReadChars(t).value.0)
    decreases |t|
  {
    if t[0] == '\"' {
      w := "";
      assert t == "" + ("\"" + t[1..]);
    } else {
      ReadCharSound(t);
      ReadCharShortens(t);
      hide *;
      var (c, after) := ReadChar(t).value;
      var first := t[..|t| - |after|];
      assert t == first + after;
      ReadCharsUnroll(t, c, after);
      var later := ReadCharsSound(after);
      var (s, rest) := ReadChars(after).value;
      w := first + later;
      assert first + (later + ("\"" + rest)) == w + ("\"" + rest);
      CharsTextMore(first, c, later, s);
    }
  }

  lemma CharsTextMore(first: string, c: char, later: string, s: string)
    requires first != [] && CharText(first, c) && CharsText(later, s)
    ensures CharsText(first + later, [c] + s)
  {
    hide CharText;
    var w, k := first + later, |first|;
    assert w[..k] == first && w[k..] == later && ([c] + s)[1..] == s;
  }

  lemma ReadCharsUnroll(t: string, c: char, tail: string)
    requires t != [] && t[0] != '\"' && ReadChar(t) == Some((c, tail))
    ensures ReadChars(t) == match ReadChars(tail) case None => None case Some((s, rest)) => Some(([c] + s, rest))
  {
    hide ReadChar;
  }

  lemma {:induction false} ReadCharsComplete(w: string, s: string, rest: string)
    requires CharsText(w, s)
    ensures ReadChars(w + ("\"" + rest)) == Some((s, rest))
    decreases |s|
  {
    var t := w + ("\"" + rest);
    if s == [] {
      NoChars(rest);
      assert w + ("\"" + rest) == "\"" + rest;
    } else {
      var first, later := CharsTextParts(w, s);
      hide *;
      assert w + ("\"" + rest) == first + (later + ("\"" + rest));
      var tail := later + ("\"" + rest);
      assert t == first + tail && t[0] == first[0];
      ReadCharComplete(first, s[0], tail);
      ReadCharsComplete(later, s[1..], rest);
      ReadCharsUnroll(t, s[0], tail);
      assert [s[0]] + s[1..] == s;
    }
  }

  lemma NoChars(rest: string)
    ensures ReadChars("\"" + rest) == Some(([], rest))
  {
    assert ("\"" + rest)[1..] == rest;
  }

  lemma CharsTextParts(w: string, s: string) returns (first: string, later: string)
    requires CharsText(w, s) && s != []
    ensures w == first + later && first != [] && CharText(first, s[0]) && CharsText(later, s[1..])
  {
    var k :| 0 < k <= |w| && CharText(w[..k], s[0]) && CharsText(w[k..], s[1..]);
    first, later := w[..k], w[k..];
  }

  lemma Quoted(t: string, inner: string, rest: string)
    requires t != [] && t[0] == '\"' && t[1..] == inner + ("\"" + rest)
    ensures var w := "\"" + (inner + "\""); t == w + rest && w[1..|w| - 1] == inner && w[|w| - 1] == '\"'
  {
    assert t == "\"" + t[1..];
    assert inner + ("\"" + rest) == (inner + "\"") + rest;
  }

  lemma ReadItemSound(t: string) returns (w: string)
    requires ReadItem(t).Some?
    ensures t == w + ReadItem(t).value.1 && ItemText(w, ReadItem(t).value.0)
  {
    if |t| >= 4 && t[..4] == "null" {
      w := t[..4];
    } else {
      var inner := ReadCharsSound(t[1..]);
      hide ReadChars, CharsText;
      var rest := ReadItem(t).value.1;
      w := "\"" + (inner + "\"");
      assert t[1..] == inner + ("\"" + rest);
      Quoted(t, inner, rest);
    }
  }

  lemma ReadItemComplete(w: string, item: Option<string>, rest: string)
    requires ItemText(w, item)
    ensures ReadItem(w + rest) == Some((item, rest))
    ensures w != [] && w[0] !in " \t\n\r"
  {
    hide ReadChars, CharsText;
    var t := w + rest;
    match item
    case None => assert t[..4] == w && t[4..] == rest;
    case Some(s) =>
      var inner := w[1..|w| - 1];
      QuotedRest(w, rest);
      ReadCharsComplete(inner, s, rest);
  }

  lemma QuotedRest(w: string, rest: string)
    requires |w| >= 2 && w[0] == '\"' && w[|w| - 1] == '\"'
    ensures (w + rest)[0] == '\"' && (w + rest)[1..] == w[1..|w| - 1] + ("\"" + rest)
  {
    assert w[1..] == w[1..|w| - 1] + "\"";
    assert (w + rest)[1..] == w[1..] + rest;
  }

  /** The next item, and what is left once the white space after it is skipped. */
  function NextItem(t: string): Option<(Option<string>, string)> {
    var item := ReadItem(SkipSpace(t));
    if item.None? then None else Some((item.value.0, SkipSpace(item.value.1)))
  }

  lemma NextItemSound(t: string) returns (a: string, b: string, c: string)
    requires NextItem(t).Some?
    ensures t == a + (b + (c + NextItem(t).value.1)) && Blank(a) && ItemText(b, NextItem(t).value.0) && Blank(c)
    ensures |NextItem(t).value.1| < |t|
  {
    hide ReadItem, SkipSpace, Blank, ItemText;
    a := SkipsBlank(t);
    ReadItemShortens(SkipSpace(t));
    b := ReadItemSound(SkipSpace(t));
    c := SkipsBlank(ReadItem(SkipSpace(t)).value.1);
  }

  lemma ItemAtParts(a: string, b: string, c: string, tail: string, item: Option<string>)
    requires Blank(a) && ItemText(b, item) && Blank(c) && tail != []
    ensures var w := a + (b + (c + tail));
            ItemAt(w, |a|, |a| + |b|, |a| + |b| + |c|, item) && w[|a| + |b| + |c|..] == tail
  {
    hide Blank, ItemText;
    var w := a + (b + (c + tail));
    assert w[..|a|] == a && w[|a|..] == b + (c + tail);
    assert w[|a|..|a| + |b|] == b;
    assert w[|a| + |b|..|a| + |b| + |c|] == c;
    assert w[|a| + |b| + |c|..] == tail;
  }

  lemma NextItemComplete(w: string, i: int, j: int, k: int, item: Option<string>, rest: string)
    requires ItemAt(w, i, j, k, item) && w[k] !in " \t\n\r"
    ensures NextItem(w + rest) == Some((item, w[k..] + rest))
    ensures SkipSpace(w + rest) != [] && SkipSpace(w + rest)[0] == w[i] && w[i] != ']'
  {
    var after := w[k..] + rest;
    var later := w[j..k] + after;
    var start := w[i..j] + later;
    assert w + rest == w[..i] + start;
    ReadItemComplete(w[i..j], item, later);
    SkipsAllBlank(w[..i], start);
    SkipsAllBlank(w[j..k], after);
    FirstOfItem(w[i..j], item);
    hide ReadItem, SkipSpace, Blank, ItemText;
  }

  lemma FirstOfItem(w: string, item: Option<string>)
    requires ItemText(w, item)
    ensures w != [] && w[0] != ']'
  {
  }

  lemma ReadItemsUnroll(t: string)
    ensures ReadItems(t)
            == if NextItem(t).None? then None
               else
                 var (item, after) := NextItem(t).value;
                 if after == [] then None
                 else if after[0] == ']' then Some(([item], after[1..]))
                 else if after[0] != ',' then None
                 else match ReadItems(after[1..])
                      case None => None
                      case Some((items, rest)) => Some(([item] + items, rest))
  {
    hide ReadItem, SkipSpace;
  }

  lemma {:induction false} ReadItemsSound(t: string) returns (w: string)
    requires ReadItems(t).Some?
    ensures ReadItems(t).value.0 != [] && t == w + ReadItems(t).value.1 && ItemsText(w, ReadItems(t).value.0)
    decreases |t|
  {
    hide ReadItems, NextItem, Blank, ItemText, ItemAt, ItemsText;
    ReadItemsUnroll(t);
    var a, b, c := NextItemSound(t);
    var (item, after) := NextItem(t).value;
    assert after == [after[0]] + after[1..];
    if after[0] == ',' {
      var later := ReadItemsSound(after[1..]);
      var (items, rest) := ReadItems(after[1..]).value;
      var tail := "," + later;
      w := a + (b + (c + tail));
      Regroup(a, b, c, tail, rest);
      assert after == tail + rest;
      ItemsTextMore(a, b, c, item, tail, later, items);
    } else {
      w := a + (b + (c + "]"));
      Regroup(a, b, c, "]", after[1..]);
      ItemsTextLast(a, b, c, item);
    }
  }

  lemma Regroup(a: string, b: string, c: string, tail: string, rest: string)
    ensures a + (b + (c + (tail + rest))) == a + (b + (c + tail)) + rest
  {
    assert c + (tail + rest) == (c + tail) + rest;
    assert b + ((c + tail) + rest) == (b + (c + tail)) + rest;
  }

  lemma ItemsTextMore(a: string, b: string, c: string, item: Option<string>, tail: string, later: string, items: seq<Option<string>>)
    requires Blank(a) && ItemText(b, item) && Blank(c) && items != [] && ItemsText(later, items) && tail == "," + later
    ensures ItemsText(a + (b + (c + tail)), [item] + items)
  {
    hide *;
    assert tail != [];
    ItemAtParts(a, b, c, tail, item);
    var w, k := a + (b + (c + tail)), |a| + |b| + |c|;
    AfterComma(w, k, later);
    ItemsTextFrom(w, |a|, |a| + |b|, k, item, items);
  }

  lemma AfterComma(w: string, k: nat, later: string)
    requires k < |w| && w[k..] == "," + later
    ensures w[k] == ',' && w[k + 1..] == later
  {
    var tail := w[k..];
    assert tail[0] == w[k] && tail[1..] == w[k + 1..];
    assert ("," + later)[1..] == later;
  }

  lemma ItemsTextFrom(w: string, i: int, j: int, k: int, item: Option<string>, items: seq<Option<string>>)
    requires ItemAt(w, i, j, k, item) && 0 <= k < |w| && w[k] == ',' && items != [] && ItemsText(w[k + 1..], items)
    ensures ItemsText(w, [item] + items)
  {
    hide ItemAt;
    assert ([item] + items)[1..] == items && ([item] + items)[0] == item;
  }

  lemma ItemsTextLast(a: string, b: string, c: string, item: Option<string>)
    requires Blank(a) && ItemText(b, item) && Blank(c)
    ensures ItemsText(a + (b + (c + "]")), [item])
  {
    ItemAtParts(a, b, c, "]", item);
    hide Blank, ItemText, ItemAt;
  }

  lemma ItemsTextParts(w: string, items: seq<Option<string>>) returns (i: int, j: int, k: int)
    requires ItemsText(w, items)
    ensures items != [] && ItemAt(w, i, j, k, items[0]) && 0 <= k < |w|
    ensures if |items| == 1 then w[k..] == "]" else w[k] == ',' && ItemsText(w[k + 1..], items[1..])
  {
    i, j, k :|
      && ItemAt(w, i, j, k, items[0])
      && if |items| == 1 then w[k..] == "]" else w[k] == ',' && ItemsText(w[k + 1..], items[1..]);
  }

  lemma {:induction false} ReadItemsComplete(w: string, items: seq<Option<string>>, rest: string)
    requires ItemsText(w, items)
    ensures ReadItems(w + rest) == Some((items, rest))
    ensures SkipSpace(w + rest) != [] && SkipSpace(w + rest)[0] != ']'
    decreases |items|
  {
    hide ItemAt, ItemsText, ReadItems, NextItem, SkipSpace;
    var i, j, k := ItemsTextParts(w, items);
    assert |items| == 1 ==> w[k..][0] == ']' && w[k + 1..] == "";
    NextItemComplete(w, i, j, k, items[0], rest);
    ReadItemsUnroll(w + rest);
    var after := w[k..] + rest;
    assert after[0] == w[k] && after[1..] == w[k + 1..] + rest;
    if |items| > 1 {
      ReadItemsComplete(w[k + 1..], items[1..], rest);
      assert [items[0]] + items[1..] == items;
    } else {
      assert "" + rest == rest && [items[0]] == items;
    }
  }

  /** Reading a value is sound: what was consumed stands for it. */
  lemma ReadValueSound(t: string) returns (w: string)
    requires ReadValue(t).Some?
    ensures t == w + ReadValue(t).value.1 && ValueText(w, ReadValue(t).value.0)
  {
    hide ReadItems, ItemsText, SkipSpace, Blank;
    if |t| >= 4 && t[..4] == "null" {
      w := t[..4];
    } else {
      var inner := t[1..];
      assert t == "[" + inner;
      var after := SkipSpace(inner);
      if after != [] && after[0] == ']' {
        var blank := SkipsBlank(inner);
        w := "[" + (blank + "]");
        assert after == "]" + after[1..];
        assert w[1..|w| - 1] == blank;
      } else {
        var items := ReadItemsSound(inner);
        w := "[" + items;
        assert w[1..] == items;
      }
    }
  }

  /** And complete: text that stands for a value reads as it, whatever follows. */
  lemma ReadValueComplete(w: string, value: Option<seq<Option<string>>>, rest: string)
    requires ValueText(w, value)
    ensures ReadValue(w + rest) == Some((value, rest))
    ensures w != [] && w[0] !in " \t\n\r"
  {
    hide ReadItems, ItemsText, SkipSpace, Blank;
    var t := w + rest;
    assert t[|w|..] == rest;
    if value.None? {
      assert t[..4] == w;
    } else if value.value == [] {
      var inner := w[1..|w| - 1];
      assert t[1..] == inner + ("]" + rest);
      SkipsAllBlank(inner, "]" + rest);
      assert ("]" + rest)[1..] == rest;
    } else {
      assert t[1..] == w[1..] + rest;
      ReadItemsComplete(w[1..], value.value, rest);
    }
  }
}
