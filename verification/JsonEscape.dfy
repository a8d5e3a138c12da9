/** Escaping C strings into fixed-size JSON buffers, against an independent reader of JSON string
    content (section 7 of RFC 8259). */
module JsonEscape {
  import opened Machine

  /** A byte below 0x20 other than a line feed: written as a six-character escape. */
  predicate NeedsUnicodeEscape(c: char) {
    c < ' ' && c != '\n'
  }

  function HexDigit(d: nat): char
    requires d < 16
  {
    "0123456789abcdef"[d]
  }

  function Width(c: char): nat {
    if NeedsUnicodeEscape(c) then 6 else if c == '"' || c == '\\' || c == '\n' then 2 else 1
  }

  function EscapeChar(c: char): (e: string)
    ensures |e| == Width(c)
  {
    if c == '"' || c == '\\' then ['\\', c]
    else if c == '\n' then "\\n"
    else if c < ' ' then "\\u00" + [HexDigit(c as int / 16), HexDigit(c as int % 16)]
    else [c]
  }

  /** Whether the loop, with `o` bytes already written, writes the escape of `c`. */
  predicate Room(c: char, o: nat, size: nat) {
    o + 2 < size && (NeedsUnicodeEscape(c) ==> o + 6 < size)
  }

  /** What the loop writes from input index `i` on, `o` bytes being already written. A six-character
      escape that does not fit is skipped and the loop goes on. */
  function Escape(s: string, i: nat, o: nat, size: nat): (e: string)
    requires i <= |s|
    ensures o < size ==> o + |e| < size
    decreases |s| - i
  {
    if i == |s| || o + 2 >= size then ""
    else if Room(s[i], o, size) then EscapeChar(s[i]) + Escape(s, i + 1, o + Width(s[i]), size)
    else Escape(s, i + 1, o, size)
  }

  /** The input bytes that make it into the output. */
  function Kept(s: string, i: nat, o: nat, size: nat): (k: string)
    requires i <= |s|
    ensures |k| <= |s| - i
    decreases |s| - i
  {
    if i == |s| || o + 2 >= size then ""
    else if Room(s[i], o, size) then [s[i]] + Kept(s, i + 1, o + Width(s[i]), size)
    else Kept(s, i + 1, o, size)
  }

  function Escaped(s: string, size: nat): string { Escape(s, 0, 0, size) }

  method EscapeInto(input: string, out: array<char>)
    modifies out
    ensures out.Length > 0 ==>
      var e := Escaped(input, out.Length); |e| < out.Length && out[..|e|] == e && out[|e|] == '\0'
  {
    var size := out.Length;
    if size == 0 {
      return;
    }
    var o: nat, i: nat := 0, 0;
    ghost var whole := Escaped(input, size);
    assert out[..o] == "" && "" + whole == whole;
    while i < |input| && o + 2 < size
      invariant i <= |input| && o < size
      invariant out[..o] + Escape(input, i, o, size) == whole
      decreases |input| - i
    {
      EscapeStep(input, i, o, size, out[..o]);
      o := WriteEscape(out, o, input[i]);
      i := i + 1;
    }
    assert out[..o] + "" == out[..o];
    out[o] := '\0';
  }

  /** One turn of the loop: writes the escape of `c`, or nothing when a six-character escape does
      not fit; `o'` is the new output position. */
  method WriteEscape(out: array<char>, o: nat, c: char) returns (o': nat)
    requires o + 2 < out.Length
    modifies out
    ensures var e := if Room(c, o, out.Length) then EscapeChar(c) else "";
      o' == o + |e| && o' < out.Length && out[..o'] == old(out[..o]) + e
  {
    if c == '"' || c == '\\' {
      out[o], out[o + 1] := '\\', c;
      o' := o + 2;
    } else if c == '\n' {
      out[o], out[o + 1] := '\\', 'n';
      o' := o + 2;
    } else if c < ' ' {
      o' := o;
      if o + 6 < out.Length {
        out[o], out[o + 1], out[o + 2], out[o + 3] := '\\', 'u', '0', '0';
        out[o + 4], out[o + 5] := HexDigit(c as int / 16), HexDigit(c as int % 16);
        o' := o + 6;
      }
    } else {
      out[o] := c;
      o' := o + 1;
    }
  }

  lemma EscapeStep(s: string, i: nat, o: nat, size: nat, written: string)
    requires i < |s| && o + 2 < size
    ensures var e := if Room(s[i], o, size) then EscapeChar(s[i]) else "";
      written + Escape(s, i, o, size) == (written + e) + Escape(s, i + 1, o + |e|, size)
  {
    var e := if Room(s[i], o, size) then EscapeChar(s[i]) else "";
    var rest := Escape(s, i + 1, o + |e|, size);
    Regroup(written, e, rest);
    assert e + rest == Escape(s, i, o, size);
  }

  lemma Regroup(a: string, b: string, c: string)
    ensures (a + b) + c == a + (b + c)
  {
  }

  // ----- Reading a JSON string back -----

  function HexValue(c: char): Option<nat> {
    if '0' <= c <= '9' then Some(c as int - '0' as int)
    else if 'a' <= c <= 'f' then Some(c as int - 'a' as int + 10)
    else if 'A' <= c <= 'F' then Some(c as int - 'A' as int + 10)
    else None
  }

  /** A two-character escape's meaning. */
  function ShortEscape(c: char): Option<char> {
    if c == '"' || c == '\\' || c == '/' then Some(c)
    else if c == 'b' then Some(8 as char)
    else if c == 'f' then Some(12 as char)
    else if c == 'n' then Some(10 as char)
    else if c == 'r' then Some(13 as char)
    else if c == 't' then Some(9 as char)
    else None
  }

  /** The single-byte character a `\uXXXX` escape denotes; larger code points are several bytes
      and are not read. */
  function UnicodeEscape(s: string): Option<char>
    requires |s| >= 4
  {
    match (HexValue(s[0]), HexValue(s[1]), HexValue(s[2]), HexValue(s[3]))
    case (Some(a), Some(b), Some(c), Some(d)) =>
      var v := ((a * 16 + b) * 16 + c) * 16 + d;
      if v < 128 then Some(v as char) else None
    case _ => None
  }

  datatype Read = Read(text: string, rest: string)

  /** Reads string content up to the closing quote; `None` when it is not well-formed. */
  function ReadString(s: string): Option<Read> {
    if |s| == 0 || s[0] < ' ' then None
    else if s[0] == '"' then Some(Read("", s[1..]))
    else if s[0] != '\\' then Cons(Some(s[0]), ReadString(s[1..]))
    else if |s| < 2 then None
    else if s[1] == 'u' then (if |s| < 6 then None else Cons(UnicodeEscape(s[2..6]), ReadString(s[6..])))
    else Cons(ShortEscape(s[1]), ReadString(s[2..]))
  }

  function Cons(c: Option<char>, r: Option<Read>): Option<Read> {
    if c.Some? && r.Some? then Some(Read([c.value] + r.value.text, r.value.rest)) else None
  }

  lemma HexDigitValue(d: nat)
    requires d < 16
    ensures HexValue(HexDigit(d)) == Some(d)
  {
  }

  /** One escaped character is read back as that character. */
  lemma ReadEscapedChar(c: char, r: string)
    requires c != '\0'
    ensures ReadString(EscapeChar(c) + r) == Cons(Some(c), ReadString(r))
  {
    var e := EscapeChar(c);
    assert (e + r)[|e|..] == r;
    if NeedsUnicodeEscape(c) {
      var hi, lo := c as int / 16, c as int % 16;
      HexDigitValue(hi);
      HexDigitValue(lo);
      assert (e + r)[2..6] == ['0', '0', HexDigit(hi), HexDigit(lo)];
      assert UnicodeEscape((e + r)[2..6]) == Some(c);
    }
  }

  /** One more escape in front of what reads back. */
  lemma ReadOneMore(c: char, tail: string, kept: string, rest: string)
    requires c != '\0' && ReadString(tail + "\"" + rest) == Some(Read(kept, rest))
    ensures ReadString((EscapeChar(c) + tail) + "\"" + rest) == Some(Read([c] + kept, rest))
  {
    var e := EscapeChar(c);
    Regroup(e + tail, "\"", rest);
    Regroup(e, tail, "\"" + rest);
    Regroup(tail, "\"", rest);
    ReadEscapedChar(c, tail + "\"" + rest);
  }

  lemma ReadNothing(rest: string)
    ensures ReadString("" + "\"" + rest) == Some(Read("", rest))
  {
    assert "" + "\"" + rest == "\"" + rest;
    assert ("\"" + rest)[1..] == rest;
  }

  /** Whatever the buffer size, the output closed by a quote is a well-formed JSON string, and it
      denotes exactly the kept bytes. */
  lemma {:induction false} EscapeReadsBack(s: string, i: nat, o: nat, size: nat, rest: string)
    requires i <= |s| && IsCString(s)
    ensures ReadString(Escape(s, i, o, size) + "\"" + rest) == Some(Read(Kept(s, i, o, size), rest))
    decreases |s| - i
  {
    if i == |s| || o + 2 >= size {
      ReadNothing(rest);
    } else if Room(s[i], o, size) {
      var o' := o + Width(s[i]);
      EscapeReadsBack(s, i + 1, o', size, rest);
      var tail, kept := Escape(s, i + 1, o', size), Kept(s, i + 1, o', size);
      assert Escape(s, i, o, size) == EscapeChar(s[i]) + tail && Kept(s, i, o, size) == [s[i]] + kept;
      ReadOneMore(s[i], tail, kept, rest);
    } else {
      EscapeReadsBack(s, i + 1, o, size, rest);
    }
  }

  lemma {:induction false} EscapeIsPrintable(s: string, i: nat, o: nat, size: nat)
    requires i <= |s|
    ensures forall k :: 0 <= k < |Escape(s, i, o, size)| ==> Escape(s, i, o, size)[k] >= ' '
    decreases |s| - i
  {
    if i < |s| && o + 2 < size {
      if Room(s[i], o, size) {
        EscapeIsPrintable(s, i + 1, o + Width(s[i]), size);
      } else {
        EscapeIsPrintable(s, i + 1, o, size);
      }
    }
  }

  // ----- What is kept -----

  predicate Subsequence(a: string, b: string) {
    |a| == 0 ||
    (|b| > 0 && ((a[0] == b[0] && Subsequence(a[1..], b[1..])) || Subsequence(a, b[1..])))
  }

  /** Truncation may lose bytes but never reorders, duplicates or invents any. */
  lemma {:induction false} KeptIsSubsequence(s: string, i: nat, o: nat, size: nat)
    requires i <= |s|
    ensures Subsequence(Kept(s, i, o, size), s[i..])
    decreases |s| - i
  {
    if i < |s| && o + 2 < size {
      assert s[i..][1..] == s[i + 1..];
      if Room(s[i], o, size) {
        var o' := o + Width(s[i]);
        KeptIsSubsequence(s, i + 1, o', size);
        assert Kept(s, i, o, size)[1..] == Kept(s, i + 1, o', size);
      } else {
        KeptIsSubsequence(s, i + 1, o, size);
      }
    }
  }

  predicate NoUnicodeEscapes(s: string) {
    forall i :: 0 <= i < |s| ==> !NeedsUnicodeEscape(s[i])
  }

  /** Without six-character escapes the loss is a plain truncation. */
  lemma {:induction false} KeptIsPrefix(s: string, i: nat, o: nat, size: nat)
    requires i <= |s| && NoUnicodeEscapes(s)
    ensures Kept(s, i, o, size) == s[i..i + |Kept(s, i, o, size)|]
    decreases |s| - i
  {
    if i < |s| && o + 2 < size {
      KeptIsPrefix(s, i + 1, o + Width(s[i]), size);
    }
  }

  /** Length of the escapes of the first `n` bytes. */
  function EscapedLength(s: string, n: nat): nat
    requires n <= |s|
  {
    if n == 0 then 0 else EscapedLength(s, n - 1) + Width(s[n - 1])
  }

  lemma {:induction false} EscapedLengthMonotone(s: string, i: nat, n: nat)
    requires i < n <= |s|
    ensures EscapedLength(s, i) + Width(s[i]) <= EscapedLength(s, n)
    decreases n - i
  {
    if i + 1 < n {
      EscapedLengthMonotone(s, i, n - 1);
    }
  }

  // ----- When the loss is a truncation -----

  /** The first byte from `i` on whose escape has no room after all the escapes before it. */
  function FirstWithoutRoom(s: string, i: nat, size: nat): (k: nat)
    requires i <= |s|
    ensures i <= k <= |s|
    decreases |s| - i
  {
    if i == |s| || !Room(s[i], EscapedLength(s, i), size) then i else FirstWithoutRoom(s, i + 1, size)
  }

  /** At that byte either nothing was left to write, or the loop stops, or every byte from there on
      needs a six-character escape. */
  predicate OnlyCutShort(s: string, i: nat, size: nat)
    requires i <= |s|
  {
    var k := FirstWithoutRoom(s, i, size);
    k == |s| || EscapedLength(s, k) + 2 >= size || forall j :: k <= j < |s| ==> NeedsUnicodeEscape(s[j])
  }

  /** The loss is a plain truncation exactly then. */
  lemma PrefixIff(s: string, size: nat)
    ensures Kept(s, 0, 0, size) <= s <==> OnlyCutShort(s, 0, size)
  {
    PrefixFrom(s, 0, size);
    assert s[0..] == s;
  }

  lemma {:induction false} PrefixFrom(s: string, i: nat, size: nat)
    requires i <= |s|
    ensures Kept(s, i, EscapedLength(s, i), size) <= s[i..] <==> OnlyCutShort(s, i, size)
    decreases |s| - i
  {
    if i < |s| && Room(s[i], EscapedLength(s, i), size) {
      PrefixFrom(s, i + 1, size);
      PrefixStep(s, i, size);
    } else {
      PrefixStops(s, i, size);
    }
  }

  lemma PrefixStep(s: string, i: nat, size: nat)
    requires i < |s| && Room(s[i], EscapedLength(s, i), size)
    ensures Kept(s, i, EscapedLength(s, i), size) <= s[i..]
      <==> Kept(s, i + 1, EscapedLength(s, i + 1), size) <= s[i + 1..]
    ensures OnlyCutShort(s, i, size) == OnlyCutShort(s, i + 1, size)
  {
    HeadThenPrefix(s[i], Kept(s, i + 1, EscapedLength(s, i + 1), size), s[i + 1..]);
    assert s[i..] == [s[i]] + s[i + 1..];
  }

  lemma PrefixStops(s: string, i: nat, size: nat)
    requires i <= |s| && (i < |s| ==> !Room(s[i], EscapedLength(s, i), size))
    ensures Kept(s, i, EscapedLength(s, i), size) <= s[i..] <==> OnlyCutShort(s, i, size)
  {
    var o := EscapedLength(s, i);
    if i < |s| && o + 2 < size {
      SkippedRest(s, i, o, size);
      assert s[i..][0] == s[i];
    }
  }

  lemma HeadThenPrefix(c: char, a: string, b: string)
    ensures [c] + a <= [c] + b <==> a <= b
  {
    assert ([c] + a)[1..] == a && ([c] + b)[1..] == b;
    if [c] + a <= [c] + b {
      assert ([c] + b)[..|a| + 1][1..] == b[..|a|];
    }
  }

  /** Once a six-character escape has no room, only other bytes are written. */
  lemma {:induction false} SkippedRest(s: string, i: nat, o: nat, size: nat)
    requires i <= |s| && o + 2 < size <= o + 6
    ensures var k := Kept(s, i, o, size);
      if forall j :: i <= j < |s| ==> NeedsUnicodeEscape(s[j]) then k == ""
      else |k| > 0 && !NeedsUnicodeEscape(k[0])
    decreases |s| - i
  {
    if i < |s| && NeedsUnicodeEscape(s[i]) {
      SkippedRest(s, i + 1, o, size);
    }
  }

  /** Two letters, five control bytes and a letter: eight bytes that fit an address field. */
  const SKIPPING: string := ['a', 'a', 1 as char, 1 as char, 1 as char, 1 as char, 1 as char, 'b']

  /** In the 32-byte address buffer the fifth control byte is lost from the middle. */
  lemma SkipIsNotTruncation()
    ensures Kept(SKIPPING, 0, 0, 32) == ['a', 'a', 1 as char, 1 as char, 1 as char, 1 as char, 'b']
    ensures !(Kept(SKIPPING, 0, 0, 32) <= SKIPPING)
  {
    assert Kept(SKIPPING, 7, 26, 32) == "b";
    assert Kept(SKIPPING, 6, 26, 32) == "b";
    assert Kept(SKIPPING, 5, 20, 32) == [1 as char] + "b";
    assert Kept(SKIPPING, 3, 8, 32) == [1 as char, 1 as char, 1 as char] + "b";
    assert Kept(SKIPPING, 1, 1, 32) == ['a', 1 as char, 1 as char, 1 as char, 1 as char] + "b";
    assert Kept(SKIPPING, 0, 0, 32)[6] != SKIPPING[6];
  }

  /** The last byte's escape has room after all the others: what a caller can check beforehand. */
  predicate LastFits(s: string, size: nat) {
    |s| == 0 || Room(s[|s| - 1], EscapedLength(s, |s| - 1), size)
  }

  /** Nothing is lost exactly when the last byte's escape has room. */
  lemma ExactIff(s: string, size: nat)
    ensures Kept(s, 0, 0, size) == s <==> LastFits(s, size)
  {
    if LastFits(s, size) {
      KeepsAll(s, 0, size);
      FullLengthIsAll(s, 0, 0, size);
      assert s[0..] == s;
    } else {
      LosesSome(s, 0, 0, size);
    }
  }

  /** If the last escape has room, so has every one before it. */
  lemma RoomBefore(s: string, i: nat, size: nat)
    requires i < |s| && LastFits(s, size)
    ensures Room(s[i], EscapedLength(s, i), size)
    ensures EscapedLength(s, i + 1) == EscapedLength(s, i) + Width(s[i])
  {
    if i + 1 < |s| {
      EscapedLengthMonotone(s, i, |s| - 1);
    }
  }

  lemma {:induction false} KeepsAll(s: string, i: nat, size: nat)
    requires i <= |s| && LastFits(s, size)
    ensures |Kept(s, i, EscapedLength(s, i), size)| == |s| - i
    decreases |s| - i
  {
    if i < |s| {
      RoomBefore(s, i, size);
      KeepsAll(s, i + 1, size);
    }
  }

  lemma {:induction false} FullLengthIsAll(s: string, i: nat, o: nat, size: nat)
    requires i <= |s| && |Kept(s, i, o, size)| == |s| - i
    ensures Kept(s, i, o, size) == s[i..]
    decreases |s| - i
  {
    if i < |s| {
      var o' := o + Width(s[i]);
      var k := Kept(s, i + 1, o', size);
      assert Kept(s, i, o, size) == [s[i]] + k;
      FullLengthIsAll(s, i + 1, o', size);
    }
  }

  lemma {:induction false} LosesSome(s: string, i: nat, o: nat, size: nat)
    requires i < |s| && o == EscapedLength(s, i) && !LastFits(s, size)
    ensures |Kept(s, i, o, size)| < |s| - i
    decreases |s| - i
  {
    if Room(s[i], o, size) {
      assert i + 1 < |s|;
      var o' := o + Width(s[i]);
      assert EscapedLength(s, i + 1) == o';
      LosesSome(s, i + 1, o', size);
      var k := Kept(s, i + 1, o', size);
      assert Kept(s, i, o, size) == [s[i]] + k;
    } else {
      assert |Kept(s, i + 1, o, size)| <= |s| - (i + 1);
    }
  }

  /** In particular when the whole escaped text and two more bytes fit. */
  lemma EnoughRoomIsExact(s: string, size: nat)
    requires EscapedLength(s, |s|) + 2 <= size
    ensures Kept(s, 0, 0, size) == s
  {
    ExactIff(s, size);
  }

  /** Nothing lost, so the output is as long as all the escapes together. */
  lemma {:induction false} ExactLength(s: string, i: nat, size: nat)
    requires i <= |s| && LastFits(s, size)
    ensures EscapedLength(s, i) + |Escape(s, i, EscapedLength(s, i), size)| == EscapedLength(s, |s|)
    decreases |s| - i
  {
    if i < |s| {
      RoomBefore(s, i, size);
      ExactLength(s, i + 1, size);
    }
  }

  lemma {:induction false} EscapedLengthAtMostDouble(s: string, n: nat)
    requires n <= |s| && NoUnicodeEscapes(s)
    ensures EscapedLength(s, n) <= 2 * n
  {
    if n > 0 {
      EscapedLengthAtMostDouble(s, n - 1);
    }
  }

  /** A buffer more than twice as long as the text loses nothing unless a six-character escape is
      needed. It covers the 15-, 63- and 255-byte fields in their 32-, 128- and 512-byte buffers. */
  lemma DoubleBufferIsExact(s: string, size: nat)
    requires NoUnicodeEscapes(s) && 2 * |s| < size
    ensures Kept(s, 0, 0, size) == s
  {
    if |s| > 0 {
      EscapedLengthAtMostDouble(s, |s| - 1);
    }
    ExactIff(s, size);
  }
}
