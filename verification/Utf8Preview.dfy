/**
 * Cutting text to a byte budget, as the audit writer and the local-tool pipeline do.
 * A JavaScript string is a sequence of 16-bit code units; iterating over it yields code
 * points, a surrogate pair being one of them. Byte counts are those of UTF-8, section 3
 * of RFC 3629, where an unpaired surrogate is written as U+FFFD.
 */
module Utf8Preview {
  import opened Basics

  type CodeUnit = u: int | 0 <= u < 0x1_0000
  type Text = seq<CodeUnit>
  type CodePoint = c: int | 0 <= c <= 0x10_ffff

  // ---- code points ----

  predicate IsHigh(u: CodeUnit) {
    0xd800 <= u <= 0xdbff
  }

  predicate IsLow(u: CodeUnit) {
    0xdc00 <= u <= 0xdfff
  }

  predicate PairAt(s: Text, i: nat) {
    i + 1 < |s| && IsHigh(s[i]) && IsLow(s[i + 1])
  }

  /** Where the string iterator goes from position i. */
  function Next(s: Text, i: nat): (j: nat)
    requires i < |s|
    ensures i < j <= |s|
  {
    if PairAt(s, i) then i + 2 else i + 1
  }

  function CodePointAt(s: Text, i: nat): CodePoint
    requires i < |s|
  {
    if PairAt(s, i) then
      var high: int, low: int := s[i], s[i + 1];
      0x1_0000 + 0x400 * (high - 0xd800) + (low - 0xdc00)
    else if IsHigh(s[i]) || IsLow(s[i]) then 0xfffd
    else s[i]
  }

  // ---- UTF-8 ----

  function Encoded(c: CodePoint): seq<Byte> {
    if c < 0x80 then [c]
    else if c < 0x800 then [0xc0 + c / 0x40, 0x80 + c % 0x40]
    else if c < 0x1_0000 then [0xe0 + c / 0x1000, 0x80 + c / 0x40 % 0x40, 0x80 + c % 0x40]
    else [0xf0 + c / 0x4_0000, 0x80 + c / 0x1000 % 0x40, 0x80 + c / 0x40 % 0x40, 0x80 + c % 0x40]
  }

  /** The bytes of the text from position i on. */
  function EncodedFrom(encode: CodePoint -> seq<Byte>, s: Text, i: nat): seq<Byte>
    decreases |s| - i
  {
    if i >= |s| then [] else encode(CodePointAt(s, i)) + EncodedFrom(encode, s, Next(s, i))
  }

  function Utf8(s: Text): seq<Byte> {
    EncodedFrom(Encoded, s, 0)
  }

  /** The width of the character at i, from its first code unit. */
  function Width(s: Text, i: nat): nat
    requires i < |s|
  {
    if PairAt(s, i) then 4 else if s[i] < 0x80 then 1 else if s[i] < 0x800 then 2 else 3
  }

  function BytesFrom(s: Text, i: nat): nat
    decreases |s| - i
  {
    if i >= |s| then 0 else Width(s, i) + BytesFrom(s, Next(s, i))
  }

  /** `Buffer.byteLength`, which counts without encoding. */
  function ByteLength(s: Text): nat {
    BytesFrom(s, 0)
  }

  lemma {:induction false} CountingFrom(s: Text, i: nat)
    ensures BytesFrom(s, i) == |EncodedFrom(Encoded, s, i)|
    decreases |s| - i
  {
    if i < |s| {
      CountingFrom(s, Next(s, i));
    }
  }

  /** Counting agrees with encoding. */
  lemma ByteLengthCountsUtf8(s: Text)
    ensures ByteLength(s) == |Utf8(s)|
  {
    CountingFrom(s, 0);
  }

  /** The character whose bytes come first, and how many they are, read by the bits of its leading byte. */
  function FirstOf(bytes: seq<Byte>): Option<(int, nat)> {
    if bytes == [] then None
    else
      var a: int := bytes[0];
      if a < 0x80 then Some((a, 1))
      else if 0xc0 <= a < 0xe0 && |bytes| >= 2 then Some((0x40 * (a - 0xc0) + Continuation(bytes[1]), 2))
      else if 0xe0 <= a < 0xf0 && |bytes| >= 3 then
        Some((0x1000 * (a - 0xe0) + 0x40 * Continuation(bytes[1]) + Continuation(bytes[2]), 3))
      else if 0xf0 <= a && |bytes| >= 4 then
        Some((0x4_0000 * (a - 0xf0) + 0x1000 * Continuation(bytes[1]) + 0x40 * Continuation(bytes[2])
              + Continuation(bytes[3]), 4))
      else None
  }

  /** The six bits a continuation byte carries. */
  function Continuation(byte: int): int {
    byte - 0x80
  }

  /** An encoded character is read back, and only its leading byte lies outside the range of continuation bytes. */
  lemma EncodingReadsBack(c: CodePoint, rest: seq<Byte>)
    ensures FirstOf(Encoded(c) + rest) == Some((c, |Encoded(c)|))
    ensures forall k :: 0 <= k < |Encoded(c)| ==> (k == 0 <==> !(0x80 <= Encoded(c)[k] < 0xc0))
  {
    var bytes := Encoded(c) + rest;
    assert forall k :: 0 <= k < |Encoded(c)| ==> bytes[k] == Encoded(c)[k];
    var c1 := c / 0x40;
    var c2 := c1 / 0x40;
    assert c == 0x40 * c1 + c % 0x40 && c1 == 0x40 * c2 + c1 % 0x40;
    assert c2 == c / 0x1000 && c2 / 0x40 == c / 0x4_0000;
  }

  /** From position i on every surrogate is one of a pair. */
  predicate Paired(s: Text, i: nat)
    decreases |s| - i
  {
    i >= |s| || ((PairAt(s, i) || (!IsHigh(s[i]) && !IsLow(s[i]))) && Paired(s, Next(s, i)))
  }

  /** A character determines its code units. */
  lemma CodePointsDetermineUnits(s: Text, i: nat, t: Text, j: nat)
    requires i < |s| && j < |t| && Paired(s, i) && Paired(t, j) && CodePointAt(s, i) == CodePointAt(t, j)
    ensures s[i..Next(s, i)] == t[j..Next(t, j)]
  {
  }

  /** Texts without unpaired surrogates have the same bytes only if they are the same text. */
  lemma {:induction false} EncodedFromDetermines(s: Text, i: nat, t: Text, j: nat)
    requires i <= |s| && j <= |t| && Paired(s, i) && Paired(t, j)
    requires EncodedFrom(Encoded, s, i) == EncodedFrom(Encoded, t, j)
    ensures s[i..] == t[j..]
    decreases |s| - i
  {
    if i < |s| && j < |t| {
      var left, right := EncodedFrom(Encoded, s, Next(s, i)), EncodedFrom(Encoded, t, Next(t, j));
      EncodingReadsBack(CodePointAt(s, i), left);
      EncodingReadsBack(CodePointAt(t, j), right);
      var first := Encoded(CodePointAt(s, i));
      assert (first + left)[|first|..] == left && (first + right)[|first|..] == right;
      EncodedFromDetermines(s, Next(s, i), t, Next(t, j));
      CodePointsDetermineUnits(s, i, t, j);
      assert s[i..] == s[i..Next(s, i)] + s[Next(s, i)..];
      assert t[j..] == t[j..Next(t, j)] + t[Next(t, j)..];
    } else if i < |s| {
      EncodingReadsBack(CodePointAt(s, i), []);
    } else if j < |t| {
      EncodingReadsBack(CodePointAt(t, j), []);
    }
  }

  lemma Utf8IsInjective(s: Text, t: Text)
    requires Paired(s, 0) && Paired(t, 0) && Utf8(s) == Utf8(t)
    ensures s == t
  {
    EncodedFromDetermines(s, 0, t, 0);
    assert s[0..] == s && t[0..] == t;
  }

  // ---- the text of a sequence of characters ----

  predicate IsScalar(c: CodePoint) {
    !(0xd800 <= c <= 0xdfff)
  }

  /** UTF-16, section 2.1 of RFC 2781. */
  function Units(c: CodePoint): Text {
    if c < 0x1_0000 then [c]
    else
      var u := c - 0x1_0000;
      [0xd800 + u / 0x400, 0xdc00 + u % 0x400]
  }

  function TextOf(cs: seq<CodePoint>): Text {
    if cs == [] then [] else Units(cs[0]) + TextOf(cs[1..])
  }

  function BytesOf(cs: seq<CodePoint>): seq<Byte> {
    if cs == [] then [] else Encoded(cs[0]) + BytesOf(cs[1..])
  }

  /** What comes before a position does not matter to reading on from it. */
  lemma {:induction false} EncodingShifts(encode: CodePoint -> seq<Byte>, before: Text, s: Text, i: nat)
    requires i <= |s|
    ensures EncodedFrom(encode, before + s, |before| + i) == EncodedFrom(encode, s, i)
    decreases |s| - i
  {
    var all := before + s;
    assert forall k :: 0 <= k < |s| ==> all[|before| + k] == s[k];
    if i < |s| {
      assert PairAt(all, |before| + i) == PairAt(s, i);
      EncodingShifts(encode, before, s, Next(s, i));
    }
  }

  lemma FirstCharacter(c: CodePoint, rest: Text)
    requires IsScalar(c)
    ensures Next(Units(c) + rest, 0) == |Units(c)| && CodePointAt(Units(c) + rest, 0) == c
  {
    var s := Units(c) + rest;
    assert s[0] == Units(c)[0];
    if c >= 0x1_0000 {
      assert s[1] == Units(c)[1];
    }
  }

  /** The text of any characters is encoded as those characters. */
  lemma {:induction false} Utf8EncodesCharacters(cs: seq<CodePoint>)
    requires forall k :: 0 <= k < |cs| ==> IsScalar(cs[k])
    ensures Utf8(TextOf(cs)) == BytesOf(cs)
  {
    if cs != [] {
      var first, rest := Units(cs[0]), TextOf(cs[1..]);
      FirstCharacter(cs[0], rest);
      EncodingShifts(Encoded, first, rest, 0);
      Utf8EncodesCharacters(cs[1..]);
    }
  }

  /** An unpaired surrogate is encoded as U+FFFD, so no surrogate is ever encoded. */
  lemma SurrogatesAreReplaced(s: Text, i: nat)
    requires i < |s|
    ensures IsScalar(CodePointAt(s, i))
    ensures (IsHigh(s[i]) || IsLow(s[i])) && !PairAt(s, i) ==> Encoded(CodePointAt(s, i)) == [0xef, 0xbf, 0xbd]
  {
  }

  // ---- whole-character prefixes ----

  /** Iterating from i comes by k. */
  predicate Visits(s: Text, i: nat, k: nat)
    decreases |s| - i
  {
    i == k || (i < k && i < |s| && Visits(s, Next(s, i), k))
  }

  /** Position k of s falls between two characters. */
  predicate Boundary(s: Text, k: nat) {
    k <= |s| && Visits(s, 0, k)
  }

  lemma {:induction false} VisitsInOrder(s: Text, i: nat, k: nat)
    requires Visits(s, i, k) && i < k
    ensures i < |s| && Next(s, i) <= k
  {
  }

  /** Up to a boundary, the prefix is read as the whole text is. */
  lemma PrefixReadsAlike(s: Text, k: nat, i: nat)
    requires i < k <= |s| && Visits(s, i, k)
    ensures var p := s[..k];
      Next(p, i) == Next(s, i) <= k && Width(p, i) == Width(s, i) && CodePointAt(p, i) == CodePointAt(s, i)
  {
    VisitsInOrder(s, i, k);
  }

  lemma {:induction false} BytesSplit(s: Text, k: nat, i: nat)
    requires i <= k <= |s| && Visits(s, i, k)
    ensures BytesFrom(s, i) == BytesFrom(s[..k], i) + BytesFrom(s, k)
    decreases k - i
  {
    if i < k {
      PrefixReadsAlike(s, k, i);
      BytesSplit(s, k, Next(s, i));
    }
  }

  lemma {:induction false} EncodingSplits(encode: CodePoint -> seq<Byte>, s: Text, k: nat, i: nat)
    requires i <= k <= |s| && Visits(s, i, k)
    ensures EncodedFrom(encode, s, i) == EncodedFrom(encode, s[..k], i) + EncodedFrom(encode, s, k)
    decreases k - i
  {
    if i < k {
      PrefixReadsAlike(s, k, i);
      EncodingSplits(encode, s, k, Next(s, i));
    }
  }

  lemma {:induction false} VisitsTransitively(s: Text, i: nat, j: nat, k: nat)
    requires i <= j <= k && Visits(s, i, j) && Visits(s, j, k)
    ensures Visits(s, i, k)
    decreases j - i
  {
    if i < j {
      VisitsInOrder(s, i, j);
      VisitsTransitively(s, Next(s, i), j, k);
    }
  }

  /** The boundaries of a whole-character prefix are those of the text. */
  lemma {:induction false} VisitsInPrefix(s: Text, k: nat, i: nat, j: nat)
    requires i <= j <= k <= |s| && Visits(s, i, k)
    ensures Visits(s[..k], i, j) <==> Visits(s, i, j)
    decreases j - i
  {
    if i < j {
      PrefixReadsAlike(s, k, i);
      if Next(s, i) <= j {
        VisitsInPrefix(s, k, Next(s, i), j);
      } else {
        assert !Visits(s, i, j) by { if Visits(s, i, j) { VisitsInOrder(s, i, j); } }
        assert !Visits(s[..k], i, j) by { if Visits(s[..k], i, j) { VisitsInOrder(s[..k], i, j); } }
      }
    }
  }

  lemma {:induction false} VisitsEnd(s: Text, i: nat)
    requires i <= |s|
    ensures Visits(s, i, |s|)
    decreases |s| - i
  {
    if i < |s| {
      VisitsEnd(s, Next(s, i));
    }
  }

  // ---- the longest fit ----

  /**
   * r is the longest prefix of s made of whole characters that fits in `limit` bytes;
   * the empty prefix stands in when not even that fits (a negative limit).
   */
  ghost predicate IsLongestFit(s: Text, limit: int, r: Text) {
    && r <= s && Boundary(s, |r|)
    && (r == [] || ByteLength(r) <= limit)
    && forall k: nat :: Boundary(s, k) && ByteLength(s[..k]) <= limit ==> k <= |r|
  }

  lemma LongestFitIsUnique(s: Text, limit: int, r: Text, t: Text)
    requires IsLongestFit(s, limit, r) && IsLongestFit(s, limit, t)
    ensures r == t
  {
    assert s[..|r|] == r && s[..|t|] == t;
  }

  /** Where reading from i stops for want of room. */
  function Stop(s: Text, i: nat, room: int): (k: nat)
    requires i <= |s|
    ensures i <= k <= |s|
    decreases |s| - i
  {
    if i == |s| || Width(s, i) > room then i else Stop(s, Next(s, i), room - Width(s, i))
  }

  function Truncated(s: Text, limit: int): Text {
    s[..Stop(s, 0, limit)]
  }

  lemma {:induction false} StopFits(s: Text, i: nat, room: int)
    requires i <= |s|
    ensures var k := Stop(s, i, room);
      Visits(s, i, k) && (k == i || BytesFrom(s[..k], i) <= room)
    decreases |s| - i
  {
    if i < |s| && Width(s, i) <= room {
      var j, k := Next(s, i), Stop(s, i, room);
      StopFits(s, j, room - Width(s, i));
      assert Visits(s, i, k);
      PrefixReadsAlike(s, k, i);
    }
  }

  lemma {:induction false} StopIsLast(s: Text, i: nat, room: int, k: nat)
    requires i <= k <= |s| && Visits(s, i, k) && BytesFrom(s[..k], i) <= room
    ensures k <= Stop(s, i, room)
    decreases k - i
  {
    if i < k {
      PrefixReadsAlike(s, k, i);
      StopIsLast(s, Next(s, i), room - Width(s, i), k);
    }
  }

  lemma TruncatedFits(s: Text, limit: int)
    ensures IsLongestFit(s, limit, Truncated(s, limit))
  {
    StopFits(s, 0, limit);
    forall k: nat | Boundary(s, k) && ByteLength(s[..k]) <= limit
      ensures k <= |Truncated(s, limit)|
    {
      StopIsLast(s, 0, limit, k);
    }
  }

  /** Text within the limit is untouched. */
  lemma ShortTextIsKept(s: Text, limit: int)
    requires ByteLength(s) <= limit
    ensures Truncated(s, limit) == s
  {
    VisitsEnd(s, 0);
    assert s[..|s|] == s;
    StopIsLast(s, 0, limit, |s|);
  }

  /** Cutting twice is cutting once to the smaller limit. */
  lemma TruncationsCompose(s: Text, first: int, second: int)
    ensures Truncated(Truncated(s, first), second) == Truncated(s, if first < second then first else second)
  {
    var limit := if first < second then first else second;
    var r := Truncated(s, first);
    var t := Truncated(r, second);
    TruncatedFits(s, first);
    TruncatedFits(r, second);
    TruncatedFits(s, limit);
    assert s[..|r|] == r && r[..|t|] == t && s[..|t|] == t;
    VisitsInPrefix(s, |r|, 0, |t|);
    BytesSplit(r, |t|, 0);
    forall k: nat | Boundary(s, k) && ByteLength(s[..k]) <= limit
      ensures k <= |t|
    {
      assert k <= |r| && r[..k] == s[..k];
      VisitsInPrefix(s, |r|, 0, k);
    }
    LongestFitIsUnique(s, limit, t, Truncated(s, limit));
  }

  /** The bytes of the cut text are a prefix of the bytes of the text: no character is split. */
  lemma TruncationCutsUtf8Between(s: Text, limit: int)
    ensures Utf8(Truncated(s, limit)) <= Utf8(s)
  {
    StopFits(s, 0, limit);
    EncodingSplits(Encoded, s, Stop(s, 0, limit), 0);
  }

  // ---- the two loops ----

  /** Position i has been reached, and reading on from it stops where it should. */
  ghost predicate Progress(s: Text, limit: int, i: nat) {
    Boundary(s, i) && Stop(s, 0, limit) == Stop(s, i, limit - ByteLength(s[..i]))
  }

  lemma NextCharacter(s: Text, i: nat)
    requires i < |s| && Boundary(s, i)
    ensures Boundary(s, Next(s, i)) && ByteLength(s[..Next(s, i)]) == ByteLength(s[..i]) + Width(s, i)
  {
    var j := Next(s, i);
    var p := s[..j];
    assert Visits(s, i, j) by { assert Visits(s, j, j); }
    VisitsTransitively(s, 0, i, j);
    VisitsInPrefix(s, j, 0, i);
    BytesSplit(p, i, 0);
    assert p[..i] == s[..i];
    PrefixReadsAlike(s, j, i);
    assert BytesFrom(p, j) == 0;
  }

  lemma ProgressContinues(s: Text, limit: int, i: nat)
    requires i < |s| && Progress(s, limit, i)
    ensures if ByteLength(s[..Next(s, i)]) > limit then Stop(s, 0, limit) == i else Progress(s, limit, Next(s, i))
  {
    NextCharacter(s, i);
  }

  /** `truncateUtf8`: a quick check, then character by character. */
  method TruncateUtf8(value: Text, maximumBytes: int) returns (result: Text)
    ensures IsLongestFit(value, maximumBytes, result)
    ensures result == Truncated(value, maximumBytes)
  {
    TruncatedFits(value, maximumBytes);
    if ByteLength(value) <= maximumBytes {
      ShortTextIsKept(value, maximumBytes);
      return value;
    }
    result := TakeWhileFits(value, maximumBytes);
  }

  /** The loop both functions have: add characters until one would not fit. */
  method TakeWhileFits(value: Text, maximumBytes: int) returns (result: Text)
    ensures result == Truncated(value, maximumBytes)
  {
    result := [];
    var i := 0;
    assert value[..0] == [];
    while i < |value|
      invariant Progress(value, maximumBytes, i) && result == value[..i]
      decreases |value| - i
    {
      var j := Next(value, i);
      var character := value[i..j];
      ProgressContinues(value, maximumBytes, i);
      assert result + character == value[..j];
      if ByteLength(result + character) > maximumBytes {
        return;
      }
      result := result + character;
      i := j;
    }
  }

  /** "[redacted secret-shaped result]" in code units. */
  function RedactedText(): Text {
    AsciiText("[redacted secret-shaped result]")
  }

  function AsciiText(s: string): Text {
    seq(|s|, i requires 0 <= i < |s| => if s[i] as int < 0x80 then s[i] as int else 0xfffd)
  }

  /** `previewFor`, given whether the result looks like a secret and its JSON rendering. */
  method PreviewFor(secretShaped: bool, rendered: Text, maximumBytes: int) returns (value: Text, redactionCount: nat)
    ensures secretShaped ==> value == RedactedText() && redactionCount == 1
    ensures !secretShaped ==> IsLongestFit(rendered, maximumBytes, value) && redactionCount == 0
    ensures !secretShaped ==> value == Truncated(rendered, maximumBytes)
  {
    if secretShaped {
      return RedactedText(), 1;
    }
    TruncatedFits(rendered, maximumBytes);
    value := TakeWhileFits(rendered, maximumBytes);
    redactionCount := 0;
  }
}
