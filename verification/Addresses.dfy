/** Splitting and joining text, as String.prototype.split and a template literal do. */
module TextParts {
  predicate MatchesAt(s: string, sep: string, j: nat) {
    j + |sep| <= |s| && s[j..j + |sep|] == sep
  }

  /** Where the first occurrence of `sep` starts; |s| when there is none. */
  function IndexOf(s: string, sep: string): (k: nat)
    requires sep != ""
    ensures k == |s| || k + |sep| <= |s|
    decreases |s|
  {
    if |s| < |sep| then |s| else if MatchesAt(s, sep, 0) then 0 else IndexOf(s[1..], sep) + 1
  }

  function Split(s: string, sep: string): seq<string>
    requires sep != ""
    decreases |s|
  {
    var k := IndexOf(s, sep);
    if k == |s| then [s] else [s[..k]] + Split(s[k + |sep|..], sep)
  }

  function LastIndexOf(s: string, c: char): (k: int)
    ensures -1 <= k < |s|
  {
    if s == "" then -1
    else if s[|s| - 1] == c then |s| - 1
    else LastIndexOf(s[..|s| - 1], c)
  }

  function Join(parts: seq<string>, sep: string): string {
    if parts == [] then ""
    else if |parts| == 1 then parts[0]
    else parts[0] + sep + Join(parts[1..], sep)
  }

  ghost predicate Lacks(parts: seq<string>, c: char) {
    forall i :: 0 <= i < |parts| ==> c !in parts[i]
  }

  /** No two neighbours are both c. */
  ghost predicate NoPair(s: string, c: char) {
    forall j :: 0 <= j < |s| - 1 ==> s[j] != c || s[j + 1] != c
  }

  lemma {:induction false} FirstMatch(s: string, sep: string, k: nat)
    requires sep != "" && MatchesAt(s, sep, k)
    requires forall j: nat :: j < k ==> !MatchesAt(s, sep, j)
    ensures IndexOf(s, sep) == k
    decreases k
  {
    if k > 0 {
      assert !MatchesAt(s, sep, 0);
      forall j: nat
        ensures MatchesAt(s[1..], sep, j) == MatchesAt(s, sep, j + 1)
      {
        MatchInTail(s, sep, j);
      }
      assert MatchesAt(s[1..], sep, k - 1);
      FirstMatch(s[1..], sep, k - 1);
    }
  }

  lemma MatchInTail(s: string, sep: string, j: nat)
    requires s != ""
    ensures MatchesAt(s[1..], sep, j) == MatchesAt(s, sep, j + 1)
  {
    if j + 1 + |sep| <= |s| {
      assert s[1..][j..j + |sep|] == s[j + 1..j + 1 + |sep|];
    }
  }

  lemma {:induction false} NoMatch(s: string, sep: string)
    requires sep != ""
    requires forall j: nat :: !MatchesAt(s, sep, j)
    ensures IndexOf(s, sep) == |s|
    decreases |s|
  {
    if |s| >= |sep| {
      forall j: nat
        ensures !MatchesAt(s[1..], sep, j)
      {
        MatchInTail(s, sep, j);
      }
      NoMatch(s[1..], sep);
    }
  }

  lemma SplitAbsent(s: string, c: char)
    requires c !in s
    ensures Split(s, [c]) == [s]
  {
    forall j: nat
      ensures !MatchesAt(s, [c], j)
    {
      assert j < |s| ==> s[j..j + 1][0] == s[j];
    }
    NoMatch(s, [c]);
  }

  lemma SplitHead(head: string, c: char, rest: string)
    requires c !in head
    ensures Split(head + [c] + rest, [c]) == [head] + Split(rest, [c])
  {
    var s := head + [c] + rest;
    forall j: nat | j < |head|
      ensures !MatchesAt(s, [c], j)
    {
      assert s[j..j + 1][0] == head[j];
    }
    FirstMatch(s, [c], |head|);
    assert s[..|head|] == head && s[|head| + 1..] == rest;
  }

  /** Splitting undoes joining when no part holds the separator. */
  lemma {:induction false} SplitOfJoin(parts: seq<string>, c: char)
    requires parts != [] && Lacks(parts, c)
    ensures Split(Join(parts, [c]), [c]) == parts
    decreases |parts|
  {
    if |parts| == 1 {
      SplitAbsent(parts[0], c);
    } else {
      SplitHead(parts[0], c, Join(parts[1..], [c]));
      SplitOfJoin(parts[1..], c);
    }
  }

  /** A joined list of separator-free, non-empty parts has no doubled or outer separator. */
  lemma {:induction false} JoinHasNoPair(parts: seq<string>, c: char)
    requires Lacks(parts, c) && "" !in parts
    ensures NoPair(Join(parts, [c]), c)
    ensures parts != [] ==> var s := Join(parts, [c]); s != "" && s[0] != c && s[|s| - 1] != c
    decreases |parts|
  {
    if |parts| >= 1 {
      assert parts[0] in parts;
      if |parts| > 1 {
        assert forall p :: p in parts[1..] ==> p in parts;
        JoinHasNoPair(parts[1..], c);
      }
    }
  }

  lemma {:induction false} JoinLacks(parts: seq<string>, sep: char, c: char)
    requires Lacks(parts, c) && sep != c
    ensures c !in Join(parts, [sep])
    decreases |parts|
  {
    if |parts| > 1 {
      JoinLacks(parts[1..], sep, c);
    }
  }

  lemma {:induction false} JoinSnoc(parts: seq<string>, last: string, sep: string)
    requires parts != []
    ensures Join(parts + [last], sep) == Join(parts, sep) + sep + last
    decreases |parts|
  {
    var all := parts + [last];
    if |parts| == 1 {
      assert all[1..] == [last];
    } else {
      assert all[1..] == parts[1..] + [last];
      JoinSnoc(parts[1..], last, sep);
      assert all[0] == parts[0];
    }
  }

  /** Splitting at the one doubled separator of A::B. */
  lemma SplitAtPair(a: string, b: string, c: char)
    requires NoPair(a, c) && NoPair(b, c)
    requires a != "" ==> a[|a| - 1] != c
    requires b != "" ==> b[0] != c
    ensures Split(a + [c, c] + b, [c, c]) == [a, b]
  {
    var s, sep := a + [c, c] + b, [c, c];
    forall j: nat | j < |a|
      ensures !MatchesAt(s, sep, j)
    {
      assert s[j..j + 2][0] == s[j] && s[j..j + 2][1] == s[j + 1];
    }
    assert s[|a|..|a| + 2] == sep;
    FirstMatch(s, sep, |a|);
    assert s[..|a|] == a && s[|a| + 2..] == b;
    SplitWithoutPair(b, c);
  }

  lemma SplitWithoutPair(s: string, c: char)
    requires NoPair(s, c)
    ensures Split(s, [c, c]) == [s]
  {
    var sep := [c, c];
    forall j: nat
      ensures !MatchesAt(s, sep, j)
    {
      assert j + 2 <= |s| ==> s[j..j + 2][0] == s[j] && s[j..j + 2][1] == s[j + 1];
    }
    NoMatch(s, sep);
  }

  lemma {:induction false} LastIndexAfter(head: string, c: char, tail: string)
    requires c !in tail
    ensures LastIndexOf(head + [c] + tail, c) == |head|
    decreases |tail|
  {
    var s := head + [c] + tail;
    if tail != "" {
      assert s[|s| - 1] == tail[|tail| - 1];
      assert s[..|s| - 1] == head + [c] + tail[..|tail| - 1];
      LastIndexAfter(head, c, tail[..|tail| - 1]);
    }
  }
}

/**
 * The outbound-address filter: text to number, then mask tests. The reference side is
 * RFC 4291 (section 2.2 for the spellings, section 2.5.5.2 for the IPv4-mapped form)
 * and plain intervals of numbers.
 */
module Addresses {
  import opened Basics
  import opened Bits
  import opened TextParts

  /** What `isIP` answers; the classification itself is the runtime's. */
  datatype IpVersion = V4 | V6 | NotAnAddress

  // ---- numerals ----

  function DecimalDigit(c: char): Option<nat> {
    if '0' <= c <= '9' then Some(c as nat - '0' as nat) else None
  }

  function HexDigit(c: char): Option<nat> {
    if '0' <= c <= '9' then Some(c as nat - '0' as nat)
    else if 'a' <= c <= 'f' then Some(c as nat - 'a' as nat + 10)
    else if 'A' <= c <= 'F' then Some(c as nat - 'A' as nat + 10)
    else None
  }

  predicate IsDecimal(s: string) {
    s != "" && forall i :: 0 <= i < |s| ==> DecimalDigit(s[i]).Some?
  }

  predicate IsHex(s: string) {
    s != "" && forall i :: 0 <= i < |s| ==> HexDigit(s[i]).Some?
  }

  function DecimalValue(s: string): nat
    requires forall i :: 0 <= i < |s| ==> DecimalDigit(s[i]).Some?
  {
    if s == "" then 0 else 10 * DecimalValue(s[..|s| - 1]) + DecimalDigit(s[|s| - 1]).value
  }

  function HexValue(s: string): nat
    requires forall i :: 0 <= i < |s| ==> HexDigit(s[i]).Some?
  {
    if s == "" then 0 else 16 * HexValue(s[..|s| - 1]) + HexDigit(s[|s| - 1]).value
  }

  /** `Number(segment)` under `|`, where NaN counts as zero. */
  function NumberOf(segment: string): nat {
    if IsDecimal(segment) then DecimalValue(segment) else 0
  }

  /** BigInt(`0x${part}`), which throws unless the part is hexadecimal digits. */
  function BigIntOf(part: string): Option<nat> {
    if IsHex(part) then Some(HexValue(part)) else None
  }

  function HexChar(d: nat): char
    requires d < 16
  {
    if d < 10 then ('0' as nat + d) as char else ('a' as nat + d - 10) as char
  }

  /** `n.toString(16)` */
  function HexText(n: nat): string {
    if n < 16 then [HexChar(n)] else HexText(n / 16) + [HexChar(n % 16)]
  }

  // ---- http-adapter.ts ----

  function FoldOctets(segments: seq<string>, value: int): int {
    if segments == [] then value
    else FoldOctets(segments[1..], NumberOr(NumberShiftLeft(value, 8), NumberOf(segments[0])))
  }

  function Ipv4ToNumber(address: string): nat {
    NumberShiftRight(FoldOctets(Split(address, "."), 0), 0)
  }

  function FoldGroups(parts: seq<string>, value: nat): Option<nat> {
    if parts == [] then Some(value)
    else
      match BigIntOf(parts[0])
      case None => None
      case Some(group) => FoldGroups(parts[1..], Or(ShiftLeft(value, 16), group))
  }

  function HighText(ipv4: nat): string {
    HexText(NumberShiftRight(ipv4, 16))
  }

  function LowText(ipv4: nat): string {
    HexText(NumberAnd(ipv4, 0xffff))
  }

  function Normalize(address: string): string {
    if '.' in address then
      var index := LastIndexOf(address, ':');
      var ipv4 := Ipv4ToNumber(address[index + 1..]);
      // slice(0, -1) drops the last character when there is no colon
      var head := if index >= 0 then address[..index] else address[..|address| - 1];
      head + ":" + HighText(ipv4) + ":" + LowText(ipv4)
    else
      address
  }

  function Zeros(n: int): seq<string> {
    if n <= 0 then [] else ["0"] + Zeros(n - 1)
  }

  function PartsOf(side: string): seq<string> {
    if side == "" then [] else Split(side, ":")
  }

  function ReadGroups(normalized: string): Option<nat> {
    var sides := Split(normalized, "::");
    var left := PartsOf(sides[0]);
    var right := if |sides| < 2 then [] else PartsOf(sides[1]);
    FoldGroups(left + Zeros(8 - |left| - |right|) + right, 0)
  }

  function Ipv6ToBigInt(address: string): Option<nat> {
    ReadGroups(Normalize(address))
  }

  predicate HasPrefix(value: nat, network: nat, prefix: nat)
    requires prefix <= 128
  {
    var mask := ShiftLeft(ShiftLeft(1, prefix) - 1, 128 - prefix);
    And(value, mask) == And(network, mask)
  }

  predicate MatchesNetwork(value: nat, network: nat, prefix: nat)
    requires prefix <= 32
  {
    var mask := NumberShiftRight(NumberShiftLeft(0xffff_ffff, 32 - prefix), 0);
    NumberShiftRight(NumberAnd(value, mask), 0) == network
  }

  const FORBIDDEN_NETWORKS: seq<(nat, nat)> := [
    (0x0000_0000, 8), (0x0a00_0000, 8), (0x6440_0000, 10), (0x7f00_0000, 8),
    (0xa9fe_0000, 16), (0xac10_0000, 12), (0xc0a8_0000, 16), (0xe000_0000, 4)]

  predicate IsForbiddenIpv4(value: nat) {
    exists i :: 0 <= i < |FORBIDDEN_NETWORKS| &&
      MatchesNetwork(value, FORBIDDEN_NETWORKS[i].0, FORBIDDEN_NETWORKS[i].1)
  }

  predicate IsForbiddenIpv6(value: nat) {
    if ShiftRight(value, 32) == 0xffff then
      IsForbiddenIpv4(And(value, 0xffff_ffff))
    else
      || value == 0
      || value == 1
      || HasPrefix(value, ShiftLeft(0xfc00, 112), 7)
      || HasPrefix(value, ShiftLeft(0xfe80, 112), 10)
  }

  /** None when the conversion throws. */
  function IsForbiddenAddress(address: string, version: IpVersion): Option<bool> {
    match version
    case V4 => Some(IsForbiddenIpv4(Ipv4ToNumber(address)))
    case NotAnAddress => Some(true)
    case V6 =>
      match Ipv6ToBigInt(address)
      case None => None
      case Some(value) => Some(IsForbiddenIpv6(value))
  }

  // ---- IPv4: text to number ----

  ghost predicate IsQuad(quad: seq<string>) {
    |quad| == 4 && forall i :: 0 <= i < 4 ==> IsDecimal(quad[i]) && DecimalValue(quad[i]) < 256
  }

  function Octet(quad: seq<string>, i: nat): nat
    requires IsQuad(quad) && i < 4
  {
    DecimalValue(quad[i])
  }

  ghost function QuadValue(quad: seq<string>): nat
    requires IsQuad(quad)
  {
    0x100_0000 * Octet(quad, 0) + 0x1_0000 * Octet(quad, 1) + 0x100 * Octet(quad, 2) + Octet(quad, 3)
  }

  /** One fold step appends an octet, although the accumulator may be negative. */
  lemma OctetAppended(value: int, octet: nat)
    requires ToUint32(value) < 0x100_0000 && octet < 256
    ensures ToUint32(NumberOr(NumberShiftLeft(value, 8), octet)) == 0x100 * ToUint32(value) + octet
  {
    var u := ToUint32(value);
    var shifted := ShiftLeft(u, 8);
    ShiftByEight(u);
    SmallWord(shifted);
    UnsignedOfSigned(shifted);
    assert NumberShiftLeft(value, 8) == ToInt32(shifted);
    assert ToUint32(NumberShiftLeft(value, 8)) == shifted;
    SmallWord(octet);
    assert octet < Pow2(8);
    OrIsSum(u, octet, 8);
    SmallWord(shifted + octet);
    UnsignedOfSigned(shifted + octet);
  }

  lemma FoldStep(segments: seq<string>, value: int) returns (next: int)
    requires segments != [] && IsDecimal(segments[0]) && DecimalValue(segments[0]) < 256
    requires ToUint32(value) < 0x100_0000
    ensures ToUint32(next) == 0x100 * ToUint32(value) + DecimalValue(segments[0])
    ensures FoldOctets(segments, value) == FoldOctets(segments[1..], next)
  {
    OctetAppended(value, DecimalValue(segments[0]));
    next := NumberOr(NumberShiftLeft(value, 8), NumberOf(segments[0]));
  }

  /** A dotted quad is read as the positional value of its four octets. */
  lemma Ipv4IsPositional(quad: seq<string>)
    requires IsQuad(quad)
    ensures Ipv4ToNumber(Join(quad, ".")) == QuadValue(quad) < 0x1_0000_0000
  {
    assert Lacks(quad, '.');
    SplitOfJoin(quad, '.');
    FoldQuad(quad);
  }

  lemma FoldQuad(quad: seq<string>)
    requires IsQuad(quad)
    ensures ToUint32(FoldOctets(quad, 0)) == QuadValue(quad) < 0x1_0000_0000
  {
    var a := FoldStep(quad, 0);
    var b := FoldStep(quad[1..], a);
    assert quad[1..][1..] == quad[2..];
    var c := FoldStep(quad[2..], b);
    assert quad[2..][1..] == quad[3..];
    var d := FoldStep(quad[3..], c);
    assert quad[3..][1..] == [];
  }

  // ---- IPv6: text to number ----

  /** A group of section 2.2: one to four hexadecimal digits. */
  predicate IsGroup(text: string) {
    IsHex(text) && |text| <= 4
  }

  ghost predicate AreGroups(texts: seq<string>) {
    forall i :: 0 <= i < |texts| ==> IsGroup(texts[i])
  }

  function GroupValue(text: string): nat {
    if IsHex(text) then HexValue(text) else 0
  }

  function Values(texts: seq<string>): seq<nat> {
    seq(|texts|, i requires 0 <= i < |texts| => GroupValue(texts[i]))
  }

  /** Most significant group first, 16 bits a group. */
  function Positional(groups: seq<nat>): nat {
    if groups == [] then 0
    else ShiftLeft(groups[0], 16 * (|groups| - 1)) + Positional(groups[1..])
  }

  /**
   * A spelling of section 2.2: groups, optionally with one `::` standing for one or more
   * zero groups, optionally ending in a dotted quad that stands for the last two groups.
   */
  datatype Spelling = Spelling(front: seq<string>, elided: bool, back: seq<string>, quad: Option<seq<string>>)

  ghost predicate IsSpelling(sp: Spelling) {
    && AreGroups(sp.front) && AreGroups(sp.back)
    && (sp.quad.Some? ==> IsQuad(sp.quad.value))
    && var written := |sp.front| + |sp.back| + (if sp.quad.Some? then 2 else 0);
    && (if sp.elided then written <= 7 else sp.back == [] && written == 8)
  }

  function QuadTail(sp: Spelling): seq<string> {
    if sp.quad.Some? then [Join(sp.quad.value, ".")] else []
  }

  /** The text of a spelling. */
  function Text(sp: Spelling): string {
    if sp.elided then Join(sp.front, ":") + "::" + Join(sp.back + QuadTail(sp), ":")
    else Join(sp.front + QuadTail(sp), ":")
  }

  function ZeroGroups(n: nat): (r: seq<nat>)
    ensures |r| == n
  {
    if n == 0 then [] else [0] + ZeroGroups(n - 1)
  }

  ghost function QuadGroups(quad: seq<string>): seq<nat>
    requires IsQuad(quad)
  {
    [0x100 * Octet(quad, 0) + Octet(quad, 1), 0x100 * Octet(quad, 2) + Octet(quad, 3)]
  }

  /** The eight groups a spelling stands for. */
  ghost function Groups(sp: Spelling): (r: seq<nat>)
    requires IsSpelling(sp)
    ensures |r| == 8
  {
    var tail := if sp.quad.Some? then QuadGroups(sp.quad.value) else [];
    Values(sp.front) + ZeroGroups(8 - |sp.front| - |sp.back| - |tail|) + Values(sp.back) + tail
  }

  lemma {:induction false} HexIsBounded(text: string)
    requires forall i :: 0 <= i < |text| ==> HexDigit(text[i]).Some?
    ensures HexValue(text) < Pow2(4 * |text|)
    decreases |text|
  {
    if text != "" {
      HexIsBounded(text[..|text| - 1]);
      var k: nat := 4 * (|text| - 1);
      assert Pow2(k + 2) == 4 * Pow2(k) && Pow2(k + 4) == 4 * Pow2(k + 2);
    }
  }

  lemma GroupIsBounded(text: string)
    requires IsGroup(text)
    ensures GroupValue(text) < 0x1_0000
  {
    HexIsBounded(text);
    WordIsPow2();
    if |text| < 4 {
      Pow2Grows(4 * |text|, 16);
    }
  }

  lemma {:induction false} PositionalIsBounded(groups: seq<nat>)
    requires forall i :: 0 <= i < |groups| ==> groups[i] < 0x1_0000
    ensures Positional(groups) < Pow2(16 * |groups|)
  {
    if groups != [] {
      PositionalIsBounded(groups[1..]);
      GroupFillsBlock(groups[0], 16 * (|groups| - 1));
    }
  }

  lemma GroupFillsBlock(group: nat, k: nat)
    requires group < 0x1_0000
    ensures ShiftLeft(group, k) + Pow2(k) <= Pow2(16 + k)
  {
    var p := Pow2(16);
    assert p == 0x1_0000 by { WordIsPow2(); }
    ShiftLeftGrows(group, p, k);
    assert ShiftLeft(p, k) == Pow2(16 + k) by {
      Pow2IsShift(16);
      ShiftOfShift(1, 16, k);
      Pow2IsShift(16 + k);
    }
  }

  lemma GroupAppended(value: nat, group: nat, k: nat)
    requires group < 0x1_0000
    ensures var next := Or(ShiftLeft(value, 16), group);
      ShiftLeft(next, k) == ShiftLeft(value, 16 + k) + ShiftLeft(group, k)
  {
    var shifted := ShiftLeft(value, 16);
    assert Or(shifted, group) == shifted + group by {
      WordIsPow2();
      OrIsSum(value, group, 16);
    }
    ShiftLeftAdds(shifted, group, k);
    ShiftOfShift(value, 16, k);
  }

  /** Folding appends each group below the accumulator. */
  lemma {:induction false} FoldIsPositional(parts: seq<string>, value: nat)
    requires AreGroups(parts)
    ensures FoldGroups(parts, value) == Some(ShiftLeft(value, 16 * |parts|) + Positional(Values(parts)))
    decreases |parts|
  {
    if parts != [] {
      var group := GroupValue(parts[0]);
      assert Values(parts)[1..] == Values(parts[1..]);
      var k: nat := 16 * (|parts| - 1);
      GroupIsBounded(parts[0]);
      GroupAppended(value, group, k);
      FoldIsPositional(parts[1..], Or(ShiftLeft(value, 16), group));
      assert 16 + k == 16 * |parts|;
    }
  }

  lemma {:induction false} ZerosAreGroups(n: nat)
    ensures AreGroups(Zeros(n)) && |Zeros(n)| == n && Values(Zeros(n)) == ZeroGroups(n)
  {
    if n > 0 {
      ZerosAreGroups(n - 1);
      assert IsHex("0") && HexValue("0") == 0;
      assert Zeros(n) == ["0"] + Zeros(n - 1);
    }
  }

  lemma {:induction false} HexTextReads(n: nat)
    ensures IsHex(HexText(n)) && HexValue(HexText(n)) == n
    ensures n < 0x1_0000 ==> |HexText(n)| <= 4
    ensures n < 0x1000 ==> |HexText(n)| <= 3
    ensures n < 0x100 ==> |HexText(n)| <= 2
  {
    if n >= 16 {
      HexTextReads(n / 16);
      var text := HexText(n);
      assert text[..|text| - 1] == HexText(n / 16);
    }
  }

  lemma GroupsLackMarks(texts: seq<string>)
    requires AreGroups(texts)
    ensures Lacks(texts, ':') && Lacks(texts, '.') && "" !in texts
  {
  }

  /** Splitting a joined side gives its groups back. */
  lemma SideParts(groups: seq<string>)
    requires AreGroups(groups)
    ensures PartsOf(Join(groups, ":")) == groups
  {
    GroupsLackMarks(groups);
    JoinHasNoPair(groups, ':');
    if groups != [] {
      SplitOfJoin(groups, ':');
    }
  }

  /** Spellings without a dotted quad. */
  lemma HexSpellingIsPositional(sp: Spelling)
    requires IsSpelling(sp) && sp.quad.None?
    ensures ReadGroups(Text(sp)) == Some(Positional(Groups(sp)))
  {
    SideParts(sp.front);
    SideParts(sp.back);
    SidesOf(sp);
    PaddedGroups(sp);
  }

  /** The written groups with the elided zeros put back. */
  lemma PaddedGroups(sp: Spelling)
    requires IsSpelling(sp) && sp.quad.None?
    ensures FoldGroups(sp.front + Zeros(8 - |sp.front| - |sp.back|) + sp.back, 0) == Some(Positional(Groups(sp)))
  {
    var zeros := Zeros(8 - |sp.front| - |sp.back|);
    var parts := sp.front + zeros + sp.back;
    ZerosAreGroups(8 - |sp.front| - |sp.back|);
    assert Groups(sp) == Values(parts);
    FoldIsPositional(parts, 0);
    ShiftZero(16 * |parts|);
  }

  lemma HexTextHasNoDot(sp: Spelling)
    requires IsSpelling(sp) && sp.quad.None?
    ensures '.' !in Text(sp)
    ensures sp.back + QuadTail(sp) == sp.back && sp.front + QuadTail(sp) == sp.front
  {
    GroupsLackMarks(sp.front);
    GroupsLackMarks(sp.back);
    JoinLacks(sp.front, ':', '.');
    JoinLacks(sp.back, ':', '.');
    assert sp.back + QuadTail(sp) == sp.back && sp.front + QuadTail(sp) == sp.front;
  }

  lemma SidesOf(sp: Spelling)
    requires IsSpelling(sp) && sp.quad.None?
    ensures Split(Text(sp), "::") ==
            if sp.elided then [Join(sp.front, ":"), Join(sp.back, ":")] else [Join(sp.front, ":")]
  {
    HexTextHasNoDot(sp);
    GroupsLackMarks(sp.front);
    GroupsLackMarks(sp.back);
    JoinHasNoPair(sp.front, ':');
    JoinHasNoPair(sp.back, ':');
    if sp.elided {
      SplitAtPair(Join(sp.front, ":"), Join(sp.back, ":"), ':');
    } else {
      SplitWithoutPair(Join(sp.front, ":"), ':');
    }
  }

  // ---- the dotted-quad ending ----

  lemma HalvesOf(high: nat, low: nat)
    requires high < 0x1_0000 && low < 0x1_0000
    ensures NumberShiftRight(0x1_0000 * high + low, 16) == high
    ensures NumberAnd(0x1_0000 * high + low, 0xffff) == low
  {
    var v := 0x1_0000 * high + low;
    SmallWord(v);
    SmallWord(0xffff);
    ShiftBySixteen(high);
    WordIsPow2();
    ShiftRightIs(v, high, low, 16);
    AndLowMask(v, 16);
  }

  function QuadParts(quad: seq<string>): seq<string> {
    var ipv4 := Ipv4ToNumber(Join(quad, "."));
    [HighText(ipv4), LowText(ipv4)]
  }

  /** The two groups written in place of a quad read back as the quad's halves. */
  lemma QuadAsGroups(quad: seq<string>)
    requires IsQuad(quad)
    ensures AreGroups(QuadParts(quad)) && Values(QuadParts(quad)) == QuadGroups(quad)
  {
    Ipv4IsPositional(quad);
    var high, low := 0x100 * Octet(quad, 0) + Octet(quad, 1), 0x100 * Octet(quad, 2) + Octet(quad, 3);
    HalvesOf(high, low);
    HexTextReads(high);
    HexTextReads(low);
    assert QuadParts(quad) == [HexText(high), HexText(low)];
  }

  lemma QuadTextMarks(quad: seq<string>)
    requires IsQuad(quad)
    ensures ':' !in Join(quad, ".") && '.' in Join(quad, ".")
  {
    JoinLacks(quad, '.', ':');
    assert Join(quad, ".") == quad[0] + "." + Join(quad[1..], ".");
  }

  lemma NormalizeEnding(head: string, quad: seq<string>)
    requires IsQuad(quad)
    ensures Normalize(head + ":" + Join(quad, ".")) == head + ":" + QuadParts(quad)[0] + ":" + QuadParts(quad)[1]
  {
    var tail := Join(quad, ".");
    var address := head + ":" + tail;
    QuadTextMarks(quad);
    assert address[|head| + 1..] == tail && address[..|head|] == head;
    LastIndexAfter(head, ':', tail);
    assert address[|head| + 1 + 0..] == tail;
    assert '.' in address by {
      var i :| 0 <= i < |tail| && tail[i] == '.';
      assert address[|head| + 1 + i] == '.';
    }
  }

  lemma JoinTwoMore(groups: seq<string>, high: string, low: string)
    ensures Join(groups + [high, low], ":") ==
            (if groups == [] then "" else Join(groups, ":") + ":") + high + ":" + low
  {
    assert groups + [high, low] == groups + [high] + [low];
    JoinSnoc(groups + [high], low, ":");
    if groups != [] {
      JoinSnoc(groups, high, ":");
    } else {
      assert groups + [high] == [high];
    }
  }

  /** The same spelling with the quad written as two groups. */
  function Hexadecimal(sp: Spelling): Spelling
    requires sp.quad.Some?
  {
    var tail := QuadParts(sp.quad.value);
    if sp.elided then sp.(back := sp.back + tail, quad := None) else sp.(front := sp.front + tail, quad := None)
  }

  function Around(front: seq<string>, elided: bool, back: seq<string>, tail: seq<string>): string {
    if elided then Join(front, ":") + "::" + Join(back + tail, ":") else Join(front + tail, ":")
  }

  /** Whatever is written last stands after one and the same text and a colon. */
  lemma EndingsShareHead(front: seq<string>, elided: bool, back: seq<string>, q: string, high: string, low: string)
      returns (head: string)
    requires elided || front != []
    ensures Around(front, elided, back, [q]) == head + ":" + q
    ensures Around(front, elided, back, [high, low]) == head + ":" + high + ":" + low
  {
    var groups := if elided then back else front;
    JoinTwoMore(groups, high, low);
    if groups != [] {
      JoinSnoc(groups, q, ":");
      head := (if elided then Join(front, ":") + "::" else "") + Join(groups, ":");
    } else {
      assert groups + [q] == [q];
      head := Join(front, ":") + ":";
      assert head + ":" == Join(front, ":") + "::";
    }
  }

  lemma NormalizeRewritesQuad(sp: Spelling)
    requires IsSpelling(sp) && sp.quad.Some?
    ensures Normalize(Text(sp)) == Text(Hexadecimal(sp))
  {
    var quad := sp.quad.value;
    var parts := QuadParts(quad);
    var head := EndingsShareHead(sp.front, sp.elided, sp.back, Join(quad, "."), parts[0], parts[1]);
    NormalizeEnding(head, quad);
    assert parts == [parts[0], parts[1]];
    assert Text(sp) == Around(sp.front, sp.elided, sp.back, [Join(quad, ".")]);
    TextOfHexadecimal(sp);
  }

  lemma TextOfHexadecimal(sp: Spelling)
    requires sp.quad.Some?
    ensures Text(Hexadecimal(sp)) == Around(sp.front, sp.elided, sp.back, QuadParts(sp.quad.value))
  {
    var hex := Hexadecimal(sp);
    assert hex.back + [] == hex.back && hex.front + [] == hex.front;
  }

  lemma HexadecimalIsSpelling(sp: Spelling)
    requires IsSpelling(sp) && sp.quad.Some?
    ensures IsSpelling(Hexadecimal(sp)) && Groups(Hexadecimal(sp)) == Groups(sp)
  {
    QuadAsGroups(sp.quad.value);
    var groups := if sp.elided then sp.back else sp.front;
    assert Values(groups + QuadParts(sp.quad.value)) == Values(groups) + QuadGroups(sp.quad.value);
    assert !sp.elided ==> ZeroGroups(8 - |sp.front| - 2) == [];
  }

  /**
   * Every spelling of section 2.2 of RFC 4291, compressed and with an embedded IPv4
   * address included, converts to the positional value of its eight groups.
   */
  lemma Ipv6IsPositional(sp: Spelling)
    requires IsSpelling(sp)
    ensures Ipv6ToBigInt(Text(sp)) == Some(Positional(Groups(sp)))
  {
    var hex := if sp.quad.None? then sp else Hexadecimal(sp);
    assert IsSpelling(hex) && hex.quad.None? && Groups(hex) == Groups(sp) by {
      if sp.quad.Some? { HexadecimalIsSpelling(sp); }
    }
    var text := Text(hex);
    assert Normalize(Text(sp)) == text by {
      if sp.quad.Some? { NormalizeRewritesQuad(sp); } else { HexTextHasNoDot(sp); }
    }
    HexSpellingIsPositional(hex);
  }

  lemma ValuesAreBounded(texts: seq<string>)
    requires AreGroups(texts)
    ensures forall i :: 0 <= i < |texts| ==> Values(texts)[i] < 0x1_0000
  {
    forall i | 0 <= i < |texts|
      ensures Values(texts)[i] < 0x1_0000
    {
      GroupIsBounded(texts[i]);
    }
  }

  // ---- mask tests are intervals ----

  lemma SmallShifts(a: nat)
    ensures ShiftLeft(a, 0) == a && ShiftLeft(a, 4) == 0x10 * a && ShiftLeft(a, 6) == 0x40 * a
    ensures ShiftLeft(a, 8) == 0x100 * a && ShiftLeft(a, 12) == 0x1000 * a
  {
    Quadruples(a);
    ShiftOfShift(a, 2, 2);
    Quadruples(4 * a);
    ShiftOfShift(a, 4, 2);
    Quadruples(16 * a);
    ShiftByEight(a);
    ShiftOfShift(a, 4, 8);
    ShiftByEight(16 * a);
  }

  /** The 32-bit test, for any network and prefix length it can express. */
  lemma NetworkIsInterval(value: nat, n: nat, prefix: nat)
    requires 1 <= prefix <= 32 && value < Pow2(32)
    ensures var network := ShiftLeft(n, 32 - prefix);
      MatchesNetwork(value, network, prefix) <==> network <= value < network + Pow2(32 - prefix)
  {
    var low: nat := 32 - prefix;
    WordIsPow2();
    NumberMask(prefix);
    var mask := ShiftLeft(Pow2(prefix) - 1, low);
    SmallWord(value);
    OnesAboveZeros(prefix, low);
    SmallWord(mask);
    var kept := And(value, mask);
    AndHighMask(value, prefix, low);
    SmallWord(kept);
    UnsignedOfSigned(kept);
    RoundsDownToExactlyItsBlock(value, n, low);
    MatchesByMask(value, ShiftLeft(n, low), prefix, mask);
  }

  lemma MatchesByMask(value: nat, network: nat, prefix: nat, mask: nat)
    requires prefix <= 32 && value < 0x1_0000_0000 && mask < 0x1_0000_0000
    requires ToUint32(NumberShiftLeft(0xffff_ffff, 32 - prefix)) == mask
    ensures MatchesNetwork(value, network, prefix) == (And(value, mask) == network)
  {
    SmallWord(value);
    SmallWord(mask);
    SmallWord(And(value, mask));
    UnsignedOfSigned(And(value, mask));
  }

  /** The 128-bit test, likewise. */
  lemma PrefixIsInterval(value: nat, n: nat, prefix: nat)
    requires prefix <= 128 && value < Pow2(128) && ShiftLeft(n, 128 - prefix) < Pow2(128)
    ensures var network := ShiftLeft(n, 128 - prefix);
      HasPrefix(value, network, prefix) <==> network <= value < network + Pow2(128 - prefix)
  {
    MaskedEquality(value, n, prefix, 128 - prefix);
    Pow2IsShift(prefix);
  }

  lemma MaskedEquality(value: nat, n: nat, high: nat, low: nat)
    requires value < Pow2(high + low) && ShiftLeft(n, low) < Pow2(high + low)
    ensures var network, mask := ShiftLeft(n, low), ShiftLeft(Pow2(high) - 1, low);
      And(value, mask) == And(network, mask) <==> network <= value < network + Pow2(low)
  {
    MaskSelectsBlock(value, n, high, low);
    MaskSelectsBlock(ShiftLeft(n, low), n, high, low);
  }

  lemma MaskSelectsBlock(x: nat, n: nat, high: nat, low: nat)
    requires x < Pow2(high + low)
    ensures var network := ShiftLeft(n, low);
      And(x, ShiftLeft(Pow2(high) - 1, low)) == network <==> network <= x < network + Pow2(low)
  {
    AndHighMask(x, high, low);
    RoundsDownToExactlyItsBlock(x, n, low);
  }

  /** A network given by its upper 16 bits. */
  lemma UpperHalfNetwork(value: nat, n: nat, spare: nat)
    requires spare < 16 && value < 0x1_0000_0000
    ensures var start := 0x1_0000 * ShiftLeft(n, spare);
      MatchesNetwork(value, start, 16 - spare) <==> start <= value < start + 0x1_0000 * Pow2(spare)
  {
    WordIsPow2();
    ShiftOfShift(n, spare, 16);
    ShiftBySixteen(ShiftLeft(n, spare));
    Pow2IsShift(spare);
    ShiftOfShift(1, spare, 16);
    ShiftBySixteen(Pow2(spare));
    Pow2IsShift(16 + spare);
    NetworkIsInterval(value, n, 16 - spare);
  }

  /** The IPv4 addresses a request may not reach, first and last of each range. */
  predicate InForbiddenIpv4Range(v: nat) {
    || v <= 0x00ff_ffff
    || 0x0a00_0000 <= v <= 0x0aff_ffff
    || 0x6440_0000 <= v <= 0x647f_ffff
    || 0x7f00_0000 <= v <= 0x7fff_ffff
    || 0xa9fe_0000 <= v <= 0xa9fe_ffff
    || 0xac10_0000 <= v <= 0xac1f_ffff
    || 0xc0a8_0000 <= v <= 0xc0a8_ffff
    || 0xe000_0000 <= v <= 0xefff_ffff
  }

  lemma PlainNetwork(value: nat, n: nat, spare: nat, start: nat, size: nat)
    requires spare < 16 && value < 0x1_0000_0000
    requires start == 0x1_0000 * ShiftLeft(n, spare) && size == 0x1_0000 * ShiftLeft(1, spare)
    ensures MatchesNetwork(value, start, 16 - spare) <==> start <= value < start + size
  {
    UpperHalfNetwork(value, n, spare);
    Pow2IsShift(spare);
  }

  lemma Ipv4TestsAreRanges(value: nat)
    requires value < 0x1_0000_0000
    ensures IsForbiddenIpv4(value) <==> InForbiddenIpv4Range(value)
  {
    EightBitNetwork(value, 0);
    EightBitNetwork(value, 0x0a);
    EightBitNetwork(value, 0x7f);
    SixteenBitNetwork(value, 0xa9fe);
    SixteenBitNetwork(value, 0xc0a8);
    OddNetworks(value);
    EachNetwork(value);
  }

  lemma EightBitNetwork(value: nat, n: nat)
    requires value < 0x1_0000_0000
    ensures MatchesNetwork(value, 0x100_0000 * n, 8) <==> 0x100_0000 * n <= value < 0x100_0000 * (n + 1)
  {
    SmallShifts(n);
    SmallShifts(1);
    PlainNetwork(value, n, 8, 0x100_0000 * n, 0x100_0000);
  }

  lemma SixteenBitNetwork(value: nat, n: nat)
    requires value < 0x1_0000_0000
    ensures MatchesNetwork(value, 0x1_0000 * n, 16) <==> 0x1_0000 * n <= value < 0x1_0000 * (n + 1)
  {
    SmallShifts(n);
    SmallShifts(1);
    PlainNetwork(value, n, 0, 0x1_0000 * n, 0x1_0000);
  }

  lemma OddNetworks(value: nat)
    requires value < 0x1_0000_0000
    ensures MatchesNetwork(value, 0x6440_0000, 10) <==> 0x6440_0000 <= value <= 0x647f_ffff
    ensures MatchesNetwork(value, 0xac10_0000, 12) <==> 0xac10_0000 <= value <= 0xac1f_ffff
    ensures MatchesNetwork(value, 0xe000_0000, 4) <==> 0xe000_0000 <= value <= 0xefff_ffff
  {
    SmallShifts(1);
    SmallShifts(0x191);
    PlainNetwork(value, 0x191, 6, 0x6440_0000, 0x40_0000);
    SmallShifts(0xac1);
    PlainNetwork(value, 0xac1, 4, 0xac10_0000, 0x10_0000);
    SmallShifts(0xe);
    PlainNetwork(value, 0xe, 12, 0xe000_0000, 0x1000_0000);
  }

  /** The table lookup spelled out. */
  lemma EachNetwork(value: nat)
    ensures IsForbiddenIpv4(value) <==>
      || MatchesNetwork(value, 0, 8)
      || MatchesNetwork(value, 0x0a00_0000, 8)
      || MatchesNetwork(value, 0x6440_0000, 10)
      || MatchesNetwork(value, 0x7f00_0000, 8)
      || MatchesNetwork(value, 0xa9fe_0000, 16)
      || MatchesNetwork(value, 0xac10_0000, 12)
      || MatchesNetwork(value, 0xc0a8_0000, 16)
      || MatchesNetwork(value, 0xe000_0000, 4)
  {
    var t := FORBIDDEN_NETWORKS;
    assert |t| == 8;
    assert t[0] == (0, 8) && t[1] == (0x0a00_0000, 8) && t[2] == (0x6440_0000, 10) && t[3] == (0x7f00_0000, 8);
    assert t[4] == (0xa9fe_0000, 16) && t[5] == (0xac10_0000, 12) && t[6] == (0xc0a8_0000, 16) && t[7] == (0xe000_0000, 4);
  }

  /** A dotted quad is refused exactly inside the ranges. */
  lemma Ipv4RefusedExactlyInRanges(quad: seq<string>)
    requires IsQuad(quad)
    ensures IsForbiddenAddress(Join(quad, "."), V4) == Some(InForbiddenIpv4Range(QuadValue(quad)))
  {
    Ipv4IsPositional(quad);
    Ipv4TestsAreRanges(QuadValue(quad));
  }

  // ---- IPv6 ranges ----

  /**
   * ::, ::1, fc00::/7, fe80::/10, and the mapped form ::ffff:a.b.c.d of section 2.5.5.2
   * of RFC 4291 whenever a.b.c.d is refused.
   */
  predicate InForbiddenIpv6Range(v: nat) {
    || v <= 1
    || 0xfc00_0000_0000_0000_0000_0000_0000_0000 <= v <= 0xfdff_ffff_ffff_ffff_ffff_ffff_ffff_ffff
    || 0xfe80_0000_0000_0000_0000_0000_0000_0000 <= v <= 0xfebf_ffff_ffff_ffff_ffff_ffff_ffff_ffff
    || (0xffff_0000_0000 <= v <= 0xffff_ffff_ffff && InForbiddenIpv4Range(v - 0xffff_0000_0000))
  }

  lemma ShiftByWord(a: nat)
    ensures ShiftLeft(a, 32) == 0x1_0000_0000 * a
  {
    ShiftBySixteen(a);
    ShiftBySixteen(0x1_0000 * a);
    ShiftOfShift(a, 16, 16);
  }

  lemma ShiftToTopGroup(a: nat)
    ensures ShiftLeft(a, 112) == 0x1_0000_0000_0000_0000_0000_0000_0000 * a
  {
    var c := 0x1_0000_0000_0000_0000 * a;
    ShiftByTwoWords(a);
    ShiftOfShift(a, 64, 48);
    ShiftByWord(c);
    ShiftBySixteen(0x1_0000_0000 * c);
    ShiftOfShift(c, 32, 16);
  }

  lemma ShiftByTwoWords(a: nat)
    ensures ShiftLeft(a, 64) == 0x1_0000_0000_0000_0000 * a
  {
    ShiftByWord(a);
    ShiftByWord(0x1_0000_0000 * a);
    ShiftOfShift(a, 32, 32);
  }

  /** A power of two counted in units of the top group. */
  lemma TopPower(k: nat, p: nat)
    requires Pow2(k) == p
    ensures Pow2(k + 112) == 0x1_0000_0000_0000_0000_0000_0000_0000 * p
  {
    Pow2IsShift(k);
    Pow2IsShift(k + 112);
    ShiftOfShift(1, k, 112);
    ShiftToTopGroup(p);
  }

  lemma SmallPowers()
    ensures Pow2(6) == 0x40 && Pow2(9) == 0x200 && Pow2(16) == 0x1_0000
  {
    WordIsPow2();
    assert Pow2(4) == 16;
    assert Pow2(6) == 0x40;
    assert Pow2(8) == 0x100;
  }

  lemma AllOnes()
    ensures Pow2(128) == 0x1_0000_0000_0000_0000_0000_0000_0000_0000
    ensures Pow2(121) == 0x200_0000_0000_0000_0000_0000_0000_0000
    ensures Pow2(118) == 0x40_0000_0000_0000_0000_0000_0000_0000
  {
    SmallPowers();
    TopPower(16, 0x1_0000);
    TopPower(9, 0x200);
    TopPower(6, 0x40);
  }

  lemma UniqueLocal(value: nat)
    requires value < Pow2(128)
    ensures HasPrefix(value, ShiftLeft(0xfc00, 112), 7) <==>
      0xfc00_0000_0000_0000_0000_0000_0000_0000 <= value <= 0xfdff_ffff_ffff_ffff_ffff_ffff_ffff_ffff
  {
    AllOnes();
    ShiftToTopGroup(0xfc00);
    SmallShifts(126);
    assert ShiftLeft(126, 9) == 2 * ShiftLeft(126, 8) == 0xfc00;
    ShiftOfShift(126, 9, 112);
    PrefixIsInterval(value, 126, 7);
  }

  lemma LinkLocal(value: nat)
    requires value < Pow2(128)
    ensures HasPrefix(value, ShiftLeft(0xfe80, 112), 10) <==>
      0xfe80_0000_0000_0000_0000_0000_0000_0000 <= value <= 0xfebf_ffff_ffff_ffff_ffff_ffff_ffff_ffff
  {
    AllOnes();
    ShiftToTopGroup(0xfe80);
    SmallShifts(1018);
    ShiftOfShift(1018, 6, 112);
    PrefixIsInterval(value, 1018, 10);
  }

  /** `value >> 32n === 0xffffn` recognises the mapped block, whose low word is the quad. */
  lemma MappedBlock(value: nat)
    ensures ShiftRight(value, 32) == 0xffff <==> 0xffff_0000_0000 <= value <= 0xffff_ffff_ffff
    ensures ShiftRight(value, 32) == 0xffff ==> And(value, 0xffff_ffff) == value - 0xffff_0000_0000
  {
    WordIsPow2();
    ShiftRightRoundsDown(value, 32);
    ShiftByWord(ShiftRight(value, 32));
    AndLowMask(value, 32);
  }

  lemma Ipv6TestsAreRanges(value: nat)
    requires value < Pow2(128)
    ensures IsForbiddenIpv6(value) <==> InForbiddenIpv6Range(value)
  {
    MappedBlock(value);
    if ShiftRight(value, 32) == 0xffff {
      Ipv4TestsAreRanges(And(value, 0xffff_ffff));
    } else {
      UniqueLocal(value);
      LinkLocal(value);
    }
  }

  lemma GroupsAreBounded(sp: Spelling)
    requires IsSpelling(sp)
    ensures forall i :: 0 <= i < 8 ==> Groups(sp)[i] < 0x1_0000
  {
    ValuesAreBounded(sp.front);
    ValuesAreBounded(sp.back);
    ZeroGroupsAreZero(8 - |sp.front| - |sp.back| - (if sp.quad.Some? then 2 else 0));
    if sp.quad.Some? {
      var quad := sp.quad.value;
      assert forall i :: 0 <= i < 4 ==> Octet(quad, i) < 256;
    }
  }

  lemma {:induction false} ZeroGroupsAreZero(n: nat)
    ensures forall i :: 0 <= i < n ==> ZeroGroups(n)[i] == 0
  {
    if n > 0 {
      ZeroGroupsAreZero(n - 1);
    }
  }

  /** Any spelling of an IPv6 address is refused exactly inside the ranges. */
  lemma Ipv6RefusedExactlyInRanges(sp: Spelling)
    requires IsSpelling(sp)
    ensures IsForbiddenAddress(Text(sp), V6) == Some(InForbiddenIpv6Range(Positional(Groups(sp))))
  {
    Ipv6IsPositional(sp);
    GroupsAreBounded(sp);
    PositionalIsBounded(Groups(sp));
    Ipv6TestsAreRanges(Positional(Groups(sp)));
  }
}
