/** UTF-8 (section 3 of RFC 3629) over UTF-16 (sections 2.1 and 2.2 of RFC 2781), as short recursive
    definitions. The optimised transcoders are proved against these. */
module Utf8 {
  type Byte = b: int | 0 <= b < 0x100
  type Unit = u: int | 0 <= u < 0x1_0000
  type CodePoint = v: int | 0 <= v < 0x11_0000

  const REPLACEMENT: CodePoint := 0xFFFD

  predicate IsHigh(u: int) { 0xD800 <= u <= 0xDBFF }

  predicate IsLow(u: int) { 0xDC00 <= u <= 0xDFFF }

  predicate IsSurrogate(v: int) { IsHigh(v) || IsLow(v) }

  /** The octet sequence of one character number. */
  function Octets(v: CodePoint): seq<Byte> {
    if v < 0x80 then [v]
    else if v < 0x800 then [0xC0 + v / 0x40, 0x80 + v % 0x40]
    else if v < 0x1_0000 then [0xE0 + v / 0x1000, 0x80 + v / 0x40 % 0x40, 0x80 + v % 0x40]
    else [0xF0 + v / 0x4_0000, 0x80 + v / 0x1000 % 0x40, 0x80 + v / 0x40 % 0x40, 0x80 + v % 0x40]
  }

  /** The one or two UTF-16 code units of one character number. */
  function Units(v: CodePoint): seq<Unit> {
    if v < 0x1_0000 then [v]
    else [0xD800 + (v - 0x1_0000) / 0x400, 0xDC00 + (v - 0x1_0000) % 0x400]
  }

  function OctetsOf(vs: seq<CodePoint>): seq<Byte> {
    if vs == [] then [] else Octets(vs[0]) + OctetsOf(vs[1..])
  }

  function UnitsOf(vs: seq<CodePoint>): seq<Unit> {
    if vs == [] then [] else Units(vs[0]) + UnitsOf(vs[1..])
  }

  function Pair(high: Unit, low: Unit): CodePoint
    requires IsHigh(high) && IsLow(low)
  {
    0x1_0000 + (high - 0xD800) * 0x400 + (low - 0xDC00)
  }

  /** The character numbers of a UTF-16 string; every unpaired surrogate reads as U+FFFD. */
  function Scalars(s: seq<Unit>): seq<CodePoint> {
    if s == [] then []
    else if IsHigh(s[0]) && |s| > 1 && IsLow(s[1]) then [Pair(s[0], s[1])] + Scalars(s[2..])
    else if IsSurrogate(s[0]) then [REPLACEMENT] + Scalars(s[1..])
    else [s[0]] + Scalars(s[1..])
  }

  /** No unpaired surrogate. */
  predicate WellFormed(s: seq<Unit>) {
    s == [] ||
    (if IsHigh(s[0]) then |s| > 1 && IsLow(s[1]) && WellFormed(s[2..])
     else !IsLow(s[0]) && WellFormed(s[1..]))
  }

  /** One-pass decoding: where the octets of a character stand, that character; otherwise one U+FFFD for one
      byte. Character numbers in the surrogate range are accepted, which RFC 3629 forbids but the code does. */
  ghost function Decode(b: seq<Byte>): seq<Unit>
    decreases |b|
  {
    if b == [] then []
    else if v: CodePoint :| Octets(v) <= b then Units(v) + Decode(b[|Octets(v)|..])
    else [REPLACEMENT] + Decode(b[1..])
  }
}
