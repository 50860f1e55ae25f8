/** packages/common/src/encoding.ts, `TextDecoder`: the block-buffered UTF-8 decoder. */
module TextDecoder {
  import opened Sequences
  import opened Utf8

  /** `array[k] & 0xff` of a typed array: a byte, or 0 when `k` is out of range. */
  function At(b: seq<Byte>, k: nat): Byte { if k < |b| then b[k] else 0 }

  predicate IsTail(c: int) { 0x80 <= c < 0xC0 }

  // ---- what the octets of one character look like, read from the front by shifts and masks

  function Join2(a: int, b: int): int { a % 32 * 64 + b % 64 }

  function Join3(a: int, b: int, c: int): int { a % 16 * 4096 + b % 64 * 64 + c % 64 }

  function Join4(a: int, b: int, c: int, d: int): int { a % 8 * 262144 + b % 64 * 4096 + c % 64 * 64 + d % 64 }

  /** Peeling the low six bits off a number that is given digit by digit. */
  lemma Peel(q: nat, r: nat)
    requires r < 64
    ensures (q * 64 + r) / 64 == q && (q * 64 + r) % 64 == r
  {
  }

  lemma Digits3(v: nat, x: nat, y: nat, z: nat)
    requires y < 64 && z < 64 && v == x * 4096 + y * 64 + z
    ensures v / 0x1000 == x && v / 0x40 % 0x40 == y && v % 0x40 == z
  {
    Peel(x * 64 + y, z);
    Peel(x, y);
  }

  lemma Digits4(v: nat, w: nat, x: nat, y: nat, z: nat)
    requires x < 64 && y < 64 && z < 64 && v == w * 262144 + x * 4096 + y * 64 + z
    ensures v / 0x4_0000 == w && v / 0x1000 % 0x40 == x && v / 0x40 % 0x40 == y && v % 0x40 == z
  {
    Digits3(v, w * 64 + x, y, z);
    Peel(w, x);
  }

  /** The octets of a two-byte character are a lead and a tail byte, and the joined bits give it back. */
  lemma Shape2(v: CodePoint, a: Byte, b: Byte)
    ensures Octets(v) == [a, b] <==> 0xC0 <= a < 0xE0 && IsTail(b) && v == Join2(a, b) >= 0x80
  {
  }

  lemma Recompose3(v: nat)
    ensures v == v / 0x1000 * 4096 + v / 0x40 % 0x40 * 64 + v % 0x40
  {
    var q := v / 0x40;
    assert v == q * 64 + v % 0x40 && q == q / 0x40 * 64 + q % 0x40;
    assert q / 0x40 == v / 0x1000;
  }

  lemma Recompose4(v: nat)
    ensures v == v / 0x4_0000 * 262144 + v / 0x1000 % 0x40 * 4096 + v / 0x40 % 0x40 * 64 + v % 0x40
  {
    Recompose3(v);
    var q := v / 0x1000;
    assert q == q / 0x40 * 64 + q % 0x40;
    assert q / 0x40 == v / 0x4_0000;
  }

  lemma Bits3(x: nat, y: nat, z: nat)
    requires x < 16 && y < 64 && z < 64
    ensures Join3(0xE0 + x, 0x80 + y, 0x80 + z) == x * 4096 + y * 64 + z
  {
    assert (0xE0 + x) % 16 == x && (0x80 + y) % 64 == y && (0x80 + z) % 64 == z;
  }

  lemma Joined3(v: CodePoint)
    requires 0x800 <= v < 0x1_0000
    ensures var o := Octets(v);
      |o| == 3 && 0xE0 <= o[0] < 0xF0 && IsTail(o[1]) && IsTail(o[2]) && Join3(o[0], o[1], o[2]) == v
  {
    Recompose3(v);
    assert v / 0x1000 < 16;
    Bits3(v / 0x1000, v / 0x40 % 0x40, v % 0x40);
    hide Join3;
  }

  lemma Split3(v: CodePoint, a: Byte, b: Byte, c: Byte)
    requires 0xE0 <= a < 0xF0 && IsTail(b) && IsTail(c) && v == Join3(a, b, c) >= 0x800
    ensures Octets(v) == [a, b, c]
  {
    Bits3(a - 0xE0, b - 0x80, c - 0x80);
    assert Join3(a, b, c) == (a - 0xE0) * 4096 + (b - 0x80) * 64 + (c - 0x80);
    Digits3(v, a - 0xE0, b - 0x80, c - 0x80);
    hide Join3;
  }

  lemma Shape3(v: CodePoint, a: Byte, b: Byte, c: Byte)
    ensures Octets(v) == [a, b, c] <==>
            0xE0 <= a < 0xF0 && IsTail(b) && IsTail(c) && v == Join3(a, b, c) >= 0x800
  {
    if 0x800 <= v < 0x1_0000 {
      Joined3(v);
      hide Join3;
      if 0xE0 <= a < 0xF0 && IsTail(b) && IsTail(c) && v == Join3(a, b, c) {
        Split3(v, a, b, c);
      }
    }
  }

  lemma Bits4(w: nat, x: nat, y: nat, z: nat)
    requires w < 8 && x < 64 && y < 64 && z < 64
    ensures Join4(0xF0 + w, 0x80 + x, 0x80 + y, 0x80 + z) == w * 262144 + x * 4096 + y * 64 + z
  {
    assert (0xF0 + w) % 8 == w && (0x80 + x) % 64 == x && (0x80 + y) % 64 == y && (0x80 + z) % 64 == z;
  }

  lemma Joined4(v: CodePoint)
    requires v >= 0x1_0000
    ensures var o := Octets(v);
      0xF0 <= o[0] < 0xF8 && IsTail(o[1]) && IsTail(o[2]) && IsTail(o[3]) && v == Join4(o[0], o[1], o[2], o[3])
  {
    Recompose4(v);
    assert v / 0x4_0000 < 8;
    Bits4(v / 0x4_0000, v / 0x1000 % 0x40, v / 0x40 % 0x40, v % 0x40);
    hide Join4;
  }

  lemma Split4(v: CodePoint, a: Byte, b: Byte, c: Byte, d: Byte)
    requires 0xF0 <= a < 0xF8 && IsTail(b) && IsTail(c) && IsTail(d) && v == Join4(a, b, c, d) >= 0x1_0000
    ensures Octets(v) == [a, b, c, d]
  {
    Bits4(a - 0xF0, b - 0x80, c - 0x80, d - 0x80);
    assert Join4(a, b, c, d) == (a - 0xF0) * 262144 + (b - 0x80) * 4096 + (c - 0x80) * 64 + (d - 0x80);
    Digits4(v, a - 0xF0, b - 0x80, c - 0x80, d - 0x80);
    hide Join4;
  }

  /** The front of `b` determines which character, if any, stands there. */
  lemma CharShape(v: CodePoint, b: seq<Byte>)
    requires Octets(v) <= b
    ensures b[0] < 0x80 ==> v == b[0]
    ensures !IsTail(b[0]) && b[0] < 0xF8
    ensures 0xC0 <= b[0] < 0xE0 ==> |b| >= 2 && IsTail(b[1]) && v == Join2(b[0], b[1]) >= 0x80
    ensures 0xE0 <= b[0] < 0xF0 ==>
      |b| >= 3 && IsTail(b[1]) && IsTail(b[2]) && v == Join3(b[0], b[1], b[2]) >= 0x800
    ensures 0xF0 <= b[0] ==>
      |b| >= 4 && IsTail(b[1]) && IsTail(b[2]) && IsTail(b[3]) && v == Join4(b[0], b[1], b[2], b[3]) >= 0x1_0000
  {
    var o := Octets(v);
    assert forall k :: 0 <= k < |o| ==> o[k] == b[k];
    if |o| == 2 { Shape2(v, o[0], o[1]); }
    else if |o| == 3 { Shape3(v, o[0], o[1], o[2]); }
    else if |o| == 4 { Joined4(v); }
  }

  /** The octet sequences are prefix-free, so at most one character stands at the front of a byte sequence. */
  lemma PrefixFree(v: CodePoint, w: CodePoint, b: seq<Byte>)
    requires Octets(v) <= b && Octets(w) <= b
    ensures v == w
  {
    CharShape(v, b);
    CharShape(w, b);
  }

  lemma DecodeChar(v: CodePoint, b: seq<Byte>)
    requires Octets(v) <= b
    ensures Decode(b) == Units(v) + Decode(b[|Octets(v)|..])
  {
    forall w: CodePoint | Octets(w) <= b ensures w == v { PrefixFree(v, w, b); }
  }

  // ---- one step of the decoder, by the lead byte

  lemma DecodeOne(b: seq<Byte>)
    requires b != [] && b[0] < 0x80
    ensures Decode(b) == [b[0]] + Decode(b[1..])
  {
    assert Octets(b[0]) <= b;
    DecodeChar(b[0], b);
  }

  lemma DecodeStray(b: seq<Byte>)
    requires b != [] && (IsTail(b[0]) || b[0] > 0xF7 || (b[0] >= 0xF0 && !IsTail(At(b, 1))))
    ensures Decode(b) == [REPLACEMENT] + Decode(b[1..])
  {
    forall v: CodePoint | Octets(v) <= b ensures false { CharShape(v, b); }
  }

  predicate Good2(b: seq<Byte>) { |b| >= 2 && IsTail(At(b, 1)) && Join2(At(b, 0), At(b, 1)) >= 0x80 }

  predicate Good3(b: seq<Byte>) {
    |b| >= 3 && IsTail(At(b, 1)) && IsTail(At(b, 2)) && Join3(At(b, 0), At(b, 1), At(b, 2)) >= 0x800
  }

  predicate Good4(b: seq<Byte>) {
    |b| >= 4 && IsTail(At(b, 1)) && IsTail(At(b, 2)) && IsTail(At(b, 3)) &&
    0x1_0000 <= Join4(At(b, 0), At(b, 1), At(b, 2), At(b, 3)) < 0x11_0000
  }

  lemma DecodeTwo(b: seq<Byte>)
    requires b != [] && 0xC0 <= b[0] < 0xE0
    ensures Decode(b) == if Good2(b) then [Join2(b[0], At(b, 1))] + Decode(b[2..])
                         else [REPLACEMENT] + Decode(b[1..])
  {
    if Good2(b) {
      var v := Join2(b[0], b[1]);
      Shape2(v, b[0], b[1]);
      assert Octets(v) == b[..2];
      DecodeChar(v, b);
    } else {
      forall v: CodePoint | Octets(v) <= b ensures false { CharShape(v, b); }
    }
  }

  lemma DecodeThree(b: seq<Byte>)
    requires b != [] && 0xE0 <= b[0] < 0xF0
    ensures Decode(b) == if Good3(b) then [Join3(b[0], At(b, 1), At(b, 2))] + Decode(b[3..])
                         else [REPLACEMENT] + Decode(b[1..])
  {
    if Good3(b) {
      var v := Join3(b[0], b[1], b[2]);
      Shape3(v, b[0], b[1], b[2]);
      assert Octets(v) == b[..3];
      DecodeChar(v, b);
    } else {
      forall v: CodePoint | Octets(v) <= b ensures false { CharShape(v, b); }
    }
  }

  lemma DecodeFour(b: seq<Byte>)
    requires b != [] && 0xF0 <= b[0] < 0xF8
    ensures Decode(b) == if Good4(b) then Units(Join4(b[0], At(b, 1), At(b, 2), At(b, 3))) + Decode(b[4..])
                         else [REPLACEMENT] + Decode(b[1..])
  {
    if Good4(b) {
      var v := Join4(b[0], b[1], b[2], b[3]);
      Split4(v, b[0], b[1], b[2], b[3]);
      assert Octets(v) == b[..4];
      DecodeChar(v, b);
    } else {
      forall v: CodePoint | Octets(v) <= b ensures false { CharShape(v, b); }
    }
  }

  // ---- the decoder itself

  function Pow2(n: nat): (p: nat)
    ensures p > 0
  {
    if n == 0 then 1 else 2 * Pow2(n - 1)
  }

  /** `x >> n` for a non-negative `x`. */
  function Shr(x: nat, n: nat): nat { if n == 0 then x else Shr(x / 2, n - 1) }

  lemma {:induction false} ShrIsZero(x: nat, n: nat)
    ensures Shr(x, n) == 0 <==> x < Pow2(n)
  {
    if n > 0 { ShrIsZero(x / 2, n - 1); }
  }

  lemma ShiftsUsed(x: nat)
    requires x < 0x40_0000
    ensures (Shr(x, 7) != 0 <==> x >= 0x80) && (Shr(x, 11) != 0 <==> x >= 0x800)
    ensures (Shr(x, 16) != 0 <==> x >= 0x1_0000) && Shr(x, 31) == 0
  {
    ShrIsZero(x, 7);
    ShrIsZero(x, 11);
    ShrIsZero(x, 16);
    ShrIsZero(x, 31);
    assert Pow2(7) == 0x80;
    assert Pow2(11) == 0x10 * Pow2(7);
    assert Pow2(16) == 0x20 * Pow2(11);
    assert Pow2(23) == 0x80 * Pow2(16);
    assert Pow2(31) == 0x100 * Pow2(23);
  }

  /** Case 15 leaves the `switch` early on a bad second byte or on F8..FF. */
  predicate LeavesEarly(input: seq<Byte>, start: nat)
    requires start < |input|
  {
    input[start] >= 0xF0 && (!IsTail(At(input, start + 1)) || input[start] > 0xF7)
  }

  /** The variables after case 12, for a lead byte at `start`. */
  predicate SequenceRead(input: seq<Byte>, start: nat, index: nat, cp0: nat, codePoint: nat, minBits: nat)
    requires start < |input|
  {
    if input[start] < 0xE0 then
      && index == start + 1 && minBits == 7 && cp0 == input[start]
      && codePoint == Join2(input[start], At(input, start + 1))
    else if input[start] < 0xF0 then
      && index == start + 2 && minBits == (if IsTail(At(input, start + 1)) then 11 else 31) && cp0 == 0x100
      && codePoint == Join3(input[start], At(input, start + 1), At(input, start + 2))
    else
      && index == start + 3 && minBits == (if IsTail(At(input, start + 2)) then 16 else 31) && cp0 == 0x200
      && codePoint == Join4(input[start], At(input, start + 1), At(input, start + 2), At(input, start + 3))
  }

  /** The cases of the `switch` for lead bytes, each falling through to the next: 15, 14, then 13 and 12. */
  method ReadSequence(input: seq<Byte>, start: nat)
    returns (left: bool, index: nat, cp0: nat, cp1: Byte, codePoint: nat, minBits: nat)
    requires start < |input| && input[start] >= 0xC0
    ensures left <==> LeavesEarly(input, start)
    ensures left ==> index == start && codePoint == 0 && minBits == 0
    ensures !left ==> cp1 == At(input, index) && SequenceRead(input, start, index, cp0, codePoint, minBits)
  {
    left, index, cp0, cp1, codePoint, minBits := false, start, input[start], 0, 0, 0;
    var kind := cp0 / 16;
    if kind == 15 {
      index := index + 1;
      cp1 := At(input, index);
      if cp1 / 64 != 2 || 0xF7 < cp0 {
        index := index - 1;
        left := true;
        return;
      }
      codePoint := cp0 % 8 * 64 + cp1 % 64;
      minBits := 5;
      cp0 := 0x100;
    }
    if kind >= 14 {
      index := index + 1;
      cp1 := At(input, index);
      codePoint := codePoint * 64 + (cp0 % 16 * 64 + cp1 % 64);
      minBits := if cp1 / 64 == 2 then minBits + 4 else 24;
      cp0 := (cp0 + 0x100) / 0x100 % 4 * 0x100;
    }
    index := index + 1;
    cp1 := At(input, index);
    codePoint := codePoint * 64 + (cp0 % 32 * 64 + cp1 % 64);
    minBits := minBits + 7;
  }

  /** The check before a code point is used. */
  predicate Accepted(input: seq<Byte>, index: nat, codePoint: nat, minBits: nat) {
    index < |input| && At(input, index) / 64 == 2 && Shr(codePoint, minBits) != 0 && codePoint < 0x11_0000
  }

  lemma SequenceOfTwo(input: seq<Byte>, start: nat, index: nat, cp0: nat, codePoint: nat, minBits: nat)
    requires start < |input| && 0xC0 <= input[start] < 0xE0
    requires !LeavesEarly(input, start) && SequenceRead(input, start, index, cp0, codePoint, minBits)
    ensures Accepted(input, index, codePoint, minBits) ==>
      Decode(input[start..]) == Units(codePoint) + Decode(input[index + 1..])
    ensures !Accepted(input, index, codePoint, minBits) ==>
      index - cp0 / 0x100 - 1 == start && Decode(input[start..]) == [REPLACEMENT] + Decode(input[start + 1..])
  {
    var b := input[start..];
    assert At(b, 0) == At(input, start) && At(b, 1) == At(input, start + 1);
    assert At(b, 2) == At(input, start + 2) && At(b, 3) == At(input, start + 3);
    assert b[1..] == input[start + 1..];
    if index < |input| { assert b[index + 1 - start..] == input[index + 1..]; }
    ShiftsUsed(codePoint);
    DecodeTwo(b);
    hide Decode, Shr;
  }

  lemma SequenceOfThree(input: seq<Byte>, start: nat, index: nat, cp0: nat, codePoint: nat, minBits: nat)
    requires start < |input| && 0xE0 <= input[start] < 0xF0
    requires !LeavesEarly(input, start) && SequenceRead(input, start, index, cp0, codePoint, minBits)
    ensures Accepted(input, index, codePoint, minBits) ==>
      Decode(input[start..]) == Units(codePoint) + Decode(input[index + 1..])
    ensures !Accepted(input, index, codePoint, minBits) ==>
      index - cp0 / 0x100 - 1 == start && Decode(input[start..]) == [REPLACEMENT] + Decode(input[start + 1..])
  {
    var b := input[start..];
    assert At(b, 0) == At(input, start) && At(b, 1) == At(input, start + 1);
    assert At(b, 2) == At(input, start + 2) && At(b, 3) == At(input, start + 3);
    assert b[1..] == input[start + 1..];
    if index < |input| { assert b[index + 1 - start..] == input[index + 1..]; }
    ShiftsUsed(codePoint);
    DecodeThree(b);
    hide Decode, Shr;
  }

  lemma SequenceOfFour(input: seq<Byte>, start: nat, index: nat, cp0: nat, codePoint: nat, minBits: nat)
    requires start < |input| && input[start] >= 0xF0
    requires !LeavesEarly(input, start) && SequenceRead(input, start, index, cp0, codePoint, minBits)
    ensures Accepted(input, index, codePoint, minBits) ==>
      Decode(input[start..]) == Units(codePoint) + Decode(input[index + 1..])
    ensures !Accepted(input, index, codePoint, minBits) ==>
      index - cp0 / 0x100 - 1 == start && Decode(input[start..]) == [REPLACEMENT] + Decode(input[start + 1..])
  {
    var b := input[start..];
    assert At(b, 0) == At(input, start) && At(b, 1) == At(input, start + 1);
    assert At(b, 2) == At(input, start + 2) && At(b, 3) == At(input, start + 3);
    assert b[1..] == input[start + 1..];
    if index < |input| { assert b[index + 1 - start..] == input[index + 1..]; }
    ShiftsUsed(codePoint);
    DecodeFour(b);
    hide Decode, Shr;
  }

  lemma SequenceStep(input: seq<Byte>, start: nat, index: nat, cp0: nat, codePoint: nat, minBits: nat)
    requires start < |input| && input[start] >= 0xC0
    requires !LeavesEarly(input, start) && SequenceRead(input, start, index, cp0, codePoint, minBits)
    ensures Accepted(input, index, codePoint, minBits) ==>
      Decode(input[start..]) == Units(codePoint) + Decode(input[index + 1..])
    ensures !Accepted(input, index, codePoint, minBits) ==>
      index - cp0 / 0x100 - 1 == start && Decode(input[start..]) == [REPLACEMENT] + Decode(input[start + 1..])
  {
    hide Decode, Shr, Units, LeavesEarly, SequenceRead, Accepted;
    if input[start] < 0xE0 {
      SequenceOfTwo(input, start, index, cp0, codePoint, minBits);
    } else if input[start] < 0xF0 {
      SequenceOfThree(input, start, index, cp0, codePoint, minBits);
    } else {
      SequenceOfFour(input, start, index, cp0, codePoint, minBits);
    }
  }

  /** A byte that starts no character it could be the lead of: ASCII, a stray byte, or a lead left early. */
  lemma SingleStep(input: seq<Byte>, start: nat)
    requires start < |input| && (input[start] < 0xC0 || LeavesEarly(input, start))
    ensures Decode(input[start..]) ==
      [if input[start] < 0x80 then input[start] else REPLACEMENT] + Decode(input[start + 1..])
  {
    var b := input[start..];
    assert b[1..] == input[start + 1..] && At(b, 1) == At(input, start + 1);
    if b[0] < 0x80 { DecodeOne(b); } else { DecodeStray(b); }
  }

  /** The half of a surrogate pair that waits for the next block, as the units it stands for. */
  function Carried(tmp: int): seq<Unit>
    requires -1 <= tmp < 0x1_0000
  {
    if tmp == -1 then [] else [tmp]
  }

  /** An accepted code point as the unit to store now (`cp0`), with a high surrogate to store before it (`high`) or,
      on the last place of the buffer, a low surrogate that has to wait (`tmp`). */
  method SplitCodePoint(codePoint: CodePoint, pos: nat) returns (cp0: Unit, high: int, tmp: int)
    requires pos < 32
    ensures -1 <= tmp < 0x1_0000 && -1 <= high < 0x1_0000
    ensures (high != -1 ==> pos < 31) && (tmp != -1 ==> pos == 31)
    ensures Carried(high) + [cp0] + Carried(tmp) == Units(codePoint)
  {
    high, tmp := -1, -1;
    var above := codePoint as int - 0x1_0000;
    if 0 <= above {
      tmp := above / 0x400 + 0xD800;
      cp0 := above % 0x400 + 0xDC00;
      if pos < 31 {
        high, tmp := tmp, -1;
      } else {
        tmp, cp0 := cp0, tmp;
      }
    } else {
      cp0 := codePoint;
    }
  }

  /** One turn of the inner loop: the units of one character, or U+FFFD for one byte, reach the scratch buffer,
      except for a low surrogate that no longer fits, which is carried in `tmp`. */
  method DecodeNext(input: seq<Byte>, tmpBufferU16: array<Unit>, index0: nat, pos0: nat, nextEnd0: nat)
    returns (index: nat, pos: nat, nextEnd: nat, tmp: int, ghost units: seq<Unit>)
    requires tmpBufferU16.Length == 32
    requires index0 < |input| && pos0 < nextEnd0 <= 32 && nextEnd0 - pos0 <= |input| - index0
    modifies tmpBufferU16
    ensures index0 < index <= |input| && pos0 < pos <= 32 && nextEnd <= 32 && nextEnd - pos <= |input| - index
    ensures tmp == -1 || (pos == 32 && 0 <= tmp < 0x1_0000)
    ensures Decode(input[index0..]) == units + Decode(input[index..])
    ensures tmpBufferU16[..pos] + Carried(tmp) == old(tmpBufferU16[..pos0]) + units
  {
    hide Decode, Shr, Units, LeavesEarly, SequenceRead;
    index, pos, nextEnd, tmp := index0, pos0, nextEnd0, -1;
    var cp0: nat := input[index];
    if cp0 / 16 >= 12 {
      var left, cp1, codePoint, minBits;
      left, index, cp0, cp1, codePoint, minBits := ReadSequence(input, index);
      if left {
        SingleStep(input, index);
        cp0, units := 0xFFFD, [0xFFFD];
      } else {
        SequenceStep(input, index0, index, cp0, codePoint, minBits);
        if index < |input| && cp1 / 64 == 2 && Shr(codePoint, minBits) != 0 && codePoint < 0x11_0000 {
          var high;
          cp0, high, tmp := SplitCodePoint(codePoint, pos);
          units := Units(codePoint);
          if high != -1 {
            tmpBufferU16[pos] := high;
            pos := pos + 1;
          }
        } else {
          cp0 := cp0 / 0x100;
          index := index - cp0 - 1;
          cp0, units := 0xFFFD, [0xFFFD];
        }
        nextEnd := if index <= |input| - 32 then 32 else |input| - index;
      }
    } else {
      SingleStep(input, index);
      if cp0 / 16 >= 8 { cp0 := 0xFFFD; }
      units := [cp0];
    }
    tmpBufferU16[pos] := cp0;
    index, pos := index + 1, pos + 1;
  }

  /** The inner loop: fills the scratch buffer from where the last block stopped. */
  method DecodeBlock(input: seq<Byte>, tmpBufferU16: array<Unit>, index0: nat, pos0: nat)
    returns (index: nat, pos: nat, tmp: int, ghost block: seq<Unit>)
    requires tmpBufferU16.Length == 32
    requires index0 < |input| && pos0 <= 1
    modifies tmpBufferU16
    ensures index0 <= index <= |input| && pos <= 32 && (tmp == -1 || (pos == 32 && 0 <= tmp < 0x1_0000))
    ensures index == index0 ==> pos == pos0 == 1 && tmp == -1
    ensures Decode(input[index0..]) == block + Decode(input[index..])
    ensures tmpBufferU16[..pos] + Carried(tmp) == old(tmpBufferU16[..pos0]) + block
  {
    hide Decode;
    index, pos, tmp, block := index0, pos0, -1, [];
    var nextEnd := if index <= |input| - 32 then 32 else |input| - index;
    while pos < nextEnd
      invariant index0 <= index <= |input| && 0 <= pos <= 32 && nextEnd <= 32
      invariant nextEnd - pos <= |input| - index
      invariant index == index0 ==> pos == pos0 && tmp == -1 && nextEnd >= 1
      invariant tmp == -1 || (pos == 32 && 0 <= tmp < 0x1_0000)
      invariant Decode(input[index0..]) == block + Decode(input[index..])
      invariant tmpBufferU16[..pos] + Carried(tmp) == old(tmpBufferU16[..pos0]) + block
      decreases |input| - index
    {
      ghost var units;
      assert tmpBufferU16[..pos] == old(tmpBufferU16[..pos0]) + block;
      index, pos, nextEnd, tmp, units := DecodeNext(input, tmpBufferU16, index, pos, nextEnd);
      Associative(block, units, Decode(input[index..]));
      Associative(old(tmpBufferU16[..pos0]), block, units);
      block := block + units;
    }
  }

  /** Appends the whole scratch buffer, then cuts off what lies beyond `pos`. */
  method Flush(tmpStr: seq<Unit>, tmpBufferU16: array<Unit>, pos: nat) returns (r: seq<Unit>)
    requires tmpBufferU16.Length == 32 && pos <= 32
    ensures r == tmpStr + tmpBufferU16[..pos]
  {
    r := tmpStr + tmpBufferU16[..];
    if pos < 32 { r := r[..|r| + pos - 32]; }
  }

  /** One block, flushed to the temporary string; half a pair that is left over starts the next block or, at the end,
      follows at once. */
  method NextBlock(input: seq<Byte>, tmpBufferU16: array<Unit>, index0: nat, pos0: nat, tmpStr0: seq<Unit>)
    returns (index: nat, pos: nat, tmpStr: seq<Unit>, ghost block: seq<Unit>)
    requires tmpBufferU16.Length == 32 && index0 < |input| && pos0 <= 1
    modifies tmpBufferU16
    ensures index0 <= index <= |input| && (index == index0 ==> pos < pos0) && (index < |input| ==> pos <= 1)
    ensures Decode(input[index0..]) == block + Decode(input[index..])
    ensures tmpStr0 + old(tmpBufferU16[..pos0]) + block ==
            tmpStr + if index < |input| then tmpBufferU16[..pos] else []
  {
    hide Decode;
    var tmp;
    ghost var was := tmpBufferU16[..pos0];
    index, pos, tmp, block := DecodeBlock(input, tmpBufferU16, index0, pos0);
    ghost var filled := tmpBufferU16[..pos];
    tmpStr := Flush(tmpStr0, tmpBufferU16, pos);
    Associative(tmpStr0, was, block);
    Associative(tmpStr0, filled, Carried(tmp));
    if index < |input| {
      tmpBufferU16[0] := if tmp == -1 then 0xFFFF else tmp;
      pos := if tmp != -1 then 1 else 0;
      assert tmpBufferU16[..pos] == Carried(tmp);
    } else if tmp != -1 {
      tmpStr := tmpStr + [tmp];
    }
  }

  /** What a block adds stands behind all that was there, and the flushed part can join the result. */
  lemma Emitted(result: seq<Unit>, before: seq<Unit>, block: seq<Unit>, tmpStr: seq<Unit>, held: seq<Unit>)
    requires before + block == tmpStr + held
    ensures result + before + block == result + (tmpStr + held) == (result + tmpStr) + ([] + held)
  {
    Associative(result, before, block);
    Associative(result, tmpStr, held);
    assert [] + held == held;
  }

  /** Decodes block by block through a 32-unit scratch buffer whose earlier contents do not matter. */
  method DecodeBuffered(input: seq<Byte>, tmpBufferU16: array<Unit>) returns (resultingString: seq<Unit>)
    requires tmpBufferU16.Length == 32
    modifies tmpBufferU16
    ensures resultingString == Decode(input)
  {
    assert Decode([]) == [];
    hide Decode;
    resultingString := [];
    var tmpStr: seq<Unit> := [];
    var index, pos := 0, 0;
    var len := |input|;
    ghost var held: seq<Unit> := [];
    assert input[0..] == input;
    while index < len
      invariant 0 <= index <= len
      invariant resultingString + (tmpStr + held) + Decode(input[index..]) == Decode(input)
      invariant index < len ==> 0 <= pos <= 1 && held == tmpBufferU16[..pos]
      invariant index == len ==> tmpStr + held == []
      decreases len - index, pos
    {
      ghost var block, before, emitted := [], tmpStr + held, resultingString + (tmpStr + held);
      index, pos, tmpStr, block := NextBlock(input, tmpBufferU16, index, pos, tmpStr);
      held := if index < len then tmpBufferU16[..pos] else [];
      Associative(emitted, block, Decode(input[index..]));
      Emitted(resultingString, before, block, tmpStr, held);
      if index < len && |tmpStr| < |resultingString| { continue; }
      resultingString := resultingString + tmpStr;
      tmpStr := [];
    }
  }
}
