/** packages/common/src/encoding.ts, `encoderReplacer` and `encodeInto`. */
module TextEncodeInto {
  import opened Utf8
  import opened Utf8RoundTrip

  /** The binary string for one match of the encoder expression: a non-ASCII unit, or a high surrogate with the low
      surrogate that may follow it. */
  function EncoderReplacer(nonAsciiChars: seq<Unit>): seq<Byte>
    requires 1 <= |nonAsciiChars| <= 2 && nonAsciiChars[0] >= 0x80
    requires |nonAsciiChars| == 2 ==> IsHigh(nonAsciiChars[0]) && IsLow(nonAsciiChars[1])
  {
    var first: int := nonAsciiChars[0];
    var nextcode := if |nonAsciiChars| > 1 then nonAsciiChars[1] else 0;
    var paired := 0xD800 <= first <= 0xDBFF && 0xDC00 <= nextcode <= 0xDFFF;
    var point := if paired then first * 0x400 + nextcode - 0x35FDC00
                 else if 0xD800 <= first <= 0xDFFF then 65533
                 else first;
    if paired && point > 0xFFFF then
      [0xF0 + point / 0x4_0000, 0x80 + point / 0x1000 % 0x40, 0x80 + point / 0x40 % 0x40, 0x80 + point % 0x40]
    else if point <= 0x7FF then [0xC0 + point / 0x40, 0x80 + point % 0x40]
    else [0xE0 + point / 0x1000, 0x80 + point / 0x40 % 0x40, 0x80 + point % 0x40]
  }

  /** `inputString.replace(encoderRegexp, encoderReplacer)`. */
  function BinaryString(s: seq<Unit>): seq<Byte> {
    if s == [] then []
    else if s[0] < 0x80 then [s[0]] + BinaryString(s[1..])
    else if IsHigh(s[0]) && |s| > 1 && IsLow(s[1]) then EncoderReplacer(s[..2]) + BinaryString(s[2..])
    else EncoderReplacer(s[..1]) + BinaryString(s[1..])
  }

  lemma ReplacerIsUtf8(s: seq<Unit>)
    requires s != [] && s[0] >= 0x80
    ensures if IsHigh(s[0]) && |s| > 1 && IsLow(s[1]) then EncoderReplacer(s[..2]) == Octets(Pair(s[0], s[1]))
            else EncoderReplacer(s[..1]) == Octets(if IsSurrogate(s[0]) then REPLACEMENT else s[0])
  {
  }

  /** The replacer forms exactly the UTF-8 octets, with U+FFFD for each unpaired surrogate. */
  lemma {:induction false} BinaryStringIsUtf8(s: seq<Unit>)
    ensures BinaryString(s) == OctetsOf(Scalars(s))
  {
    if s == [] {
    } else if s[0] < 0x80 {
      BinaryStringIsUtf8(s[1..]);
      assert Octets(s[0]) == [s[0]];
    } else {
      hide Octets, EncoderReplacer;
      ReplacerIsUtf8(s);
      BinaryStringIsUtf8(s[if IsHigh(s[0]) && |s| > 1 && IsLow(s[1]) then 2 else 1..]);
    }
  }

  /** The lead byte tells how many bytes its character takes. */
  function LeadSize(b: Byte): nat {
    if b < 0x80 then 1 else if b < 0xE0 then 2 else if b < 0xF0 then 3 else 4
  }

  /** Where byte `i` lies: in character `k`, `off` bytes after its first. */
  ghost predicate Inside(vs: seq<CodePoint>, i: nat, k: nat, off: nat) {
    k < |vs| && off < |Octets(vs[k])| && i == |OctetsOf(vs[..k])| + off
  }

  lemma TakeOne(vs: seq<CodePoint>, k: nat)
    requires k < |vs|
    ensures OctetsOf(vs[..k + 1]) == OctetsOf(vs[..k]) + Octets(vs[k])
  {
    var one := [vs[k]];
    assert vs[..k + 1] == vs[..k] + one;
    OctetsOfConcat(vs[..k], one);
    assert OctetsOf(one) == Octets(vs[k]) by { assert one[1..] == []; }
  }

  lemma TakeIsPrefix(vs: seq<CodePoint>, k: nat)
    requires k <= |vs|
    ensures OctetsOf(vs[..k]) <= OctetsOf(vs)
  {
    assert vs == vs[..k] + vs[k..];
    OctetsOfConcat(vs[..k], vs[k..]);
  }

  lemma ByteInside(vs: seq<CodePoint>, i: nat, k: nat, off: nat)
    requires Inside(vs, i, k, off)
    ensures i < |OctetsOf(vs)| && OctetsOf(vs)[i] == Octets(vs[k])[off]
    ensures off == 0 ==>
      && |Octets(vs[k])| == LeadSize(OctetsOf(vs)[i])
      && (LeadSize(OctetsOf(vs)[i]) == 1 || OctetsOf(vs)[i] >= 0xC0)
    ensures off > 0 <==> 0x80 <= OctetsOf(vs)[i] < 0xC0
  {
    TakeOne(vs, k);
    TakeIsPrefix(vs, k + 1);
    assert OctetsOf(vs)[i] == OctetsOf(vs[..k + 1])[i];
    D.CharShape(vs[k], Octets(vs[k]));
  }

  /** The `switch` on the high bits of a byte, whose cases 12 to 15 fall through: whether the byte is written. */
  function HasRoom(byte: Byte, i: nat, u8ArrLen: nat): (room: bool)
    ensures i < u8ArrLen ==> (room <==> 0x80 <= byte < 0xC0 || i + LeadSize(byte) <= u8ArrLen)
  {
    var kind := byte / 16;
    || kind < 12
    || (kind <= 13 && i + 1 < u8ArrLen)
    || (kind <= 14 && i + 2 < u8ArrLen)
    || i + 3 < u8ArrLen
  }

  /** `off` bytes into character `k`, or at the end. */
  ghost predicate Position(vs: seq<CodePoint>, i: nat, k: nat, off: nat) {
    Inside(vs, i, k, off) || (k == |vs| && off == 0 && i == |OctetsOf(vs)|)
  }

  lemma NextPosition(vs: seq<CodePoint>, i: nat, k: nat, off: nat) returns (k': nat, off': nat)
    requires Inside(vs, i, k, off)
    ensures Position(vs, i + 1, k', off')
    ensures off' > 0 ==> k' == k
    ensures off' == 0 ==> k' == k + 1
  {
    TakeOne(vs, k);
    if off + 1 < |Octets(vs[k])| {
      k', off' := k, off + 1;
    } else {
      k', off' := k + 1, 0;
      assert vs[..|vs|] == vs;
    }
  }

  // ---- how much of the string that is

  /** How many whole characters fit. */
  function Characters(vs: seq<CodePoint>, size: nat): (k: nat)
    ensures k <= |vs|
  {
    if vs == [] || |Octets(vs[0])| > size then 0 else 1 + Characters(vs[1..], size - |Octets(vs[0])|)
  }

  /** How many code units they take up in the string. */
  function Consumed(s: seq<Unit>, size: nat): nat { |UnitsOf(Scalars(s)[..Characters(Scalars(s), size)])| }

  /** `Characters` is the length of the longest prefix that fits. */
  lemma {:induction false} LongestFit(vs: seq<CodePoint>, size: nat, k: nat)
    requires k <= |vs| && |OctetsOf(vs[..k])| <= size
    requires k < |vs| ==> |OctetsOf(vs[..k + 1])| > size
    ensures Characters(vs, size) == k
  {
    if vs != [] {
      OctetsOfTake(vs, k);
      if k < |vs| { OctetsOfTake(vs, k + 1); }
      if k > 0 {
        hide Octets, OctetsOf;
        LongestFit(vs[1..], size - |Octets(vs[0])|, k - 1);
      }
    }
  }

  lemma OctetsOfTake(vs: seq<CodePoint>, k: nat)
    requires vs != [] && k <= |vs|
    ensures k > 0 ==> |OctetsOf(vs[..k])| == |Octets(vs[0])| + |OctetsOf(vs[1..][..k - 1])|
    ensures OctetsOf([]) == [] && vs[..0] == []
  {
    if k > 0 {
      assert vs[..k][1..] == vs[1..][..k - 1];
    }
  }

  /** A high surrogate followed by a low one. */
  predicate PairAt(s: seq<Unit>, i: nat) { i + 1 < |s| && IsHigh(s[i]) && IsLow(s[i + 1]) }

  ghost predicate NoPair(s: seq<Unit>) { forall i: nat :: !PairAt(s, i) }

  lemma NoPairTail(s: seq<Unit>, n: nat)
    requires n <= |s| && forall i: nat :: i < n ==> !PairAt(s, i)
    ensures NoPair(s) <==> NoPair(s[n..])
  {
    forall i: nat ensures PairAt(s[n..], i) <==> PairAt(s, n + i) {
    }
    if NoPair(s[n..]) {
      forall i: nat ensures !PairAt(s, i) {
        if i >= n { assert !PairAt(s[n..], i - n); }
      }
    }
  }

  /** A string has as many characters as code units exactly when it holds no surrogate pair. */
  lemma {:induction false} OneUnitEach(s: seq<Unit>)
    ensures |Scalars(s)| <= |s| && (|Scalars(s)| == |s| <==> NoPair(s))
    decreases |s|
  {
    if s == [] {
    } else if PairAt(s, 0) {
      OneUnitEach(s[2..]);
    } else {
      OneUnitEach(s[1..]);
      NoPairTail(s, 1);
    }
  }

  /** The first `k` characters of a string are the characters of its first code units, as many as they take up. */
  lemma {:induction false} UnitsOfPrefix(s: seq<Unit>, k: nat)
    requires k <= |Scalars(s)|
    ensures var n := |UnitsOf(Scalars(s)[..k])|;
      n <= |s| && Scalars(s[..n]) == Scalars(s)[..k]
    decreases |s|
  {
    if k == 0 {
      assert Scalars(s)[..0] == [] && s[..0] == [];
    } else {
      var w := if PairAt(s, 0) then 2 else 1;
      var rest := s[w..];
      UnitsOfPrefix(rest, k - 1);
      FirstScalar(s);
      var n := |UnitsOf(Scalars(rest)[..k - 1])|;
      assert Scalars(s)[..k] == [Scalars(s)[0]] + Scalars(rest)[..k - 1];
      UnitsOfOneMore(Scalars(s)[0], Scalars(rest)[..k - 1]);
      FirstScalar(s[..w + n]);
      assert s[..w + n][w..] == rest[..n];
    }
  }

  lemma FirstScalar(s: seq<Unit>)
    requires s != []
    ensures var w := if PairAt(s, 0) then 2 else 1;
      && Scalars(s) ==
         [if w == 2 then Pair(s[0], s[1]) else if IsSurrogate(s[0]) then REPLACEMENT else s[0]] + Scalars(s[w..])
      && |Units(Scalars(s)[0])| == w
  {
  }

  lemma UnitsOfOneMore(v: CodePoint, vs: seq<CodePoint>)
    ensures |UnitsOf([v] + vs)| == |Units(v)| + |UnitsOf(vs)|
  {
    assert ([v] + vs)[1..] == vs;
  }

  /** Of one call: `read` is the number of code units consumed exactly when no pair is among them. */
  lemma ReadOfOneCall(s: seq<Unit>, size: nat)
    ensures var k, n := Characters(Scalars(s), size), Consumed(s, size);
      && n <= |s| && Scalars(s[..n]) == Scalars(s)[..k]
      && (k == n <==> NoPair(s[..n]))
  {
    UnitsOfPrefix(s, Characters(Scalars(s), size));
    OneUnitEach(s[..Consumed(s, size)]);
  }

  /** Of all calls: `read` is the number of code units consumed, for every array, exactly when the string holds no
      surrogate pair. */
  lemma ReadIsUnitsExactlyWhen(s: seq<Unit>)
    ensures (forall size: nat :: Characters(Scalars(s), size) == Consumed(s, size)) <==> NoPair(s)
  {
    if NoPair(s) {
      forall size: nat ensures Characters(Scalars(s), size) == Consumed(s, size) {
        ReadOfOneCall(s, size);
        assert forall i: nat :: PairAt(s[..Consumed(s, size)], i) ==> PairAt(s, i);
      }
    }
    if forall size: nat :: Characters(Scalars(s), size) == Consumed(s, size) {
      var vs, size := Scalars(s), |OctetsOf(Scalars(s))|;
      assert vs[..|vs|] == vs;
      LongestFit(vs, size, |vs|);
      UnitsOfScalars(s);
      OneUnitEach(s);
    }
  }

  /** A character above U+FFFF: two code units are consumed, and `read` is 1. */
  lemma PairExample()
    ensures var s: seq<Unit> := [0xD83D, 0xDE00];
      Scalars(s) == [0x1_F600] && Characters(Scalars(s), 4) == 1 && Consumed(s, 4) == 2
  {
    var s: seq<Unit> := [0xD83D, 0xDE00];
    assert s[2..] == [];
    var vs: seq<CodePoint> := [0x1_F600];
    assert Scalars(s) == vs && vs[1..] == [] && vs[..1] == vs;
    assert |Octets(0x1_F600)| == 4 && |Units(0x1_F600)| == 2;
    assert UnitsOf(vs) == Units(0x1_F600) + UnitsOf([]);
  }

  /** Writes the longest run of whole characters that fits, and nothing else; `read` is their number. */
  method EncodeInto(inputString: seq<Unit>, u8Arr: array<Byte>) returns (written: nat, read: nat, ghost k: nat)
    modifies u8Arr
    ensures read == k == Characters(Scalars(inputString), u8Arr.Length)
    ensures var n := Consumed(inputString, u8Arr.Length);
      && n <= |inputString| && Scalars(inputString[..n]) == Scalars(inputString)[..k]
      && (read == n <==> NoPair(inputString[..n]))
    ensures k <= |Scalars(inputString)| && written == |OctetsOf(Scalars(inputString)[..k])| <= u8Arr.Length
    ensures k < |Scalars(inputString)| ==> |OctetsOf(Scalars(inputString)[..k + 1])| > u8Arr.Length
    ensures u8Arr[..] == OctetsOf(Scalars(inputString)[..k]) + old(u8Arr[written..])
  {
    hide Octets, OctetsOf, BinaryString, Scalars, HasRoom, LeadSize, Position, Characters, Consumed, NoPair;
    var encodedString := BinaryString(inputString);
    BinaryStringIsUtf8(inputString);
    ghost var vs := Scalars(inputString);
    var len, i, u8ArrLen := |encodedString|, 0, u8Arr.Length;
    var inputLength: nat := |inputString|;
    read := 0;
    if u8ArrLen < len { len := u8ArrLen; }
    ghost var off: nat := 0;
    k := 0;
    FirstPosition(vs);
    while i < len
      invariant 0 <= i <= len
      invariant Position(vs, i, k, off)
      invariant read == if off > 0 then k + 1 else k
      invariant off > 0 ==> k < |vs| && |OctetsOf(vs[..k])| + |Octets(vs[k])| <= u8ArrLen
      invariant u8Arr[..i] == encodedString[..i] && u8Arr[i..] == old(u8Arr[..])[i..]
    {
      NotAtEnd(vs, i, k, off);
      ByteInside(vs, i, k, off);
      if !HasRoom(encodedString[i], i, u8ArrLen) { break; }
      if encodedString[i] / 16 < 8 || encodedString[i] / 16 >= 12 { read := read + 1; }
      u8Arr[i] := encodedString[i];
      k, off := NextPosition(vs, i, k, off);
      i := i + 1;
    }
    Stopped(vs, i, k, off, u8ArrLen);
    written := i;
    LongestFit(vs, u8ArrLen, k);
    ReadOfOneCall(inputString, u8ArrLen);
    OneUnitEach(inputString);
    if inputLength < read { read := inputLength; }
  }

  lemma NotAtEnd(vs: seq<CodePoint>, i: nat, k: nat, off: nat)
    requires Position(vs, i, k, off) && i < |OctetsOf(vs)|
    ensures Inside(vs, i, k, off)
  {
  }

  /** Out of bytes, out of room, or before a character that does not fit: a character boundary, and the last one. */
  lemma Stopped(vs: seq<CodePoint>, i: nat, k: nat, off: nat, size: nat)
    requires Position(vs, i, k, off) && i <= size && i <= |OctetsOf(vs)|
    requires off > 0 ==> k < |vs| && |OctetsOf(vs[..k])| + |Octets(vs[k])| <= size
    requires i == size || i == |OctetsOf(vs)| || (k < |vs| && off == 0 && i + |Octets(vs[k])| > size)
    ensures k <= |vs| && off == 0 && OctetsOf(vs)[..i] == OctetsOf(vs[..k])
    ensures k < |vs| ==> |OctetsOf(vs[..k + 1])| > size
  {
    if k < |vs| {
      TakeOne(vs, k);
      TakeIsPrefix(vs, k + 1);
      assert |Octets(vs[k])| >= 1;
    } else {
      assert vs[..k] == vs;
    }
    TakeIsPrefix(vs, k);
  }

  lemma FirstPosition(vs: seq<CodePoint>)
    ensures Position(vs, 0, 0, 0)
  {
    assert OctetsOf(vs[..0]) == [];
  }
}
