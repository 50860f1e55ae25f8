/** packages/common/src/encoding.ts, `TextEncoder`: the array-filling UTF-8 encoder. */
module TextEncoder {
  import opened Sequences
  import opened Utf8

  /** The characters `encode` writes: like `Scalars`, except that the unit after an unpaired high surrogate is
      swallowed with it. */
  function Seen(s: seq<Unit>): seq<CodePoint> {
    if s == [] then []
    else if IsHigh(s[0]) then
      if |s| == 1 then [REPLACEMENT]
      else [if IsLow(s[1]) then Pair(s[0], s[1]) else REPLACEMENT] + Seen(s[2..])
    else [if IsLow(s[0]) then REPLACEMENT else s[0]] + Seen(s[1..])
  }

  /** The result array is one byte short: the string ends in an unpaired high surrogate that the scan reaches with
      `slack == 8`, where `slack` is bytes written minus twice the units read, and no three-byte character was
      met with a slack of 8 before (that one would have widened the array). */
  predicate BufferShort(s: seq<Unit>, slack: int)
    decreases |s|
  {
    if s == [] then false
    else if s[0] <= 0x7F then BufferShort(s[1..], slack - 1)
    else if s[0] <= 0x7FF then BufferShort(s[1..], slack)
    else if !IsHigh(s[0]) then slack < 8 && BufferShort(s[1..], slack + 1)
    else if |s| == 1 then slack == 8
    else BufferShort(s[2..], if IsLow(s[1]) then slack else slack - 1)
  }

  /** The bytes of the characters seen, less the last one when the array is short. */
  function Output(s: seq<Unit>): seq<Byte> {
    var all := OctetsOf(Seen(s));
    if BufferShort(s, 0) && all != [] then all[..|all| - 1] else all
  }

  /** A typed-array store: silently dropped when the index is out of range. */
  method Store(a: array<Byte>, pos: nat, value: Byte)
    modifies a
    ensures pos < a.Length ==> a[..] == old(a[..])[pos := value]
    ensures pos >= a.Length ==> a[..] == old(a[..])
  {
    if pos < a.Length { a[pos] := value; }
  }

  /** `array.subarray(0, end)`, clamped to the array. */
  function Front(a: array<Byte>, end: nat): seq<Byte>
    reads a
  {
    a[..if end < a.Length then end else a.Length]
  }

  /** The stores of one character: whatever is in range lands after the first `pos` bytes. */
  method StoreOctets(a: array<Byte>, pos: nat, point: CodePoint) returns (next: nat)
    requires pos <= a.Length
    modifies a
    ensures next == pos + |Octets(point)|
    ensures next <= a.Length ==> a[..next] == old(a[..pos]) + Octets(point)
    ensures next == a.Length + 1 ==> a[..] == (old(a[..pos]) + Octets(point))[..a.Length]
  {
    ghost var was := a[..pos];
    next := pos;
    if point <= 0x7F {
      Store(a, next, point);
    } else if point <= 0x7FF {
      Store(a, next, 0xC0 + point / 0x40);
      next := next + 1;
      Store(a, next, 0x80 + point % 0x40);
    } else if point <= 0xFFFF {
      Store(a, next, 0xE0 + point / 0x1000);
      next := next + 1;
      Store(a, next, 0x80 + point / 0x40 % 0x40);
      next := next + 1;
      Store(a, next, 0x80 + point % 0x40);
    } else {
      Store(a, next, 0xF0 + point / 0x4_0000);
      next := next + 1;
      Store(a, next, 0x80 + point / 0x1000 % 0x40);
      next := next + 1;
      Store(a, next, 0x80 + point / 0x40 % 0x40);
      next := next + 1;
      Store(a, next, 0x80 + point % 0x40);
    }
    next := next + 1;
  }

  /** The next code unit, or 0 at the end of the string (`NaN | 0`). */
  function CharCodeAt(s: seq<Unit>, i: nat): Unit { if i < |s| then s[i] else 0 }

  /** How many units the scan takes at `i`, and the character it writes for them. */
  function Width(s: seq<Unit>, i: nat): nat
    requires i < |s|
  {
    if IsHigh(s[i]) then 2 else 1
  }

  function Written(s: seq<Unit>, i: nat): CodePoint
    requires i < |s|
  {
    if IsHigh(s[i]) && i + 1 < |s| && IsLow(s[i + 1]) then Pair(s[i], s[i + 1])
    else if IsSurrogate(s[i]) then REPLACEMENT
    else s[i]
  }

  function From(s: seq<Unit>, i: nat): seq<Unit> { if i < |s| then s[i..] else [] }

  lemma SeenStep(s: seq<Unit>, i: nat)
    requires i < |s|
    ensures OctetsOf(Seen(From(s, i))) == Octets(Written(s, i)) + OctetsOf(Seen(From(s, i + Width(s, i))))
  {
    var t := s[i..];
    assert t[0] == s[i] && t[1..] == From(s, i + 1);
    if i + 1 < |s| { assert t[1] == s[i + 1] && t[2..] == From(s, i + 2); }
  }

  /** The widening check at `i`, which looks past the unit after a high surrogate. */
  predicate Widens(s: seq<Unit>, i: nat, pos: nat)
    requires i < |s|
  {
    var j := i + Width(s, i) - 1;
    0x7FF < Written(s, i) < 0x1_0000 && 2 * j < pos && 2 * j < pos - 7
  }

  lemma WrittenSize(s: seq<Unit>, i: nat)
    requires i < |s|
    ensures var n := |Octets(Written(s, i))|;
      && 1 <= n <= 4 && (n == 4 ==> Width(s, i) == 2 && i + 2 <= |s|) && (n == 3 <==> 0x7FF < Written(s, i) < 0x1_0000)
      && (n <= 2 ==> Width(s, i) == 1)
  {
  }

  /** Near the end of the string the array can be short by at most the last byte. */
  lemma ShortStep(s: seq<Unit>, i: nat, pos: nat)
    requires i < |s| && pos <= 2 * i + 8
    ensures var next, w := pos + |Octets(Written(s, i))|, i + Width(s, i);
      BufferShort(From(s, i), pos - 2 * i) ==
        (if w > |s| then next == 2 * |s| + 9
         else !Widens(s, i, pos) && BufferShort(From(s, w), next - 2 * w))
  {
    var t := s[i..];
    assert t[0] == s[i] && t[1..] == From(s, i + 1);
    if i + 1 < |s| { assert t[1] == s[i + 1] && t[2..] == From(s, i + 2); }
  }

  /** The bounds on `pos`, and whether the array will be short. */
  ghost predicate Bounds(s: seq<Unit>, i: nat, pos: nat, upgraded: bool, length: nat) {
    && i <= |s| + 1 && pos <= 3 * i && pos <= length + 1
    && length == (if upgraded then 3 * |s| else 2 * |s| + 8)
    && (upgraded ==> !BufferShort(s, 0))
    && (i <= |s| ==> pos <= length)
    && (i <= |s| && !upgraded ==> pos <= 2 * i + 8 && BufferShort(s, 0) == BufferShort(From(s, i), pos - 2 * i))
    && (i > |s| ==> BufferShort(s, 0) == (pos == length + 1))
  }

  lemma BoundsStep(s: seq<Unit>, i: nat, pos: nat, upgraded: bool, length: nat)
    requires i < |s| && Bounds(s, i, pos, upgraded, length)
    ensures var wide := upgraded || Widens(s, i, pos);
      && (wide && !upgraded ==> length <= 3 * |s|)
      && Bounds(s, i + Width(s, i), pos + |Octets(Written(s, i))|, wide, if wide then 3 * |s| else 2 * |s| + 8)
  {
    hide Octets, Seen;
    WrittenSize(s, i);
    if !upgraded { ShortStep(s, i, pos); }
  }

  /** What has been written, and what is still to come, make up the encoding. */
  ghost predicate Contents(s: seq<Unit>, i: nat, pos: nat, result: seq<Byte>) {
    if pos <= |result| then result[..pos] + OctetsOf(Seen(From(s, i))) == OctetsOf(Seen(s))
    else i > |s| && pos == |result| + 1 && result + [0xBD] == OctetsOf(Seen(s))
  }

  lemma LastOctet(s: seq<Unit>, i: nat)
    requires i < |s|
    ensures Octets(Written(s, i)) != [] && OctetsOf(Seen([])) == []
    ensures i + Width(s, i) > |s| ==> Octets(Written(s, i)) == [0xEF, 0xBF, 0xBD]
  {
  }

  /** The stores of one character keep the contents. */
  lemma ContentsStep(s: seq<Unit>, i: nat, pos: nat, before: seq<Byte>, after: seq<Byte>, next: nat, w: nat)
    requires i < |s| && pos <= |before| && Contents(s, i, pos, before)
    requires next == pos + |Octets(Written(s, i))| <= |after| + 1 && w == i + Width(s, i)
    requires next <= |after| ==> after[..next] == before[..pos] + Octets(Written(s, i))
    requires next == |after| + 1 ==> w > |s| && after == (before[..pos] + Octets(Written(s, i)))[..|after|]
    ensures Contents(s, w, next, after)
  {
    LastOctet(s, i);
    SeenStep(s, i);
    hide Octets, Seen, OctetsOf, Written, Width, BufferShort;
    var o, rest := Octets(Written(s, i)), OctetsOf(Seen(From(s, w)));
    if next <= |after| {
      Associative(before[..pos], o, rest);
    } else {
      LastDropped(before[..pos], o, after);
    }
  }

  lemma LastDropped<T>(a: seq<T>, b: seq<T>, cut: seq<T>)
    requires b != [] && |cut| + 1 == |a + b| && cut == (a + b)[..|cut|]
    ensures cut + [b[|b| - 1]] == a + (b + [])
  {
  }

  /** One turn of the loop up to the stores: the character to write at `pos`, in an array that may be wider now. */
  method ReadNext(s: seq<Unit>, result0: array<Byte>, i0: nat, pos: nat, upgraded0: bool)
    returns (result: array<Byte>, i: nat, point: CodePoint, upgraded: bool)
    requires i0 < |s| && Bounds(s, i0, pos, upgraded0, result0.Length)
    ensures point == Written(s, i0) && i == i0 + Width(s, i0) - 1
    ensures upgraded == (upgraded0 || Widens(s, i0, pos))
    ensures result == result0 || (fresh(result) && upgraded)
    ensures result.Length == (if upgraded then 3 * |s| else 2 * |s| + 8)
    ensures pos <= result.Length && result[..pos] == result0[..pos]
  {
    result, i, upgraded := result0, i0, upgraded0;
    BoundsStep(s, i0, pos, upgraded, result.Length);
    point := s[i];
    if 0x7FF < point {
      label widenCheck: {
        if 0xD800 <= point {
          if point <= 0xDBFF {
            i := i + 1;
            var nextcode := CharCodeAt(s, i);
            if 0xDC00 <= nextcode <= 0xDFFF {
              point := point as int * 0x400 + nextcode - 0x35FDC00;
              break widenCheck;
            }
            point := 65533;
          } else if point <= 0xDFFF {
            point := 65533;
          }
        }
        if !upgraded && 2 * i < pos && 2 * i < pos - 7 {
          upgraded := true;
          var tmpResult := new Byte[3 * |s|](_ => 0);
          assert result.Length <= tmpResult.Length;
          forall k | 0 <= k < result.Length { tmpResult[k] := result[k]; }
          result := tmpResult;
        }
      }
    }
  }

  /** One turn of the loop. */
  method EncodeNext(s: seq<Unit>, result0: array<Byte>, i0: nat, pos0: nat, upgraded0: bool)
    returns (result: array<Byte>, i: nat, pos: nat, upgraded: bool)
    requires i0 < |s| && Bounds(s, i0, pos0, upgraded0, result0.Length) && Contents(s, i0, pos0, result0[..])
    modifies result0
    ensures i > i0 && Bounds(s, i, pos, upgraded, result.Length) && Contents(s, i, pos, result[..])
    ensures result == result0 || fresh(result)
  {
    hide OctetsOf, Octets, BufferShort, Seen, Written, Widens, Contents;
    ghost var before := result0[..];
    var point;
    result, i, point, upgraded := ReadNext(s, result0, i0, pos0, upgraded0);
    BoundsStep(s, i0, pos0, upgraded0, result0.Length);
    pos := StoreOctets(result, pos0, point);
    i := i + 1;
    ContentsStep(s, i0, pos0, before, result[..], pos, i);
  }

  /** Fills a guessed-size array that is widened at most once. The bytes are those of the characters seen, less the
      last one exactly when the array was one byte short; no other store is ever out of range. */
  method Encode(encodedString: seq<Unit>) returns (bytes: seq<Byte>)
    ensures bytes + (if BufferShort(encodedString, 0) then [0xBD] else []) == OctetsOf(Seen(encodedString))
    ensures bytes == Output(encodedString)
  {
    hide OctetsOf, Octets, BufferShort, Seen;
    var len := |encodedString|;
    var result := new Byte[2 * len + 8](_ => 0);
    var i: nat, pos: nat, upgraded := 0, 0, false;
    assert From(encodedString, 0) == encodedString;
    while i < len
      invariant fresh(result)
      invariant Bounds(encodedString, i, pos, upgraded, result.Length)
      invariant Contents(encodedString, i, pos, result[..])
    {
      result, i, pos, upgraded := EncodeNext(encodedString, result, i, pos, upgraded);
    }
    NothingLeft(encodedString, i, pos - 2 * i);
    bytes := Front(result, pos);
    assert bytes + [] == bytes && bytes == result[..|bytes|];
  }

  lemma NothingLeft(s: seq<Unit>, i: nat, slack: int)
    requires i >= |s|
    ensures OctetsOf(Seen(From(s, i))) == [] && !BufferShort(From(s, i), slack)
  {
  }
}
