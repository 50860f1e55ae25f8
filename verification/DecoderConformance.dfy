/** Section 3 of RFC 3629 forbids character numbers of the surrogate range. The decoder takes them; this is how far it
    is from the same decoder without them. */
module DecoderConformance {
  import opened Utf8
  import opened TextDecoder

  /** One-pass decoding that takes no surrogate: an encoded one is three bad bytes. */
  ghost function Strict(b: seq<Byte>): seq<Unit>
    decreases |b|
  {
    if b == [] then []
    else if v: CodePoint :| !IsSurrogate(v) && Octets(v) <= b then Units(v) + Strict(b[|Octets(v)|..])
    else [REPLACEMENT] + Strict(b[1..])
  }

  /** The bytes at `k` are a surrogate in the three-byte form. */
  predicate EncodedSurrogate(b: seq<Byte>, k: nat) {
    k + 2 < |b| && b[k] == 0xED && 0xA0 <= b[k + 1] < 0xC0 && 0x80 <= b[k + 2] < 0xC0
  }

  ghost predicate SurrogateFree(b: seq<Byte>) { forall k: nat :: !EncodedSurrogate(b, k) }

  lemma StrictChar(v: CodePoint, b: seq<Byte>)
    requires !IsSurrogate(v) && Octets(v) <= b
    ensures Strict(b) == Units(v) + Strict(b[|Octets(v)|..])
  {
    forall w: CodePoint | Octets(w) <= b ensures w == v { PrefixFree(v, w, b); }
  }

  lemma StrictBad(b: seq<Byte>)
    requires b != [] && forall v: CodePoint :: Octets(v) <= b ==> IsSurrogate(v)
    ensures Strict(b) == [REPLACEMENT] + Strict(b[1..])
  {
  }

  lemma StrictTail(b: seq<Byte>)
    requires b != [] && IsTail(b[0])
    ensures Strict(b) == [REPLACEMENT] + Strict(b[1..])
  {
    forall v: CodePoint | Octets(v) <= b ensures false { CharShape(v, b); }
  }

  lemma JoinedSurrogate(a: Byte, b: Byte, c: Byte)
    requires 0xE0 <= a < 0xF0 && IsTail(b) && IsTail(c)
    ensures IsSurrogate(Join3(a, b, c)) <==> a == 0xED && b >= 0xA0
  {
    var x, y, z := a - 0xE0, b - 0x80, c - 0x80;
    assert a % 16 == x && b % 64 == y && c % 64 == z;
    assert Join3(a, b, c) == x * 4096 + y * 64 + z;
  }

  lemma OtherLengths(v: CodePoint, b: seq<Byte>)
    requires Octets(v) <= b && !(0xE0 <= b[0] < 0xF0)
    ensures !IsSurrogate(v)
  {
    CharShape(v, b);
    if 0xC0 <= b[0] < 0xE0 {
      assert Join2(b[0], b[1]) < 0x800;
    }
  }

  /** The raw bytes tell whether the character that stands at the front is a surrogate. */
  lemma SurrogateInFront(v: CodePoint, b: seq<Byte>)
    requires Octets(v) <= b
    ensures IsSurrogate(v) <==> EncodedSurrogate(b, 0)
  {
    if 0xE0 <= b[0] < 0xF0 {
      CharShape(v, b);
      JoinedSurrogate(b[0], b[1], b[2]);
    } else {
      OtherLengths(v, b);
    }
  }

  /** No surrogate starts inside a character: what follows the lead byte are tail bytes. */
  lemma NoneInside(v: CodePoint, b: seq<Byte>)
    requires Octets(v) <= b
    ensures forall k :: 0 < k < |Octets(v)| ==> !EncodedSurrogate(b, k)
  {
    var o := Octets(v);
    forall k | 0 < k < |o| ensures IsTail(b[k]) {
      assert b[k] == o[k];
    }
  }

  lemma SurrogateStands(b: seq<Byte>)
    requires EncodedSurrogate(b, 0)
    ensures exists v: CodePoint :: Octets(v) <= b
  {
    var v := Join3(b[0], b[1], b[2]);
    Shape3(v, b[0], b[1], b[2]);
    assert Octets(v) == b[..3];
  }

  lemma FreeTail(b: seq<Byte>, n: nat)
    requires n <= |b| && forall k :: 0 <= k < n ==> !EncodedSurrogate(b, k)
    ensures SurrogateFree(b) <==> SurrogateFree(b[n..])
  {
    forall k: nat ensures EncodedSurrogate(b[n..], k) <==> EncodedSurrogate(b, n + k) {
    }
    if SurrogateFree(b[n..]) {
      forall k: nat ensures !EncodedSurrogate(b, k) {
        if k >= n {
          assert !EncodedSurrogate(b[n..], k - n);
        }
      }
    }
  }

  /** Each encoded surrogate costs the decoder without surrogates three units and this one a single unit. */
  lemma {:induction false} StrictIsLonger(b: seq<Byte>)
    ensures SurrogateFree(b) ==> Decode(b) == Strict(b)
    ensures |Decode(b)| <= |Strict(b)|
    ensures !SurrogateFree(b) ==> |Decode(b)| < |Strict(b)|
    decreases |b|
  {
    if b == [] {
    } else if v: CodePoint :| Octets(v) <= b {
      CharShape(v, b);
      SurrogateInFront(v, b);
      NoneInside(v, b);
      DecodeChar(v, b);
      hide Octets, EncodedSurrogate;
      var rest := b[|Octets(v)|..];
      StrictIsLonger(rest);
      if IsSurrogate(v) {
        SurrogateCosts(v, b);
      } else {
        StrictChar(v, b);
        FreeTail(b, |Octets(v)|);
      }
    } else {
      if EncodedSurrogate(b, 0) {
        SurrogateStands(b);
      }
      StrictIsLonger(b[1..]);
      FreeTail(b, 1);
    }
  }

  lemma SurrogateCosts(v: CodePoint, b: seq<Byte>)
    requires IsSurrogate(v) && Octets(v) <= b
    ensures |Units(v)| == 1 && |Octets(v)| == 3
    ensures Strict(b) == [REPLACEMENT, REPLACEMENT, REPLACEMENT] + Strict(b[3..])
  {
    CharShape(v, b);
    SurrogateInFront(v, b);
    forall w: CodePoint | Octets(w) <= b ensures IsSurrogate(w) { PrefixFree(v, w, b); }
    StrictBad(b);
    StrictTail(b[1..]);
    StrictTail(b[2..]);
    assert b[1..][1..] == b[2..] && b[2..][1..] == b[3..];
  }

  /** The decoder keeps to section 3 of RFC 3629 on a byte sequence if and only if no surrogate is encoded in it. */
  lemma ConformsExactlyWhen(b: seq<Byte>)
    ensures Decode(b) == Strict(b) <==> forall k: nat :: !EncodedSurrogate(b, k)
  {
    StrictIsLonger(b);
    hide Decode, Strict;
  }

  /** An encoded high surrogate comes out as it is, where the decoder without surrogates gives three replacement
      characters. */
  lemma SurrogateExample()
    ensures Decode([0xED, 0xA0, 0x80]) == [0xD800]
    ensures Strict([0xED, 0xA0, 0x80]) == [REPLACEMENT, REPLACEMENT, REPLACEMENT]
  {
    var b: seq<Byte> := [0xED, 0xA0, 0x80];
    assert Octets(0xD800) == b && b[3..] == [];
    DecodeChar(0xD800, b);
    SurrogateCosts(0xD800, b);
  }
}
