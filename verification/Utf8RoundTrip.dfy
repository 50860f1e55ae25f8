/** Laws of the two encoding forms: decoding undoes encoding, and which strings survive. */
module Utf8RoundTrip {
  import opened Sequences
  import opened Utf8
  import D = TextDecoder

  /** Decoding what stands after encoded characters sees those characters first. */
  lemma {:induction false} DecodeOctetsOf(vs: seq<CodePoint>, rest: seq<Byte>)
    ensures Decode(OctetsOf(vs) + rest) == UnitsOf(vs) + Decode(rest)
  {
    hide Octets, Decode, Units;
    if vs == [] {
      assert OctetsOf(vs) + rest == rest;
    } else {
      var o, tail := Octets(vs[0]), OctetsOf(vs[1..]) + rest;
      assert OctetsOf(vs) + rest == o + tail && (o + tail)[|o|..] == tail;
      D.DecodeChar(vs[0], o + tail);
      DecodeOctetsOf(vs[1..], rest);
    }
  }

  /** UTF-8 decoding inverts UTF-8 encoding of every sequence of character numbers. */
  lemma DecodeInvertsEncode(vs: seq<CodePoint>)
    ensures Decode(OctetsOf(vs)) == UnitsOf(vs)
  {
    DecodeOctetsOf(vs, []);
    assert OctetsOf(vs) + [] == OctetsOf(vs);
  }

  lemma PairUnits(high: Unit, low: Unit)
    requires IsHigh(high) && IsLow(low)
    ensures Units(Pair(high, low)) == [high, low]
  {
  }

  /** Reading the scalars of a string and writing them back gives the string exactly when it was well-formed. */
  lemma {:induction false} UnitsOfScalars(s: seq<Unit>)
    ensures UnitsOf(Scalars(s)) == s <==> WellFormed(s)
    ensures |UnitsOf(Scalars(s))| == |s|
  {
    if s == [] {
    } else if IsHigh(s[0]) && |s| > 1 && IsLow(s[1]) {
      PairUnits(s[0], s[1]);
      UnitsOfScalars(s[2..]);
      assert s == [s[0], s[1]] + s[2..];
      assert UnitsOf(Scalars(s)) == [s[0], s[1]] + UnitsOf(Scalars(s[2..]));
      assert UnitsOf(Scalars(s))[2..] == UnitsOf(Scalars(s[2..]));
    } else {
      UnitsOfScalars(s[1..]);
      var v: CodePoint := if IsSurrogate(s[0]) then REPLACEMENT else s[0];
      assert s == [s[0]] + s[1..];
      assert UnitsOf(Scalars(s)) == [v] + UnitsOf(Scalars(s[1..]));
      assert UnitsOf(Scalars(s))[1..] == UnitsOf(Scalars(s[1..]));
    }
  }

  ghost predicate NoSurrogates(vs: seq<CodePoint>) { forall k :: 0 <= k < |vs| ==> !IsSurrogate(vs[k]) }

  lemma {:induction false} ScalarsAreScalars(s: seq<Unit>)
    ensures NoSurrogates(Scalars(s))
  {
    if s == [] {
    } else if IsHigh(s[0]) && |s| > 1 && IsLow(s[1]) {
      ScalarsAreScalars(s[2..]);
    } else {
      ScalarsAreScalars(s[1..]);
    }
  }

  /** Scalars written as UTF-16 make a well-formed string, and reading it gives them back. */
  lemma {:induction false} ScalarsOfUnits(vs: seq<CodePoint>)
    requires NoSurrogates(vs)
    ensures WellFormed(UnitsOf(vs)) && Scalars(UnitsOf(vs)) == vs
  {
    if vs != [] {
      var u := Units(vs[0]);
      ScalarsOfUnits(vs[1..]);
      assert UnitsOf(vs)[|u|..] == UnitsOf(vs[1..]);
      assert vs == [vs[0]] + vs[1..];
    }
  }

  lemma OctetsOfFirst(v: CodePoint, vs: seq<CodePoint>)
    ensures OctetsOf([v] + vs) == Octets(v) + OctetsOf(vs)
  {
    assert ([v] + vs)[1..] == vs;
  }

  lemma {:induction false} OctetsOfConcat(vs: seq<CodePoint>, ws: seq<CodePoint>)
    ensures OctetsOf(vs + ws) == OctetsOf(vs) + OctetsOf(ws)
  {
    if vs == [] {
      assert vs + ws == ws;
    } else {
      hide Octets, OctetsOf;
      var rest := vs[1..];
      FirstAndRest(vs, ws);
      OctetsOfConcat(rest, ws);
      OctetsOfFirst(vs[0], rest);
      OctetsOfFirst(vs[0], rest + ws);
      Associative(Octets(vs[0]), OctetsOf(rest), OctetsOf(ws));
    }
  }
}
