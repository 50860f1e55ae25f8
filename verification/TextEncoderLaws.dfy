/** What `encode` promises: exactly when its bytes are the standard UTF-8 form, and when decoding gives the string
    back. */
module TextEncoderLaws {
  import opened Sequences
  import opened Utf8
  import opened Utf8RoundTrip
  import opened TextEncoder

  /** Every high surrogate that is not the last unit is paired. */
  predicate NothingSwallowed(s: seq<Unit>) {
    forall k :: 0 <= k < |s| - 1 && IsHigh(s[k]) ==> IsLow(s[k + 1])
  }

  lemma NothingSwallowedTail(s: seq<Unit>, n: nat)
    requires n <= |s|
    requires forall k :: 0 <= k < n && k < |s| - 1 && IsHigh(s[k]) ==> IsLow(s[k + 1])
    ensures NothingSwallowed(s) <==> NothingSwallowed(s[n..])
  {
    var t := s[n..];
    if NothingSwallowed(t) {
      forall k | 0 <= k < |s| - 1 && IsHigh(s[k]) ensures IsLow(s[k + 1]) {
        if k >= n { assert t[k - n] == s[k] && t[k - n + 1] == s[k + 1]; }
      }
    }
    if NothingSwallowed(s) {
      forall k | 0 <= k < |t| - 1 && IsHigh(t[k]) ensures IsLow(t[k + 1]) {
        assert t[k] == s[n + k] && t[k + 1] == s[n + k + 1];
      }
    }
  }

  /** A swallowed unit always costs bytes, so the two readings of a string encode alike only when nothing is
      swallowed. */
  lemma {:induction false} SwallowingShortens(s: seq<Unit>)
    ensures NothingSwallowed(s) ==> Seen(s) == Scalars(s)
    ensures |OctetsOf(Seen(s))| <= |OctetsOf(Scalars(s))|
    ensures !NothingSwallowed(s) ==> |OctetsOf(Seen(s))| < |OctetsOf(Scalars(s))|
    decreases |s|
  {
    if s == [] {
    } else if !IsHigh(s[0]) {
      SwallowingShortens(s[1..]);
      NothingSwallowedTail(s, 1);
    } else if |s| == 1 {
      assert Scalars(s) == [REPLACEMENT] + Scalars([]) == [REPLACEMENT];
    } else if IsLow(s[1]) {
      SwallowingShortens(s[2..]);
      NothingSwallowedTail(s, 2);
    } else {
      assert !NothingSwallowed(s) by { assert IsHigh(s[0]); }
      var t := s[1..];
      assert OctetsOf(Scalars(s)) == Octets(REPLACEMENT) + OctetsOf(Scalars(t));
      assert OctetsOf(Seen(s)) == Octets(REPLACEMENT) + OctetsOf(Seen(s[2..]));
      if IsHigh(t[0]) && |t| > 1 && IsLow(t[1]) {
        SwallowingShortens(s[3..]);
        assert t[2..] == s[3..] && s[2..][1..] == s[3..] && s[2..][0] == t[1];
        assert OctetsOf(Scalars(t)) == Octets(Pair(t[0], t[1])) + OctetsOf(Scalars(s[3..]));
        assert OctetsOf(Seen(s[2..])) == Octets(REPLACEMENT) + OctetsOf(Seen(s[3..]));
      } else {
        SwallowingShortens(s[2..]);
        assert t[1..] == s[2..];
      }
    }
  }

  /** The rest of the scan after the characters at the front. */
  function Onward(s: seq<Unit>): nat
    requires s != []
  {
    if IsHigh(s[0]) && |s| > 1 then 2 else 1
  }

  lemma ShortOnward(s: seq<Unit>, slack: int) returns (next: int)
    requires BufferShort(s, slack) && !(IsHigh(s[0]) && |s| == 1)
    ensures Onward(s) < |s| && BufferShort(s[Onward(s)..], next)
  {
    next := if s[0] <= 0x7F then slack - 1
            else if s[0] <= 0x7FF then slack
            else if !IsHigh(s[0]) then slack + 1
            else if IsLow(s[1]) then slack
            else slack - 1;
  }

  lemma IllFormedOnward(s: seq<Unit>)
    requires s != [] && !WellFormed(s[Onward(s)..])
    ensures !WellFormed(s)
  {
  }

  lemma SeenOnward(s: seq<Unit>)
    requires s != [] && !(IsHigh(s[0]) && |s| == 1)
    ensures |Seen(s)| == 1 + |Seen(s[Onward(s)..])| && Seen(s)[1..] == Seen(s[Onward(s)..])
  {
  }

  /** A short array means that an unpaired high surrogate ends the string. */
  lemma {:induction false} ShortEndsInHigh(s: seq<Unit>, slack: int)
    requires BufferShort(s, slack)
    ensures s != [] && IsHigh(s[|s| - 1])
    ensures !WellFormed(s)
    ensures Seen(s) != [] && Seen(s)[|Seen(s)| - 1] == REPLACEMENT
    decreases |s|
  {
    if !(IsHigh(s[0]) && |s| == 1) {
      var next := ShortOnward(s, slack);
      SeenOnward(s);
      var rest := s[Onward(s)..];
      assert rest[|rest| - 1] == s[|s| - 1];
      hide BufferShort, WellFormed, Seen;
      ShortEndsInHigh(rest, next);
      IllFormedOnward(s);
      assert Seen(s)[|Seen(s)| - 1] == Seen(rest)[|Seen(rest)| - 1];
    }
  }

  lemma ReplacementOctets()
    ensures OctetsOf([REPLACEMENT]) == [0xEF, 0xBF, 0xBD]
  {
    assert Octets(REPLACEMENT) == [0xEF, 0xBF, 0xBD];
    assert OctetsOf([REPLACEMENT]) == Octets(REPLACEMENT) + OctetsOf([]);
  }

  lemma ShortOutput(s: seq<Unit>)
    requires BufferShort(s, 0)
    ensures Seen(s) != []
    ensures var init := Seen(s)[..|Seen(s)| - 1];
      Output(s) == OctetsOf(init) + [0xEF, 0xBF] && OctetsOf(Seen(s)) == OctetsOf(init) + [0xEF, 0xBF, 0xBD]
  {
    hide Octets, OctetsOf, BufferShort, Seen;
    ShortEndsInHigh(s, 0);
    var init, all := Seen(s)[..|Seen(s)| - 1], OctetsOf(Seen(s));
    assert Seen(s) == init + [REPLACEMENT];
    OctetsOfConcat(init, [REPLACEMENT]);
    ReplacementOctets();
    assert all == OctetsOf(init) + [0xEF, 0xBF, 0xBD];
    assert all[..|all| - 1] == OctetsOf(init) + [0xEF, 0xBF];
  }

  lemma {:induction false} WellFormedIsClean(s: seq<Unit>)
    requires WellFormed(s)
    ensures NothingSwallowed(s)
    decreases |s|
  {
    if s != [] {
      var n := if IsHigh(s[0]) then 2 else 1;
      WellFormedIsClean(s[n..]);
      NothingSwallowedTail(s, n);
    }
  }

  /** For every well-formed string the output is its encoding of section 3 of RFC 3629. */
  lemma WellFormedEncodesExactly(s: seq<Unit>)
    requires WellFormed(s)
    ensures UnitsOf(Scalars(s)) == s && Output(s) == OctetsOf(Scalars(s))
  {
    UnitsOfScalars(s);
    WellFormedIsClean(s);
    SwallowingShortens(s);
    if BufferShort(s, 0) { ShortEndsInHigh(s, 0); }
  }

  /** For every string: the output is the UTF-8 form with unpaired surrogates replaced exactly when no unit is
      swallowed and the array is long enough. */
  lemma StandardExactlyWhen(s: seq<Unit>)
    ensures Output(s) == OctetsOf(Scalars(s)) <==> NothingSwallowed(s) && !BufferShort(s, 0)
  {
    SwallowingShortens(s);
    if BufferShort(s, 0) { ShortOutput(s); }
  }

  lemma {:induction false} SeenAreScalars(s: seq<Unit>)
    ensures NoSurrogates(Seen(s))
    decreases |s|
  {
    if s == [] {
    } else if IsHigh(s[0]) {
      if |s| > 1 { SeenAreScalars(s[2..]); }
    } else {
      SeenAreScalars(s[1..]);
    }
  }

  lemma ReplacementUnits()
    ensures UnitsOf([REPLACEMENT, REPLACEMENT]) == [REPLACEMENT, REPLACEMENT]
  {
    assert UnitsOf([REPLACEMENT]) == Units(REPLACEMENT) + UnitsOf([]);
    assert [REPLACEMENT, REPLACEMENT][1..] == [REPLACEMENT];
  }

  lemma ShortDecodes(init: seq<CodePoint>)
    requires NoSurrogates(init)
    ensures WellFormed(Decode(OctetsOf(init) + [0xEF, 0xBF]))
  {
    hide Octets, OctetsOf, Decode, WellFormed, Scalars, UnitsOf;
    var two: seq<CodePoint> := [REPLACEMENT, REPLACEMENT];
    TwoBadBytes();
    ReplacementUnits();
    DecodeOctetsOf(init, [0xEF, 0xBF]);
    UnitsOfConcat(init, two);
    ScalarsOfUnits(init + two);
  }

  lemma DecodedIsWellFormed(s: seq<Unit>)
    ensures WellFormed(Decode(Output(s)))
  {
    SeenAreScalars(s);
    if BufferShort(s, 0) {
      ShortOutput(s);
      ShortDecodes(Seen(s)[..|Seen(s)| - 1]);
    } else {
      DecodeInvertsEncode(Seen(s));
      ScalarsOfUnits(Seen(s));
    }
  }

  lemma TwoBadBytes()
    ensures Decode([0xEF, 0xBF]) == [REPLACEMENT, REPLACEMENT]
  {
    D.DecodeThree([0xEF, 0xBF]);
    assert [0xEF, 0xBF][1..] == [0xBF];
    D.DecodeStray([0xBF]);
    assert [0xBF][1..] == [];
  }

  lemma UnitsOfFirst(v: CodePoint, vs: seq<CodePoint>)
    ensures UnitsOf([v] + vs) == Units(v) + UnitsOf(vs)
  {
    assert ([v] + vs)[1..] == vs;
  }

  lemma {:induction false} UnitsOfConcat(vs: seq<CodePoint>, ws: seq<CodePoint>)
    ensures UnitsOf(vs + ws) == UnitsOf(vs) + UnitsOf(ws)
  {
    if vs == [] {
      assert vs + ws == ws;
    } else {
      hide Units, UnitsOf;
      var rest := vs[1..];
      FirstAndRest(vs, ws);
      UnitsOfConcat(rest, ws);
      UnitsOfFirst(vs[0], rest);
      UnitsOfFirst(vs[0], rest + ws);
      Associative(Units(vs[0]), UnitsOf(rest), UnitsOf(ws));
    }
  }

  /** `decode(encode(s)) == s` for exactly the well-formed strings. */
  lemma RoundTripExactlyWhen(s: seq<Unit>)
    ensures Decode(Output(s)) == s <==> WellFormed(s)
  {
    DecodedIsWellFormed(s);
    if WellFormed(s) {
      WellFormedEncodesExactly(s);
      DecodeInvertsEncode(Scalars(s));
    }
  }

  /** `encode(decode(b))` is `b` again for exactly the byte sequences that are the UTF-8 form of some characters, none
      of them a surrogate. */
  lemma ReverseRoundTripExactlyWhen(b: seq<Byte>)
    ensures Output(Decode(b)) == b <==> exists vs: seq<CodePoint> :: NoSurrogates(vs) && b == OctetsOf(vs)
  {
    hide Output, Decode, OctetsOf, UnitsOf, Scalars, WellFormed, NoSurrogates;
    var s := Decode(b);
    if Output(s) == b {
      DecodedIsWellFormed(s);
      WellFormedEncodesExactly(s);
      ScalarsAreScalars(s);
    }
    if vs: seq<CodePoint> :| NoSurrogates(vs) && b == OctetsOf(vs) {
      DecodeInvertsEncode(vs);
      ScalarsOfUnits(vs);
      WellFormedEncodesExactly(UnitsOf(vs));
    }
  }

  /** A letter after an unpaired high surrogate is swallowed. */
  lemma SwallowExample()
    ensures var s: seq<Unit> := [0xD800, 0x41];
      Output(s) == [0xEF, 0xBF, 0xBD] && OctetsOf(Scalars(s)) == [0xEF, 0xBF, 0xBD, 0x41]
  {
    var s: seq<Unit> := [0xD800, 0x41];
    assert s[1..] == [0x41] && s[2..] == [];
    assert [0x41][1..] == [];
    ReplacementOctets();
    assert Seen(s) == [REPLACEMENT] && Output(s) == OctetsOf([REPLACEMENT]);
    assert Scalars([0x41]) == [0x41] && Scalars(s) == [REPLACEMENT, 0x41];
    assert OctetsOf([0x41]) == [0x41];
    assert [REPLACEMENT, 0x41][1..] == [0x41];
  }

  /** So many three-byte characters and an unpaired high surrogate. */
  function Threes(n: nat): seq<Unit> { if n == 0 then [0xD800] else [0x800] + Threes(n - 1) }

  lemma {:induction false} ThreesAreShort(n: nat)
    requires n <= 8
    ensures |Threes(n)| == n + 1 && BufferShort(Threes(n), 8 - n) && |OctetsOf(Seen(Threes(n)))| == 3 * n + 3
  {
    if n == 0 {
      ReplacementOctets();
      assert Seen([0xD800]) == [REPLACEMENT];
    } else {
      ThreesAreShort(n - 1);
      var rest := Threes(n - 1);
      assert Threes(n)[0] == 0x800 && Threes(n)[1..] == rest;
      assert Seen(Threes(n)) == [0x800] + Seen(rest);
      assert ([0x800] + Seen(rest))[1..] == Seen(rest);
      assert |Octets(0x800)| == 3;
    }
  }

  /** Eight of them: the array of 26 bytes lacks the last one. */
  lemma ShortExample()
    ensures BufferShort(Threes(8), 0) && |Output(Threes(8))| == 26 && |OctetsOf(Seen(Threes(8)))| == 27
  {
    ThreesAreShort(8);
    hide BufferShort, OctetsOf, Seen, Threes;
  }
}
