/** The UnityFS header locator `find_next_unityFS_index`, modelled on the
    hex text that `hexlify` produces: one nibble per hex digit. */
module UnityFsLocator {
  import opened Outcomes

  type byte = x: int | 0 <= x < 256
  type nibble = x: int | 0 <= x < 16

  /** The regex literal "556e6974794653000000000": the hex digits of "UnityFS",
      of one 0x00 byte, and seven more 0 digits (23 digits, an odd number). */
  const Pattern: seq<nibble> := [5, 5, 6, 14, 6, 9, 7, 4, 7, 9, 4, 6, 5, 3, 0, 0, 0, 0, 0, 0, 0, 0, 0]
  const PatternLength := 23

  /** The eleven whole bytes the pattern spells: "UnityFS" and four 0x00 bytes. */
  const Marker: seq<byte> := [85, 110, 105, 116, 121, 70, 83, 0, 0, 0, 0]

  /** binascii.hexlify: each byte becomes its high and its low hex digit. */
  function Hexlify(data: seq<byte>): (h: seq<nibble>)
    ensures |h| == 2 * |data|
  {
    seq(2 * |data|, i requires 0 <= i < 2 * |data| =>
      if i % 2 == 0 then (data[i / 2] as int) / 16 else (data[i / 2] as int) % 16)
  }

  /** binascii.unhexlify of hex text whose digits are all valid: an odd length raises. */
  function Unhexlify(h: seq<nibble>): (r: Raises<seq<byte>>)
    ensures r.Raises? <==> |h| % 2 == 1
    ensures r.Raises? ==> r.error == OddLengthHex
    ensures r.Returns? ==> |r.value| == |h| / 2
    ensures r.Returns? ==> forall i :: 0 <= i < |r.value| ==> r.value[i] == 16 * (h[2 * i] as int) + h[2 * i + 1]
    decreases |h|
  {
    if |h| == 0 then Returns([])
    else if |h| == 1 then Raises(OddLengthHex)
    else match Unhexlify(h[2..])
      case Raises(e) => Raises(e)
      case Returns(rest) => Returns([16 * (h[0] as int) + h[1]] + rest)
  }

  /** The 23-digit pattern occurs in `h` starting at digit `p`. */
  predicate MatchAt(h: seq<nibble>, p: nat) {
    p + PatternLength <= |h| && h[p..p + PatternLength] == Pattern
  }

  /** re.findall from position `i`: a left-to-right scan that resumes after each match. */
  function FindAllFrom(h: seq<nibble>, i: nat): nat
    decreases |h| - i
  {
    if i + PatternLength > |h| then 0
    else if MatchAt(h, i) then 1 + FindAllFrom(h, i + PatternLength)
    else FindAllFrom(h, i + 1)
  }

  /** len(re.findall(pattern, h)). */
  function FindAllCount(h: seq<nibble>): nat {
    FindAllFrom(h, 0)
  }

  /** The greedy `.+` before the pattern backtracks from the end of the text,
      so `re.search` ends at the last occurrence that starts at digit 1 or later.
      This is that occurrence among the starts below `n`. */
  function LastMatchBelow(h: seq<nibble>, n: nat): (r: Option<nat>)
    ensures r.Some? ==> 1 <= r.value < n && MatchAt(h, r.value)
    ensures r.Some? ==> forall q :: r.value < q < n ==> !MatchAt(h, q)
    ensures r.None? ==> forall q :: 1 <= q < n ==> !MatchAt(h, q)
  {
    if n <= 1 then None
    else if MatchAt(h, n - 1) then Some(n - 1)
    else LastMatchBelow(h, n - 1)
  }

  /** The start of the match of `.+556e6974794653000000000`, i.e. the length of
      the matched group minus 23; None when `re.search` finds nothing. */
  function SearchStart(h: seq<nibble>): (r: Option<nat>)
    ensures r.Some? ==> 1 <= r.value && r.value + PatternLength <= |h| && MatchAt(h, r.value)
    ensures r.Some? ==> forall q :: r.value < q <= |h| ==> !MatchAt(h, q)
    ensures r.None? ==> forall q :: 1 <= q <= |h| ==> !MatchAt(h, q)
  {
    LastMatchBelow(h, |h| + 1)
  }

  /** find_next_unityFS_index: -1 when the pattern occurs fewer than two times,
      otherwise the byte length of the hex prefix before the last occurrence. */
  function FindNextUnityFsIndex(data: seq<byte>): (r: Raises<int>)
    ensures r == Returns(-1) <==> FindAllCount(Hexlify(data)) < 2
    ensures r.Returns? ==> -1 <= r.value <= |data|
  {
    var hex := Hexlify(data);
    if FindAllCount(hex) < 2 then Returns(-1)
    else match SearchStart(hex)
      case None => Raises(NoMatchGroup)
      case Some(p) =>
        match Unhexlify(hex[..p])
        case Raises(e) => Raises(e)
        case Returns(prefix) => Returns(|prefix|)
  }

  /** The file carries a header the decoder strips. */
  predicate Eligible(data: seq<byte>) {
    var r := FindNextUnityFsIndex(data);
    r.Returns? && r.value != -1
  }

  // ---------------------------------------------------------------------
  // Lemmas

  /** Hex text round-trips: unhexlify(hexlify(d)) == d. */
  lemma UnhexlifyHexlify(data: seq<byte>)
    ensures Unhexlify(Hexlify(data)) == Returns(data)
  {
    var h := Hexlify(data);
    assert |h| % 2 == 0;
    var r := Unhexlify(h);
    assert r.Returns? && |r.value| == |data|;
    forall i | 0 <= i < |data| ensures r.value[i] == data[i] {
      ByteFromDigits(data, i);
    }
    assert r.value == data;
  }

  /** No occurrence starts inside another: the digits "55" that open the
      pattern appear nowhere else in it. */
  lemma NoMatchInside(h: seq<nibble>, i: nat, j: nat)
    requires MatchAt(h, i) && i < j < i + PatternLength
    ensures !MatchAt(h, j)
  {
    var d := j - i;
    assert h[j] == h[i..i + PatternLength][d];
    if d < PatternLength - 1 {
      assert h[j + 1] == h[i..i + PatternLength][d + 1];
    }
    if j + PatternLength <= |h| {
      assert h[j..j + PatternLength][0] == h[j] && h[j..j + PatternLength][1] == h[j + 1];
    }
  }

  /** The pattern cannot overlap itself: two occurrences are at least 23 digits apart. */
  lemma NoSelfOverlap(h: seq<nibble>, i: nat, j: nat)
    requires i < j && MatchAt(h, i) && MatchAt(h, j)
    ensures i + PatternLength <= j
  {
    if j < i + PatternLength {
      NoMatchInside(h, i, j);
    }
  }

  /** A match at or after `s` is counted by the scan from `s`. */
  lemma {:induction false} ScanCountsMatch(h: seq<nibble>, s: nat, i: nat)
    requires s <= i && MatchAt(h, i)
    ensures FindAllFrom(h, s) >= 1 + FindAllFrom(h, i + PatternLength)
    decreases i - s
  {
    if s < i {
      if MatchAt(h, s) {
        NoSelfOverlap(h, s, i);
        ScanCountsMatch(h, s + PatternLength, i);
      } else {
        ScanCountsMatch(h, s + 1, i);
      }
    }
  }

  /** A positive count from `s` exhibits a match at or after `s`. */
  lemma {:induction false} ScanFindsMatch(h: seq<nibble>, s: nat) returns (i: nat)
    requires FindAllFrom(h, s) >= 1
    ensures s <= i && MatchAt(h, i)
    ensures FindAllFrom(h, i + PatternLength) == FindAllFrom(h, s) - 1
    decreases |h| - s
  {
    if MatchAt(h, s) {
      i := s;
    } else {
      i := ScanFindsMatch(h, s + 1);
    }
  }

  /** The hex text has two occurrences of the pattern. */
  ghost predicate TwoOccurrences(h: seq<nibble>) {
    exists i: nat, j: nat :: i < j && MatchAt(h, i) && MatchAt(h, j)
  }

  /** Counting non-overlapping matches is the same as counting matches:
      findall reaches two exactly when two occurrences exist. */
  lemma CountAtLeastTwoIff(h: seq<nibble>)
    ensures FindAllCount(h) >= 2 <==> TwoOccurrences(h)
  {
    if FindAllCount(h) >= 2 {
      var i := ScanFindsMatch(h, 0);
      var j := ScanFindsMatch(h, i + PatternLength);
      assert i < j && MatchAt(h, i) && MatchAt(h, j);
    }
    if TwoOccurrences(h) {
      var i: nat, j: nat :| i < j && MatchAt(h, i) && MatchAt(h, j);
      NoSelfOverlap(h, i, j);
      ScanCountsMatch(h, 0, i);
      ScanCountsMatch(h, i + PatternLength, j);
    }
  }

  /** The locator answers -1 exactly when the pattern occurs fewer than two times. */
  lemma IneligibleIff(data: seq<byte>)
    ensures FindNextUnityFsIndex(data) == Returns(-1) <==> !TwoOccurrences(Hexlify(data))
  {
    CountAtLeastTwoIff(Hexlify(data));
  }

  /** With two occurrences, the search always succeeds, at the last occurrence,
      which lies at digit 23 or later; an odd start raises and an even start
      gives half of it. */
  lemma EligibleAnswer(data: seq<byte>)
    requires TwoOccurrences(Hexlify(data))
    ensures SearchStart(Hexlify(data)).Some?
    ensures var p := SearchStart(Hexlify(data)).value;
      && PatternLength <= p
      && MatchAt(Hexlify(data), p)
      && (forall q :: p < q ==> !MatchAt(Hexlify(data), q))
      && FindNextUnityFsIndex(data) == (if p % 2 == 1 then Raises(OddLengthHex) else Returns(p / 2))
  {
    var h := Hexlify(data);
    CountAtLeastTwoIff(h);
    var i: nat, j: nat :| i < j && MatchAt(h, i) && MatchAt(h, j);
    NoSelfOverlap(h, i, j);
    var s := SearchStart(h);
    assert 1 <= j < |h| + 1;
    assert s.Some?;
    var p := s.value;
    assert j <= p;
    forall q | p < q ensures !MatchAt(h, q) {
      if q <= |h| {
        assert !MatchAt(h, q);
      }
    }
  }

  /** The first 22 digits of the pattern are the hex text of the marker bytes. */
  lemma PatternSpellsMarker()
    ensures forall k :: 0 <= k < 11 ==> Marker[k] == 16 * (Pattern[2 * k] as int) + Pattern[2 * k + 1]
  {
  }

  /** Byte i of the data is hex digits 2i and 2i + 1, so it is recovered from them. */
  lemma ByteFromDigits(data: seq<byte>, i: nat)
    requires i < |data|
    ensures Hexlify(data)[2 * i] == (data[i] as int) / 16
    ensures Hexlify(data)[2 * i + 1] == (data[i] as int) % 16
    ensures data[i] == 16 * (Hexlify(data)[2 * i] as int) + Hexlify(data)[2 * i + 1]
  {
    var d := data[i] as int;
    assert (2 * i) / 2 == i && (2 * i + 1) / 2 == i;
    assert d == 16 * (d / 16) + d % 16;
  }

  /** An occurrence, digit by digit. */
  lemma DigitsUnderMatch(h: seq<nibble>, p: nat)
    requires MatchAt(h, p)
    ensures forall j :: 0 <= j < PatternLength ==> h[p + j] == Pattern[j]
  {
    forall j | 0 <= j < PatternLength ensures h[p + j] == Pattern[j] {
      assert h[p + j] == h[p..p + PatternLength][j];
    }
  }

  /** The bytes under the digits of an occurrence at an even digit 2o are spelled by the pattern's digit pairs. */
  lemma BytesUnderDigits(data: seq<byte>, o: nat)
    requires o + 12 <= |data|
    requires forall j :: 0 <= j < PatternLength ==> Hexlify(data)[2 * o + j] == Pattern[j]
    ensures forall k :: 0 <= k < 11 ==> data[o + k] == 16 * (Pattern[2 * k] as int) + Pattern[2 * k + 1]
    ensures data[o + 11] / 16 == 0
  {
    forall k | 0 <= k < 11
      ensures data[o + k] == 16 * (Pattern[2 * k] as int) + Pattern[2 * k + 1]
    {
      ByteFromDigits(data, o + k);
      assert Hexlify(data)[2 * (o + k)] == Hexlify(data)[2 * o + 2 * k];
      assert Hexlify(data)[2 * (o + k) + 1] == Hexlify(data)[2 * o + (2 * k + 1)];
    }
    ByteFromDigits(data, o + 11);
    assert Hexlify(data)[2 * (o + 11)] == Hexlify(data)[2 * o + 22] == Pattern[22] == 0;
  }

  /** Bytes spelled by the pattern's digit pairs are the marker. */
  lemma SpelledBytesAreMarker(data: seq<byte>, o: nat)
    requires o + 11 <= |data|
    requires forall k :: 0 <= k < 11 ==> data[o + k] == 16 * (Pattern[2 * k] as int) + Pattern[2 * k + 1]
    ensures data[o..o + 11] == Marker
  {
    PatternSpellsMarker();
  }

  /** An occurrence at an even digit 2o spells the marker bytes at byte o. */
  lemma MarkerBytes(data: seq<byte>, o: nat)
    requires MatchAt(Hexlify(data), 2 * o)
    ensures o + 12 <= |data|
    ensures data[o..o + 11] == Marker
    ensures data[o + 11] < 16
  {
    DigitsUnderMatch(Hexlify(data), 2 * o);
    BytesUnderDigits(data, o);
    SpelledBytesAreMarker(data, o);
  }

  /** Where the decoder cuts: the offset leaves room for the earlier occurrence
      before it and for the 12-byte marker after it, and the bytes there are
      "UnityFS", four 0x00 bytes, and a byte below 0x10. */
  lemma OffsetIsMarker(data: seq<byte>)
    requires Eligible(data)
    ensures var o := FindNextUnityFsIndex(data).value;
      && 12 <= o <= |data| - 12
      && data[o..o + 11] == Marker
      && data[o + 11] < 16
  {
    var h := Hexlify(data);
    IneligibleIff(data);
    assert TwoOccurrences(h);
    EligibleAnswer(data);
    var p := SearchStart(h).value;
    assert p % 2 == 0 && FindNextUnityFsIndex(data) == Returns(p / 2);
    assert 2 * (p / 2) == p;
    MarkerBytes(data, p / 2);
  }
}
