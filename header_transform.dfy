/** What `decrypt_file` and `encode_file` do to the bytes of one file, as
    values: the header length the decoder reports, the contents it leaves,
    and the contents the encoder writes. */
module HeaderTransform {
  import opened Outcomes
  import opened UnityFsLocator

  /** Python's `data[:n]` for any integer n (a negative n counts from the end). */
  function PyPrefix(data: seq<byte>, n: int): (r: seq<byte>)
    ensures r <= data
  {
    if n >= |data| then data
    else if n >= 0 then data[..n]
    else if |data| + n <= 0 then []
    else data[..|data| + n]
  }

  /** Python's `data[n:]` for a non-negative n. */
  function PySuffix(data: seq<byte>, n: nat): (r: seq<byte>)
    ensures |r| == if n <= |data| then |data| - n else 0
  {
    if n <= |data| then data[n..] else []
  }

  /** decrypt_file on one buffer: the header length it returns and the
      contents the file has afterwards (rewritten only when the length is not -1). */
  function DecryptBuffer(data: seq<byte>): (r: Raises<(int, seq<byte>)>)
    ensures r.Raises? <==> FindNextUnityFsIndex(data).Raises?
    ensures r.Returns? ==> r.value.0 == FindNextUnityFsIndex(data).value
    ensures r.Returns? && r.value.0 == -1 ==> r.value.1 == data
    ensures r.Returns? && r.value.0 != -1 ==> 0 <= r.value.0 <= |data| && r.value.1 == data[r.value.0..]
  {
    match FindNextUnityFsIndex(data)
    case Raises(e) => Raises(e)
    case Returns(headerLen) =>
      if headerLen == -1 then Returns((-1, data))
      else Returns((headerLen, PySuffix(data, headerLen as nat)))
  }

  /** The contents of a file after its decrypt job, whether it returned or raised. */
  function Decoded(data: seq<byte>): (r: seq<byte>)
    ensures |r| <= |data| && r == data[|data| - |r|..]
  {
    match DecryptBuffer(data)
    case Returns((_, written)) => written
    case Raises(_) => data
  }

  /** encode_file on one buffer: `data[:header_len] + data`. */
  function EncodeBuffer(data: seq<byte>, headerLen: int): (r: seq<byte>)
  {
    PyPrefix(data, headerLen) + data
  }

  // ---------------------------------------------------------------------
  // Lemmas

  /** The locator raises only for an odd match start: the search always succeeds. */
  lemma LocatorRaisesOnlyOddHex(data: seq<byte>)
    requires FindNextUnityFsIndex(data).Raises?
    ensures FindNextUnityFsIndex(data).error == OddLengthHex
  {
    IneligibleIff(data);
    EligibleAnswer(data);
  }

  /** An ineligible buffer is reported as -1 and left as it is. */
  lemma DecryptIneligible(data: seq<byte>)
    requires !TwoOccurrences(Hexlify(data))
    ensures DecryptBuffer(data) == Returns((-1, data))
    ensures Decoded(data) == data
  {
    IneligibleIff(data);
  }

  /** An eligible buffer loses exactly its first L bytes, and L is where the
      last marker that does not start the file begins. */
  lemma DecryptEligible(data: seq<byte>)
    requires Eligible(data)
    ensures var L := FindNextUnityFsIndex(data).value;
      && 12 <= L <= |data| - 12
      && DecryptBuffer(data) == Returns((L, data[L..]))
      && Decoded(data) == data[L..]
      && |Decoded(data)| == |data| - L
      && Decoded(data)[..11] == Marker
  {
    OffsetIsMarker(data);
    var L := FindNextUnityFsIndex(data).value;
    assert data[L..][..11] == data[L..L + 11];
  }

  /** With 0 <= L <= len, the encoder writes len + L bytes: the first L bytes
      again, then the whole input. */
  lemma EncodeWithinLength(data: seq<byte>, headerLen: int)
    requires 0 <= headerLen <= |data|
    ensures var out := EncodeBuffer(data, headerLen);
      && |out| == |data| + headerLen
      && out[..headerLen] == data[..headerLen]
      && out[headerLen..] == data
  {
    var out := EncodeBuffer(data, headerLen);
    assert out == data[..headerLen] + data;
    assert out[headerLen..] == data;
  }

  /** With L >= len the slice clamps and the encoder writes the input twice. */
  lemma EncodeBeyondLength(data: seq<byte>, headerLen: int)
    requires headerLen >= |data|
    ensures EncodeBuffer(data, headerLen) == data + data
  {
  }

  /** A negative L drops -L bytes from the end of the copied prefix. */
  lemma EncodeNegative(data: seq<byte>, headerLen: int)
    requires headerLen < 0
    ensures EncodeBuffer(data, headerLen) ==
      (if |data| + headerLen <= 0 then [] else data[..|data| + headerLen]) + data
  {
  }

  /** Encoding with L after stripping L bytes copies the L bytes that follow
      the cut, so the result is F[o:2o] + F[o:]; it equals F exactly when
      the stripped header is the same as the L bytes after it. */
  lemma StripThenPrepend(f: seq<byte>, o: nat)
    requires o <= |f|
    ensures var back := EncodeBuffer(f[o..], o);
      && back == f[o..if 2 * o <= |f| then 2 * o else |f|] + f[o..]
      && (back == f <==> 2 * o <= |f| && f[..o] == f[o..2 * o])
  {
    var rest := f[o..];
    var back := EncodeBuffer(rest, o);
    var cut := if 2 * o <= |f| then 2 * o else |f|;
    assert PyPrefix(rest, o) == f[o..cut];
    assert back == f[o..cut] + f[o..];
    if back == f {
      assert |back| == (cut - o) + (|f| - o);
      assert 2 * o <= |f|;
      assert f[..o] == back[..o] == f[o..2 * o];
    }
    if 2 * o <= |f| && f[..o] == f[o..2 * o] {
      assert f == f[..o] + f[o..];
    }
  }

  /** The round trip for a file the decoder strips: decode then encode with
      the reported length gives F back exactly when the header is duplicated. */
  lemma DecodeEncodeRoundTrip(f: seq<byte>)
    requires Eligible(f)
    ensures var L := FindNextUnityFsIndex(f).value;
      && 0 <= L
      && (EncodeBuffer(Decoded(f), L) == f <==> 2 * L <= |f| && f[..L] == f[L..2 * L])
  {
    DecryptEligible(f);
    StripThenPrepend(f, FindNextUnityFsIndex(f).value);
  }
}
