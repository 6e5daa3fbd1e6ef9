/** `get_ab_offset` of `offset.py`: a one-byte offset derived from the last
    (at most) three characters of a file's base name. */
module AbOffset {
  import opened Outcomes
  import opened Paths

  function Min(a: int, b: int): int { if a <= b then a else b }
  function Max(a: int, b: int): int { if a >= b then a else b }
  function Abs(x: int): int { if x < 0 then -x else x }

  /** Python's `x << k` on a non-negative integer. */
  function Shl(x: nat, k: nat): nat {
    if k == 0 then x else 2 * Shl(x, k - 1)
  }

  /** Python's `x >> k` on a non-negative integer. */
  function Shr(x: nat, k: nat): nat {
    if k == 0 then x else Shr(x / 2, k - 1)
  }

  /** The value of the low k bits of x. */
  function LowBits(x: nat, k: nat): nat {
    if k == 0 then 0 else 2 * LowBits(x / 2, k - 1) + x % 2
  }

  /** Python's `|` on non-negative integers, bit by bit. */
  function BitOr(a: nat, b: nat): nat
    decreases a + b
  {
    if a == 0 then b
    else if b == 0 then a
    else 2 * BitOr(a / 2, b / 2) + (if a % 2 == 1 || b % 2 == 1 then 1 else 0)
  }

  /** The per-character term of the hash: `char | (char << 16)`. */
  function HashCode(c: char): nat {
    BitOr(c as int, Shl(c as int, 16))
  }

  /** The sum of the hash terms of all characters of `s`. */
  function SumHash(s: string): nat {
    if s == [] then 0 else HashCode(s[0]) + SumHash(s[1..])
  }

  /** The sum of the code points of all characters of `s`. */
  function SumCodes(s: string): nat {
    if s == [] then 0 else (s[0] as int) + SumCodes(s[1..])
  }

  /** The last min(3, |name|) characters of `name`. */
  function LastThree(name: string): string {
    name[|name| - Min(3, |name|)..]
  }

  /** What get_ab_offset promises: 23 for a missing or empty name, and
      otherwise 23 plus the code points of the base name's last (at most)
      three characters, reduced mod 256 and raised to at least 1. */
  function AbOffsetSpec(filename: Option<string>): int {
    if filename.None? || |filename.value| == 0 then 23
    else Max(1, (23 + SumCodes(LastThree(Basename(filename.value)))) % 256)
  }

  /** get_ab_offset: 23 for a missing or empty name; otherwise the clamped
      hash of the base name's last characters. */
  method GetAbOffset(filename: Option<string>) returns (offset: int)
    ensures offset == AbOffsetSpec(filename)
    ensures 1 <= offset <= 255
  {
    if filename.None? || |filename.value| == 0 {
      return 23;
    }
    var name := Basename(filename.value);
    offset := HashLastThree(name);
    ClampedLowByte(LastThree(name));
    offset := Max(1, Abs(offset) % 256);
  }

  /** The loop of get_ab_offset: starting from 23, add `char | (char << 16)`
      for the last, second-last and third-last character, stopping early
      when the name is shorter than three. */
  method HashLastThree(name: string) returns (offset: int)
    ensures offset == 23 + SumHash(LastThree(name))
  {
    offset := 23;
    var lenFilename := |name|;
    var i := 0;
    while i < 3
      invariant i <= 3 && i <= lenFilename
      invariant offset == 23 + SumHash(name[lenFilename - i..])
    {
      var index := lenFilename - i - 1;
      if index < 0 {
        break;
      }
      var ch := name[index];
      var hashCode := HashCode(ch);
      SumHashStep(name, index);
      offset := offset + hashCode;
      i := i + 1;
    }
    assert i == Min(3, lenFilename);
  }

  // ---------------------------------------------------------------------
  // Lemmas

  /** Or-ing with an even number keeps the low bit of the other operand. */
  lemma OrEven(a: nat, t: nat)
    ensures BitOr(a, 2 * t) == 2 * BitOr(a / 2, t) + a % 2
  {
    if a != 0 && t != 0 {
      assert (2 * t) / 2 == t && (2 * t) % 2 == 0;
    }
  }

  /** Every number is its low k bits plus its high part shifted back. */
  lemma {:induction false} SplitBits(a: nat, k: nat)
    ensures a == LowBits(a, k) + Shl(Shr(a, k), k)
  {
    if k > 0 {
      SplitBits(a / 2, k - 1);
    }
  }

  /** Or-ing in `t << k` leaves the low k bits alone and or-s into the high part. */
  lemma {:induction false} OrShifted(a: nat, t: nat, k: nat)
    ensures BitOr(a, Shl(t, k)) == LowBits(a, k) + Shl(BitOr(Shr(a, k), t), k)
  {
    if k > 0 {
      OrEven(a, Shl(t, k - 1));
      OrShifted(a / 2, t, k - 1);
    }
  }

  /** `x << 16` is `x * 65536`. */
  lemma {:induction false} Shl16(x: nat)
    ensures Shl(x, 16) == 65536 * x
  {
    ShlTimes(x, 16);
    assert Shl(1, 4) == 16;
    assert Shl(1, 8) == 256;
    assert Shl(1, 12) == 4096;
  }

  lemma {:induction false} ShlTimes(x: nat, k: nat)
    ensures Shl(x, k) == x * Shl(1, k)
  {
    if k > 0 {
      ShlTimes(x, k - 1);
      var p := Shl(1, k - 1);
      assert x * (2 * p) == 2 * (x * p);
    }
  }

  /** Each hash term agrees with its character's code point in the low byte. */
  lemma HashCodeLowByte(c: char)
    ensures HashCode(c) % 256 == (c as int) % 256
  {
    var x := c as int;
    var low, high := LowBits(x, 16), Shr(x, 16);
    var merged := BitOr(high, x);
    assert HashCode(c) == low + 65536 * merged by {
      OrShifted(x, x, 16);
      Shl16(merged);
    }
    assert x == low + 65536 * high by {
      SplitBits(x, 16);
      Shl16(high);
    }
    AddMultipleOf256(x, 256 * (merged as int - high as int));
  }

  lemma AddMultipleOf256(x: int, q: int)
    ensures (x + 256 * q) % 256 == x % 256
  {
  }

  /** The sum of hash terms agrees with the sum of code points in the low byte. */
  lemma {:induction false} SumHashLowByte(s: string)
    ensures SumHash(s) % 256 == SumCodes(s) % 256
  {
    if s != [] {
      SumHashLowByte(s[1..]);
      HashCodeLowByte(s[0]);
      SameLowByteSum(HashCode(s[0]), s[0] as int, SumHash(s[1..]), SumCodes(s[1..]));
    }
  }

  /** Taking one more character from the end adds its hash term. */
  lemma SumHashStep(s: string, k: nat)
    requires k < |s|
    ensures SumHash(s[k..]) == HashCode(s[k]) + SumHash(s[k + 1..])
  {
    assert s[k..][1..] == s[k + 1..];
  }

  /** The clamp of the hashed sum is the clamp of the plain code-point sum,
      `abs` never matters (the sum is at least 23), and the result is a
      non-zero byte. */
  lemma ClampedLowByte(s: string)
    ensures Abs(23 + SumHash(s)) == 23 + SumHash(s)
    ensures Max(1, Abs(23 + SumHash(s)) % 256) == Max(1, (23 + SumCodes(s)) % 256)
    ensures 1 <= Max(1, (23 + SumCodes(s)) % 256) <= 255
  {
    SumHashLowByte(s);
    SameLowByteShifted(SumHash(s), SumCodes(s), 23);
  }

  lemma SameLowByteSum(a: nat, b: nat, c: nat, d: nat)
    requires a % 256 == b % 256 && c % 256 == d % 256
    ensures (a + c) % 256 == (b + d) % 256
  {
    assert a == 256 * (a / 256) + a % 256;
    assert b == 256 * (b / 256) + a % 256;
    assert c == 256 * (c / 256) + c % 256;
    assert d == 256 * (d / 256) + c % 256;
    assert a + c == 256 * (a / 256 + c / 256) + (a % 256 + c % 256);
    assert b + d == 256 * (b / 256 + d / 256) + (a % 256 + c % 256);
  }

  lemma SameLowByteShifted(a: nat, b: nat, k: nat)
    requires a % 256 == b % 256
    ensures (k + a) % 256 == (k + b) % 256
  {
    var qa, qb := a / 256, b / 256;
    assert a == 256 * qa + a % 256;
    assert b == 256 * qb + a % 256;
    assert k + a == 256 * qa + (k + a % 256);
    assert k + b == 256 * qb + (k + a % 256);
  }

  /** Worked value: only the base name counts, 23 + '.' + 'a' + 'b' = 264. */
  lemma AbOffsetOfBundleName()
    ensures AbOffsetSpec(Some("dir/a.ab")) == 8
  {
    assert Basename("dir/a.ab") == "a.ab" by {
      assert "dir/" + "a.ab" == "dir/a.ab";
      AppendName("dir/", "a.ab");
    }
    assert LastThree("a.ab") == ".ab" by {
      assert "a.ab"[1..] == ".ab";
    }
    assert SumCodes(".ab") == 241 by {
      assert SumCodes("b") == 98 by {
        assert "b"[1..] == "";
      }
      assert SumCodes("ab") == 195 by {
        assert "ab"[1..] == "b";
      }
      assert ".ab"[1..] == "ab";
    }
  }

  /** For a plain name of at most three characters the offset depends on
      all of its characters. */
  lemma AbOffsetOfShortName(p: string)
    requires 0 < |p| <= 3 && '/' !in p
    ensures AbOffsetSpec(Some(p)) == Max(1, (23 + SumCodes(p)) % 256)
  {
    BasenameOfPlainName(p);
    assert LastThree(p) == p;
  }

  /** Worked value: a sum that is a multiple of 256 is raised to 1. */
  lemma AbOffsetClampsToOne()
    ensures AbOffsetSpec(Some("aDD")) == 1
  {
    var p := "aDD";
    assert SumCodes(p) == 233 by {
      assert SumCodes("D") == 68 by {
        assert "D"[1..] == "";
      }
      assert SumCodes("DD") == 136 by {
        assert "DD"[1..] == "D";
      }
      assert p[1..] == "DD";
    }
    AbOffsetOfShortName(p);
  }

  /** Worked value: a name ending in the separator has an empty base name,
      so the loop stops at once and the offset stays 23. */
  lemma AbOffsetOfDirectoryName()
    ensures AbOffsetSpec(Some("dir/")) == 23
  {
    assert Basename("dir/") == "";
  }
}
