/** Bytes, as the bridge handles them. */
module Bytes {
  type Byte = b: int | 0 <= b < 256

  /** The value of base-256 digits, most significant first. */
  function BigEndian(digits: seq<Byte>): nat {
    if digits == [] then 0 else BigEndian(digits[..|digits| - 1]) * 256 + digits[|digits| - 1]
  }

  lemma NoDigits()
    ensures BigEndian([]) == 0
  {
  }

  function Power256(n: nat): (p: nat)
    ensures p >= 1
  {
    if n == 0 then 1 else 256 * Power256(n - 1)
  }

  lemma PowersOf256()
    ensures Power256(0) == 1 && Power256(1) == 0x100 && Power256(2) == 0x1_0000
    ensures Power256(3) == 0x100_0000 && Power256(4) == 0x1_0000_0000
  {
  }

  lemma {:induction false} BigEndianBound(digits: seq<Byte>)
    ensures BigEndian(digits) < Power256(|digits|)
  {
    if digits != [] {
      BigEndianBound(digits[..|digits| - 1]);
    }
  }

  /** The digits of `n`, most significant first; none for zero. */
  function Digits(n: nat): seq<Byte> {
    if n == 0 then [] else Digits(n / 256) + [n % 256]
  }

  /** They spell `n`, and do not start with a zero. */
  lemma {:induction false} DigitsSpell(n: nat)
    ensures BigEndian(Digits(n)) == n
    ensures Digits(n) != [] ==> Digits(n)[0] != 0
  {
    if n > 0 {
      DigitsSpell(n / 256);
      assert Digits(n)[..|Digits(n)| - 1] == Digits(n / 256);
    }
  }

  /** As few digits as the value allows. */
  lemma {:induction false} DigitsAreFew(n: nat, k: nat)
    ensures |Digits(n)| <= k <==> n < Power256(k)
  {
    if n > 0 && k > 0 {
      DigitsAreFew(n / 256, k - 1);
      assert n / 256 < Power256(k - 1) <==> n < 256 * Power256(k - 1);
    }
  }

  lemma {:induction false} LeadingZeros(zeros: seq<Byte>, digits: seq<Byte>)
    requires forall i :: 0 <= i < |zeros| ==> zeros[i] == 0
    ensures BigEndian(zeros + digits) == BigEndian(digits)
  {
    if digits == [] {
      assert zeros + digits == zeros;
      if zeros != [] {
        assert zeros[..|zeros| - 1] + [] == zeros[..|zeros| - 1];
        LeadingZeros(zeros[..|zeros| - 1], []);
      }
    } else {
      assert (zeros + digits)[..|zeros + digits| - 1] == zeros + digits[..|digits| - 1];
      LeadingZeros(zeros, digits[..|digits| - 1]);
    }
  }

  lemma OneMoreDigit(digits: seq<Byte>, b: Byte)
    ensures BigEndian(digits + [b]) == BigEndian(digits) * 256 + b
  {
  }

  lemma ThreeDigitsAtMost(digits: seq<Byte>)
    requires |digits| <= 3
    ensures BigEndian(digits) < 0x100_0000
  {
    hide BigEndian;
    BigEndianBound(digits);
    PowersOf256();
  }

  lemma FourDigits(digits: seq<Byte>)
    requires |digits| == 4
    ensures BigEndian(digits) == digits[3] + 256 * (digits[2] + 256 * (digits[1] + 256 * (digits[0] as int)))
  {
    var three, two, one := digits[..3], digits[..2], digits[..1];
    assert three[..2] == two && two[..1] == one && one[..0] == [];
    assert BigEndian(one) == digits[0];
    assert BigEndian(two) == BigEndian(one) * 256 + digits[1];
    assert BigEndian(three) == BigEndian(two) * 256 + digits[2];
  }
}
