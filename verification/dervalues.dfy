/**
 * The values inside DER nodes: object identifiers and integers against sections
 * 8.19 and 8.3 of ITU-T X.690, and the padding of section 6.3 of RFC 5652.
 */
module DerValues {
  import opened Wrappers
  import opened Bytes

  datatype ValueError = EmptyOid | IntegerTooLarge | NotWholeBlocks | InvalidLengthByte | InconsistentBytes

  // --------------------------------------------------------- object identifiers

  /** The arcs completed by these octets when `pending` has been gathered already. */
  function Arcs(octets: seq<Byte>, pending: nat): seq<nat> {
    if octets == [] then []
    else
      var sum := pending * 128 + octets[0] % 128;
      if octets[0] < 128 then [sum] + Arcs(octets[1..], 0) else Arcs(octets[1..], sum)
  }

  function Oid(value: seq<Byte>): Result<seq<nat>, ValueError> {
    if value == [] then Err(EmptyOid) else Ok([value[0] / 40, value[0] % 40] + Arcs(value[1..], 0))
  }

  method DecodeOid(value: seq<Byte>) returns (r: Result<seq<nat>, ValueError>)
    ensures r == Oid(value)
  {
    if |value| == 0 {
      return Err(EmptyOid);
    }
    var parts: seq<nat> := [value[0] / 40, value[0] % 40];
    var accumulator: nat := 0;
    var i := 1;
    while i < |value|
      invariant 1 <= i <= |value|
      invariant parts + Arcs(value[i..], accumulator) == Oid(value).value
    {
      assert value[i..][1..] == value[i + 1..];
      accumulator := accumulator * 128 + value[i] % 128;
      if value[i] < 128 {
        assert parts + ([accumulator] + Arcs(value[i + 1..], 0)) == parts + [accumulator] + Arcs(value[i + 1..], 0);
        parts := parts + [accumulator];
        accumulator := 0;
      }
      i := i + 1;
    }
    assert parts + [] == parts;
    r := Ok(parts);
  }

  /** Base-128 octets that announce a further one. */
  function Continued(n: nat): seq<Byte> {
    if n == 0 then [] else Continued(n / 128) + [128 + n % 128]
  }

  /** Section 8.19.2: a subidentifier. */
  function EncodeArc(n: nat): seq<Byte> {
    Continued(n / 128) + [n % 128]
  }

  function EncodeArcs(arcs: seq<nat>): seq<Byte> {
    if arcs == [] then [] else EncodeArc(arcs[0]) + EncodeArcs(arcs[1..])
  }

  /** Section 8.19.4: the first two arcs share a subidentifier. */
  function EncodeOid(first: nat, second: nat, later: seq<nat>): seq<Byte> {
    EncodeArc(first * 40 + second) + EncodeArcs(later)
  }

  /** The root arcs are 0, 1 and 2, and only the last has more than 40 below it. */
  predicate IsOid(first: nat, second: nat) {
    first <= 2 && (first < 2 ==> second < 40)
  }

  lemma {:induction false} ArcsOfContinued(n: nat, rest: seq<Byte>)
    ensures Arcs(Continued(n) + rest, 0) == Arcs(rest, n)
  {
    if n == 0 {
      assert Continued(n) + rest == rest;
    } else {
      var last: Byte := 128 + n % 128;
      ArcsOfContinued(n / 128, [last] + rest);
      assert Continued(n) + rest == Continued(n / 128) + ([last] + rest);
      assert ([last] + rest)[1..] == rest;
    }
  }

  lemma {:induction false} ArcsInvertEncodeArcs(arcs: seq<nat>)
    ensures Arcs(EncodeArcs(arcs), 0) == arcs
  {
    if arcs != [] {
      var n, rest := arcs[0], EncodeArcs(arcs[1..]);
      var tail: seq<Byte> := [n % 128] + rest;
      assert EncodeArcs(arcs) == Continued(n / 128) + tail;
      ArcsOfContinued(n / 128, tail);
      assert tail[1..] == rest;
      ArcsInvertEncodeArcs(arcs[1..]);
    }
  }

  lemma {:induction false} ContinuedStartsHigh(n: nat)
    requires n > 0
    ensures Continued(n) != [] && Continued(n)[0] >= 128
  {
    if n >= 128 {
      ContinuedStartsHigh(n / 128);
    }
  }

  /** Decoding gives the identifier back exactly when its second arc is below 40. */
  lemma OidRoundTripExactly(first: nat, second: nat, later: seq<nat>)
    requires IsOid(first, second)
    ensures Oid(EncodeOid(first, second, later)) == Ok([first, second] + later) <==> second < 40
  {
    var n := first * 40 + second;
    var value := EncodeOid(first, second, later);
    if second < 40 {
      assert value == [n] + EncodeArcs(later);
      assert value[1..] == EncodeArcs(later);
      ArcsInvertEncodeArcs(later);
    } else {
      if n >= 128 {
        ContinuedStartsHigh(n / 128);
      }
      assert value[0] >= 120;
      assert Oid(value).value[0] >= 3 && ([first, second] + later)[0] == 2;
    }
  }

  // ------------------------------------------------------------------ integers

  method DecodeInteger(value: seq<Byte>) returns (r: Result<nat, ValueError>)
    ensures r == Integer(value)
  {
    if |value| > 6 {
      return Err(IntegerTooLarge);
    }
    var result: nat := 0;
    NoDigits();
    for i := 0 to |value|
      invariant result == BigEndian(value[..i])
    {
      OneMoreDigit(value[..i], value[i]);
      assert value[..i] + [value[i]] == value[..i + 1];
      result := result * 256 + value[i];
    }
    assert value[..|value|] == value;
    r := Ok(result);
  }

  function Integer(value: seq<Byte>): Result<nat, ValueError> {
    if |value| > 6 then Err(IntegerTooLarge) else Ok(BigEndian(value))
  }

  /** Section 8.3: two's complement in the fewest octets, for a value that is not negative. */
  function EncodeInteger(n: nat): seq<Byte> {
    if n == 0 || Digits(n)[0] >= 128 then [0] + Digits(n) else Digits(n)
  }

  lemma {:induction false} LeadingDigitIsLow(n: nat, k: nat)
    requires |Digits(n)| == k + 1
    ensures Digits(n)[0] < 128 <==> n < 128 * Power256(k)
  {
    if k > 0 {
      LeadingDigitIsLow(n / 256, k - 1);
      var x := 128 * Power256(k - 1);
      assert n / 256 < x <==> n < 256 * x;
    }
  }

  const LARGEST_INTEGER := 0x8000_0000_0000

  /** Decoding gives the number back exactly when its encoding has at most six octets: below 2^47. */
  lemma IntegerRoundTripExactly(n: nat)
    ensures Integer(EncodeInteger(n)) == Ok(n) <==> n < LARGEST_INTEGER
  {
    PowersOf256();
    assert Power256(5) == 0x100_0000_0000 && Power256(6) == 0x1_0000_0000_0000;
    DigitsSpell(n);
    LeadingZeros([0], Digits(n));
    DigitsAreFew(n, 5);
    DigitsAreFew(n, 6);
    if |Digits(n)| == 6 {
      LeadingDigitIsLow(n, 5);
    }
  }

  // ------------------------------------------------------------------- padding

  function Repeated(b: Byte, n: nat): (s: seq<Byte>)
    ensures |s| == n && forall i :: 0 <= i < n ==> s[i] == b
  {
    seq(n, i => b)
  }

  /** Section 6.3: `size - |m| mod size` octets, each of that value, follow the message. */
  ghost predicate IsPadded(buffer: seq<Byte>, m: seq<Byte>, size: nat) {
    size > 0 &&
    var p := size - |m| % size;
    p < 256 && buffer == m + Repeated(p, p)
  }

  /** What `unpad` looks at. */
  predicate EndsInPadding(buffer: seq<Byte>, size: nat) {
    && size > 0 && buffer != [] && |buffer| % size == 0
    && var p := buffer[|buffer| - 1];
       1 <= p <= size && p <= |buffer| && forall j :: |buffer| - p <= j < |buffer| ==> buffer[j] == p
  }

  /** `unpad` undoes the padding and refuses everything else. */
  method Unpad(buffer: seq<Byte>, size: nat) returns (r: Result<seq<Byte>, ValueError>)
    ensures r.Ok? ==> IsPadded(buffer, r.value, size)
    ensures r.Err? ==> forall m :: !IsPadded(buffer, m, size)
    ensures r == Err(NotWholeBlocks) <==> buffer == [] || size == 0 || |buffer| % size != 0
  {
    hide IsPadded;
    PaddedExactly(buffer, size);
    if |buffer| == 0 || size == 0 || |buffer| % size != 0 {
      return Err(NotWholeBlocks);
    }
    var padding: int := buffer[|buffer| - 1];
    if padding < 1 || padding > size || padding > |buffer| {
      return Err(InvalidLengthByte);
    }
    for i := |buffer| - padding to |buffer|
      invariant forall j :: |buffer| - padding <= j < i ==> buffer[j] == padding
    {
      if buffer[i] != padding {
        return Err(InconsistentBytes);
      }
    }
    r := Ok(buffer[..|buffer| - padding]);
  }

  lemma PaddedExactly(buffer: seq<Byte>, size: nat)
    ensures EndsInPadding(buffer, size) ==> IsPadded(buffer, buffer[..|buffer| - buffer[|buffer| - 1]], size)
    ensures !EndsInPadding(buffer, size) ==> forall m :: !IsPadded(buffer, m, size)
  {
    if EndsInPadding(buffer, size) {
      var p := buffer[|buffer| - 1];
      PaddingFromLength(|buffer|, p, size);
      assert buffer == buffer[..|buffer| - p] + Repeated(p, p);
    }
    forall m | IsPadded(buffer, m, size) ensures EndsInPadding(buffer, size) {
      PaddedEnds(buffer, m, size);
    }
  }

  lemma PaddedEnds(buffer: seq<Byte>, m: seq<Byte>, size: nat)
    requires IsPadded(buffer, m, size)
    ensures EndsInPadding(buffer, size) && m == buffer[..|buffer| - buffer[|buffer| - 1]]
  {
    PaddedFillsBlocks(|m|, size);
  }

  /** No buffer pads two messages, so what `unpad` returns is the message that was padded. */
  lemma PaddingIsUnambiguous(buffer: seq<Byte>, first: seq<Byte>, second: seq<Byte>, size: nat)
    requires IsPadded(buffer, first, size) && IsPadded(buffer, second, size)
    ensures first == second
  {
    PaddedEnds(buffer, first, size);
    PaddedEnds(buffer, second, size);
  }

  lemma Multiples(d: int, k: int)
    requires k > 0
    ensures d >= 1 ==> d * k >= k
    ensures d <= -1 ==> d * k <= -k
  {
  }

  lemma Quotient(x: nat, k: nat, q: int, r: nat)
    requires k > 0 && x == q * k + r && r < k
    ensures x % k == r
  {
    var d := q - x / k;
    assert d * k == x % k - r by { assert x == x / k * k + x % k; }
    Multiples(d, k);
  }

  lemma PaddedFillsBlocks(n: nat, size: nat)
    requires size > 0
    ensures 1 <= size - n % size <= size && (n + (size - n % size)) % size == 0
  {
    var p: nat := size - n % size;
    assert n == n / size * size + n % size;
    assert (n / size + 1) * size == n / size * size + size;
    Quotient(n + p, size, n / size + 1, 0);
  }

  lemma PaddingFromLength(total: nat, p: nat, size: nat)
    requires 1 <= p <= size && p <= total && total % size == 0
    ensures size - (total - p) % size == p
  {
    var q := total / size;
    assert total == q * size;
    assert (q - 1) * size == q * size - size;
    if p == size {
      Quotient(total - p, size, q - 1, 0);
    } else {
      Quotient(total - p, size, q - 1, size - p);
    }
  }
}
