/** Byte strings and the 256-bit words they denote.

    Storage keys, storage values and balances reach the mapper as big-endian byte
    strings with any number of leading zeros; the mapper compares them after
    stripping those zeros and stores the padded word. */
module Words {
  type byte = x: int | 0 <= x < 256
  type Bytes = seq<byte>
  type Address = Bytes

  const U64_MAX: nat := 0xffff_ffff_ffff_ffff

  datatype Option<+T> = None | Some(value: T)

  datatype Result<+T> = Ok(value: T) | Err(reason: string) {
    predicate IsFailure() { Err? }
    function PropagateFailure<U>(): Result<U>
      requires Err?
    {
      Err(reason)
    }
    function Extract(): T
      requires Ok?
    {
      value
    }
  }

  /** The number a big-endian byte string denotes. */
  function BigEndian(b: Bytes): nat {
    if b == [] then 0 else BigEndian(b[..|b| - 1]) * 256 + b[|b| - 1]
  }

  function StripZeros(b: Bytes): Bytes {
    if b != [] && b[0] == 0 then StripZeros(b[1..]) else b
  }

  /** The loop that skips leading zeros. */
  method SkipZeros(b: Bytes) returns (r: Bytes)
    ensures r == StripZeros(b)
  {
    var i := 0;
    while i < |b| && b[i] == 0
      invariant i <= |b|
      invariant StripZeros(b[i..]) == StripZeros(b)
    {
      assert b[i..][1..] == b[i + 1..];
      i := i + 1;
    }
    return b[i..];
  }

  lemma {:induction false} StripZerosKeepsValue(b: Bytes)
    ensures BigEndian(StripZeros(b)) == BigEndian(b)
  {
    if b != [] && b[0] == 0 {
      StripZerosKeepsValue(b[1..]);
      LeadingZero(b[1..]);
      assert b == [0] + b[1..];
    }
  }

  lemma {:induction false} LeadingZero(b: Bytes)
    ensures BigEndian([0] + b) == BigEndian(b)
  {
    if b == [] {
      assert ([0] + b)[..0] == [];
    } else {
      LeadingZero(b[..|b| - 1]);
      assert ([0] + b)[..|b|] == [0] + b[..|b| - 1];
    }
  }

  /** Without leading zeros the value determines the digits. */
  lemma {:induction false} CanonicalDigits(a: Bytes, b: Bytes)
    requires a == [] || a[0] != 0
    requires b == [] || b[0] != 0
    requires BigEndian(a) == BigEndian(b)
    ensures a == b
    decreases |a|
  {
    if a == [] || b == [] {
      if a != [] { PositiveValue(a); }
      if b != [] { PositiveValue(b); }
    } else {
      var x, y := a[..|a| - 1], b[..|b| - 1];
      assert BigEndian(x) == BigEndian(y) && a[|a| - 1] == b[|b| - 1];
      CanonicalDigits(x, y);
      assert a == x + [a[|a| - 1]] && b == y + [b[|b| - 1]];
    }
  }

  lemma {:induction false} PositiveValue(b: Bytes)
    requires b != [] && b[0] != 0
    ensures BigEndian(b) > 0
  {
    if |b| > 1 { PositiveValue(b[..|b| - 1]); }
  }

  lemma {:induction false} StripZerosCanonical(b: Bytes)
    ensures StripZeros(b) == [] || StripZeros(b)[0] != 0
  {
    if b != [] && b[0] == 0 { StripZerosCanonical(b[1..]); }
  }

  /** The no-op test on stripped digits is exactly equality of the denoted words. */
  lemma SameWord(a: Bytes, b: Bytes)
    ensures StripZeros(a) == StripZeros(b) <==> BigEndian(a) == BigEndian(b)
  {
    StripZerosKeepsValue(a);
    StripZerosKeepsValue(b);
    StripZerosCanonical(a);
    StripZerosCanonical(b);
    if BigEndian(a) == BigEndian(b) { CanonicalDigits(StripZeros(a), StripZeros(b)); }
  }

  // ---------------------------------------------------------------- places

  const TWO_TO_64: nat := 0x1_0000000000000000
  const TWO_TO_256: nat := 0x1_0000000000000000_0000000000000000_0000000000000000_0000000000000000

  /** 256 to the k-th. */
  function Power(k: nat): nat {
    if k == 0 then 1 else 256 * Power(k - 1)
  }

  lemma PowerOf(k: nat)
    ensures Power(k + 4) == 0x1_0000_0000 * Power(k)
  {
    assert Power(k + 4) == 256 * Power(k + 3);
    assert Power(k + 3) == 256 * Power(k + 2);
    assert Power(k + 2) == 256 * Power(k + 1);
  }

  lemma PowerZero()
    ensures Power(0) == 1
  {
  }

  lemma Powers()
    ensures Power(8) == TWO_TO_64 && Power(32) == TWO_TO_256
  {
    hide Power;
    PowerZero();
    PowerOf(0);
    PowerOf(4);
    PowerOf(8);
    PowerOf(12);
    PowerOf(16);
    PowerOf(20);
    PowerOf(24);
    PowerOf(28);
  }

  /** The first byte is the most significant one. */
  lemma {:induction false} FirstByte(b: byte, rest: Bytes)
    ensures BigEndian([b] + rest) == b * Power(|rest|) + BigEndian(rest)
  {
    if rest == [] {
      assert ([b] + rest)[..0] == [];
    } else {
      var front, last := rest[..|rest| - 1], rest[|rest| - 1];
      FirstByte(b, front);
      assert ([b] + rest)[..|rest|] == [b] + front;
      assert b * Power(|rest|) == 256 * (b * Power(|front|));
    }
  }

  lemma {:induction false} ValueBound(b: Bytes)
    ensures BigEndian(b) < Power(|b|)
  {
    if b != [] { ValueBound(b[..|b| - 1]); }
  }

  /** The k low bytes of n, most significant first. */
  function Padded(n: nat, k: nat): (b: Bytes)
    ensures |b| == k
  {
    if k == 0 then [] else Padded(n / 256, k - 1) + [n % 256]
  }

  lemma {:induction false} PaddedValue(n: nat, k: nat)
    requires n < Power(k)
    ensures BigEndian(Padded(n, k)) == n
  {
    if k > 0 {
      PaddedValue(n / 256, k - 1);
      assert Padded(n, k)[..k - 1] == Padded(n / 256, k - 1);
    }
  }

  /** Some number, such as a generated identifier, is larger than all in use. */
  lemma {:induction false} Fresh(used: set<nat>) returns (n: nat)
    ensures forall x :: x in used ==> x < n
  {
    if used == {} {
      n := 0;
    } else {
      var x :| x in used;
      var m := Fresh(used - {x});
      n := if x < m then m else x + 1;
      assert forall y :: y in used ==> y == x || y in used - {x};
    }
  }
}
