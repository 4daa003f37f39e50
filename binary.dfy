/**
 * Binary numerals as the loader reads them (Python's `int(token, 2)`)
 * and writes them back (the digits of `format(value, '#010b')`).
 * Only tokens made of the digits 0 and 1 are modelled.
 */
module Binary {
  import opened Results

  predicate IsBit(c: char) {
    c == '0' || c == '1'
  }

  predicate AllBits(t: string) {
    forall i :: 0 <= i < |t| ==> IsBit(t[i])
  }

  function Pow2(n: nat): nat {
    if n == 0 then 1 else 2 * Pow2(n - 1)
  }

  /** The number a string of binary digits denotes, most significant digit first. */
  function Value(t: string): (v: nat)
    requires AllBits(t)
    ensures v < Pow2(|t|)
    decreases |t|
  {
    if t == [] then 0
    else 2 * Value(t[..|t| - 1]) + (if t[|t| - 1] == '1' then 1 else 0)
  }

  /**
   * `int(t, 2)`: the value of a non-empty string of binary digits, and
   * None (Python's ValueError) for every other string.
   */
  function ParseBinary(t: string): (r: Option<nat>)
    ensures r.Some? <==> t != [] && AllBits(t)
    ensures r.Some? ==> r.value < Pow2(|t|)
  {
    if t != [] && AllBits(t) then Some(Value(t)) else None
  }

  function Digit(b: nat): char
    requires b < 2
  {
    if b == 1 then '1' else '0'
  }

  /**
   * The shortest binary numeral of n, as `format(n, 'b')` writes it: it
   * denotes n and has no leading zero unless it is "0".
   */
  function Bits(n: nat): (t: string)
    ensures t != [] && AllBits(t) && Value(t) == n
    ensures t[0] == '1' || t == "0"
    decreases n
  {
    if n < 2 then [Digit(n)]
    else
      var b := Bits(n / 2);
      assert (b + [Digit(n % 2)])[..|b|] == b;
      b + [Digit(n % 2)]
  }

  function Zeros(k: nat): (z: string)
    ensures |z| == k && AllBits(z)
  {
    seq(k, _ => '0')
  }

  /**
   * The digits of `format(n, '#010b')` after its `0b` prefix: the binary
   * numeral of n, left-padded with zeros to at least `width` digits.
   */
  function Padded(n: nat, width: nat): (t: string)
    ensures AllBits(t) && |t| == (if |Bits(n)| >= width then |Bits(n)| else width)
    ensures t[|t| - |Bits(n)|..] == Bits(n)
    ensures forall i :: 0 <= i < |t| - |Bits(n)| ==> t[i] == '0'
  {
    var b := Bits(n);
    if |b| >= width then b else Zeros(width - |b|) + b
  }

  lemma {:induction false} ValueOfZeros(k: nat)
    ensures Value(Zeros(k)) == 0
  {
    if k > 0 {
      assert Zeros(k)[..k - 1] == Zeros(k - 1);
      ValueOfZeros(k - 1);
    }
  }

  /** Leading zeros do not change the value of a numeral. */
  lemma {:induction false} LeadingZeros(k: nat, t: string)
    requires AllBits(t)
    ensures AllBits(Zeros(k) + t) && Value(Zeros(k) + t) == Value(t)
    decreases |t|
  {
    var z := Zeros(k) + t;
    if t == [] {
      assert z == Zeros(k);
      ValueOfZeros(k);
    } else {
      assert z[..|z| - 1] == Zeros(k) + t[..|t| - 1];
      LeadingZeros(k, t[..|t| - 1]);
    }
  }

  /** Reading back what was written: `int(format(n, 'b'), 2) == n`. */
  lemma ParseBits(n: nat)
    ensures ParseBinary(Bits(n)) == Some(n)
  {
  }

  /**
   * Reading back a padded cell numeral gives the number that was
   * formatted, whatever the width; this is why the cells can be modelled
   * as plain integers.
   */
  lemma ParsePadded(n: nat, width: nat)
    ensures ParseBinary(Padded(n, width)) == Some(n)
  {
    var b := Bits(n);
    if |b| < width {
      LeadingZeros(width - |b|, b);
    }
  }
}
