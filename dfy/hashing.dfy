/**
 * The deterministic selector: the 32-bit string hash `hashString` and the
 * list indexer `pickFrom` built on it, plus the hexadecimal rendering used
 * for the prompt fingerprint.
 *
 * A JavaScript string is modelled as a sequence of `char`, one `char` per
 * UTF-16 code unit, so `charCodeAt(i)` is `s[i] as int`.
 */
module Hashing {
  import opened Wrappers

  const TWO_31: int := 0x8000_0000
  const TWO_32: int := 0x1_0000_0000

  predicate IsInt32(x: int) {
    -TWO_31 <= x < TWO_31
  }

  /** JavaScript's ToInt32 (what `x | 0` computes): the signed 32-bit integer congruent to x modulo 2^32. */
  function Wrap32(x: int): (r: int)
    ensures IsInt32(r)
  {
    (x + TWO_31) % TWO_32 - TWO_31
  }

  lemma Wrap32Identity(x: int)
    requires IsInt32(x)
    ensures Wrap32(x) == x
  {
  }

  /** Adding a multiple of 2^32 does not change the wrapped value. */
  lemma Wrap32Periodic(x: int, m: int)
    ensures Wrap32(x + m * TWO_32) == Wrap32(x)
  {
    var y := x + TWO_31;
    var q, r := y / TWO_32, y % TWO_32;
    assert y == q * TWO_32 + r;
    assert y + m * TWO_32 == (q + m) * TWO_32 + r;
    ModOfDecomposition(y + m * TWO_32, q + m, r);
  }

  lemma ModOfDecomposition(y: int, q: int, r: int)
    requires 0 <= r < TWO_32 && y == q * TWO_32 + r
    ensures y % TWO_32 == r
  {
  }

  /** Wrapping an operand before a multiply-and-add gives the same 32-bit result as wrapping after it. */
  lemma {:induction false} Wrap32Absorbs(a: int, k: int, b: int)
    ensures Wrap32(k * Wrap32(a) + b) == Wrap32(k * a + b)
  {
    var q := (a + TWO_31) / TWO_32;
    assert Wrap32(a) == a - q * TWO_32;
    calc {
      k * Wrap32(a) + b;
      k * (a - q * TWO_32) + b;
      { assert k * (a - q * TWO_32) == k * a - (k * q) * TWO_32; }
      (k * a + b) + (-(k * q)) * TWO_32;
    }
    Wrap32Periodic(k * a + b, -(k * q));
  }

  /** `hash << 5` on an accumulator that is already a 32-bit integer. */
  function ShiftLeft5(h: int): (r: int)
    ensures IsInt32(r)
  {
    Wrap32(h * 32)
  }

  /** One iteration of the loop in `hashString`: `hash = (hash << 5) - hash + c; hash |= 0`. */
  function Step(h: int, c: char): (r: int)
    ensures IsInt32(r)
  {
    Wrap32(ShiftLeft5(h) - h + c as int)
  }

  /** The step multiplies by 31 and adds the code unit, modulo 2^32. */
  lemma StepIsMultiplyBy31(h: int, c: char)
    ensures Step(h, c) == Wrap32(31 * h + c as int)
  {
    Wrap32Absorbs(h * 32, 1, c as int - h);
  }

  /** The accumulator after the loop has consumed all of `s`. */
  function Accumulator(s: string): (r: int)
    ensures IsInt32(r)
  {
    if s == [] then 0 else Step(Accumulator(s[..|s| - 1]), s[|s| - 1])
  }

  /** The unwrapped polynomial  sum of s[i] * 31^(|s|-1-i), the reference definition of the hash. */
  function Polynomial(s: string): int
  {
    if s == [] then 0 else 31 * Polynomial(s[..|s| - 1]) + s[|s| - 1] as int
  }

  /** Wrapping at every step, as the loop does, equals wrapping the polynomial once. */
  lemma {:induction false} AccumulatorIsWrappedPolynomial(s: string)
    ensures Accumulator(s) == Wrap32(Polynomial(s))
  {
    if s != [] {
      var p, c := s[..|s| - 1], s[|s| - 1];
      AccumulatorIsWrappedPolynomial(p);
      StepIsMultiplyBy31(Accumulator(p), c);
      Wrap32Absorbs(Polynomial(p), 31, c as int);
    }
  }

  /** `hashString`: the absolute value of the accumulator; `Math.abs(-2^31)` is 2^31, which is not wrapped. */
  function Hash(s: string): (r: nat)
    ensures r <= TWO_31
    ensures r == Accumulator(s) || r == -Accumulator(s)
  {
    var a := Accumulator(s);
    if a < 0 then -a else a
  }

  lemma HashOfEmpty()
    ensures Hash("") == 0
  {
  }

  /** The loop of `hashString`, as written. */
  method HashString(source: string) returns (h: nat)
    ensures h == Hash(source)
    ensures h <= TWO_31
  {
    var hash := 0;
    for i := 0 to |source|
      invariant hash == Accumulator(source[..i])
    {
      assert source[..i + 1][..i] == source[..i];
      hash := ShiftLeft5(hash) - hash + source[i] as int;
      hash := Wrap32(hash);
    }
    assert source[..|source|] == source;
    h := if hash < 0 then -hash else hash;
  }

  /** `pickFrom`: undefined exactly for an empty list, otherwise the element at `hash(seed) % length`. */
  function PickFrom<T>(items: seq<T>, seed: string): (r: Option<T>)
    ensures r.None? <==> |items| == 0
    ensures r.Some? ==> r.value in items
  {
    if |items| == 0 then None else Some(items[Hash(seed) % |items|])
  }

  /** `pickFrom(items, seed) ?? fallback`; also the value a template literal gets from `${pickFrom(...)}`,
      with the fallback "undefined". */
  function PickOr<T>(items: seq<T>, seed: string, fallback: T): (r: T)
    ensures |items| > 0 ==> r in items
    ensures |items| == 0 ==> r == fallback
  {
    PickFrom(items, seed).GetOr(fallback)
  }

  /** The same seed always selects the same position, whatever list of that length it indexes. */
  lemma {:induction false} PickFromDependsOnlyOnSeed<T, U>(xs: seq<T>, ys: seq<U>, seed: string)
    requires |xs| == |ys| > 0
    ensures exists k :: 0 <= k < |xs| && PickFrom(xs, seed) == Some(xs[k]) && PickFrom(ys, seed) == Some(ys[k])
  {
    var k := Hash(seed) % |xs|;
    assert PickFrom(xs, seed) == Some(xs[k]) && PickFrom(ys, seed) == Some(ys[k]);
  }

  /** The lower-case hexadecimal digits `toString(16)` writes. */
  predicate IsHexDigit(c: char)
  {
    '0' <= c <= '9' || 'a' <= c <= 'f'
  }

  /** The value a hexadecimal digit stands for. */
  function HexDigitValue(c: char): int
  {
    if '0' <= c <= '9' then c as int - '0' as int else c as int - 'a' as int + 10
  }

  /** The number a string of hexadecimal digits denotes, most significant digit first. */
  function HexValue(s: string): int
  {
    if s == [] then 0 else 16 * HexValue(s[..|s| - 1]) + HexDigitValue(s[|s| - 1])
  }

  function HexDigit(d: int): (c: char)
    requires 0 <= d < 16
    ensures IsHexDigit(c) && HexDigitValue(c) == d
  {
    if d < 10 then ('0' as int + d) as char else ('a' as int + d - 10) as char
  }

  /** `n.toString(16)`: lower-case hexadecimal digits, without leading zeros. */
  function ToHex(n: nat): (r: string)
    ensures |r| >= 1
    ensures forall k :: 0 <= k < |r| ==> IsHexDigit(r[k])
    ensures r[0] == '0' <==> n == 0
  {
    if n < 16 then [HexDigit(n)] else ToHex(n / 16) + [HexDigit(n % 16)]
  }

  /** The digits of `ToHex(n)` denote n. */
  lemma {:induction false} ToHexRoundTrip(n: nat)
    ensures HexValue(ToHex(n)) == n
  {
    if n >= 16 {
      ToHexRoundTrip(n / 16);
      var r := ToHex(n);
      assert r[..|r| - 1] == ToHex(n / 16);
    }
  }

  function Pow16(k: nat): nat
  {
    if k == 0 then 1 else 16 * Pow16(k - 1)
  }

  lemma {:induction false} ToHexLength(n: nat, k: nat)
    requires 1 <= k && n < Pow16(k)
    ensures |ToHex(n)| <= k
  {
    if n >= 16 {
      assert k >= 2;
      ToHexLength(n / 16, k - 1);
    }
  }

  /** A hash is at most 2^31, so its hexadecimal form has at most 8 digits. */
  lemma HashHexLength(s: string)
    ensures |ToHex(Hash(s))| <= 8
  {
    assert Pow16(8) == TWO_32;
    ToHexLength(Hash(s), 8);
  }
}
