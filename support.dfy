// Shared vocabulary of the PyDPainter model: optional values and results,
// bytes and palette colours, Python's integer division, and the bit
// arithmetic that the planar image code relies on.

module Support {

  datatype Option<T> = None | Some(value: T)

  datatype Result<T, E> = Ok(value: T) | Err(error: E)

  /** An unsigned 8-bit value, as stored in a bytes object or a uint8 array. */
  type byte = x: int | 0 <= x < 256

  /** One palette entry (r, g, b). */
  datatype Color = Color(r: byte, g: byte, b: byte)

  function Min(a: int, b: int): int { if a <= b then a else b }
  function Max(a: int, b: int): int { if a <= b then b else a }
  function Abs(a: int): nat { if a < 0 then -a else a }

  /** The integers from lo to hi. */
  function Interval(lo: int, hi: int): (s: set<int>)
    ensures forall z :: z in s <==> lo <= z <= hi
    decreases hi - lo
  {
    if lo > hi then {} else {lo} + Interval(lo + 1, hi)
  }

  /** Growing an interval at its top end adds one integer. */
  lemma {:induction false} IntervalSnoc(lo: int, hi: int)
    ensures Interval(lo, hi + 1) == Interval(lo, hi) + (if lo <= hi + 1 then {hi + 1} else {})
  {
  }

  /** Some element of a non-empty set, for loops that visit a set's
    * elements in no particular order. */
  method PickFrom<T>(s: set<T>) returns (x: T)
    requires s != {}
    ensures x in s
  {
    x :| x in s;
  }

  /** Python's `a // b`: the quotient rounded toward negative infinity. */
  function FloorDiv(a: int, b: int): (q: int)
    requires b != 0
    ensures b > 0 ==> q * b <= a < q * b + b
    ensures b < 0 ==> q * b + b < a <= q * b
  {
    if b > 0 then a / b else (-a) / (-b)
  }

  /** Python's `a % b`: the remainder has the sign of the divisor. */
  function FloorMod(a: int, b: int): (m: int)
    requires b != 0
    ensures b > 0 ==> 0 <= m < b
    ensures b < 0 ==> b < m <= 0
    ensures a == FloorDiv(a, b) * b + m
  {
    a - FloorDiv(a, b) * b
  }

  /** For a positive divisor Python's `//` and `%` agree with Dafny's. */
  lemma {:induction false} FloorDivPositive(a: int, b: int)
    requires b > 0
    ensures FloorDiv(a, b) == a / b && FloorMod(a, b) == a % b
  {
  }

  function Pow2(n: nat): (r: nat)
    ensures r >= 1
  {
    if n == 0 then 1 else 2 * Pow2(n - 1)
  }

  /** Bit i of a non-negative integer (Python's `(v >> i) & 1`). */
  function Bit(v: nat, i: nat): (b: nat)
    ensures b < 2
  {
    (v / Pow2(i)) % 2
  }

  /** The value of a little-endian bit string: bits[0] is the least significant bit. */
  function BitsValue(bits: seq<nat>): nat
  {
    if bits == [] then 0 else bits[0] % 2 + 2 * BitsValue(bits[1..])
  }

  predicate IsBits(bits: seq<nat>)
  {
    forall t :: 0 <= t < |bits| ==> bits[t] < 2
  }

  /** The low n bits of v, least significant first. */
  function BitsOf(v: nat, n: nat): (r: seq<nat>)
    ensures |r| == n && IsBits(r)
  {
    seq(n, t requires 0 <= t < n => Bit(v, t))
  }

  lemma {:induction false} DivDiv(v: nat, d: nat)
    requires d > 0
    ensures v / (2 * d) == (v / 2) / d
    ensures v % (2 * d) == v % 2 + 2 * ((v / 2) % d)
  {
    var q := (v / 2) / d;
    var r := (v / 2) % d;
    assert v / 2 == q * d + r;
    assert v == (2 * d) * q + (2 * r + v % 2);
    assert 0 <= 2 * r + v % 2 < 2 * d;
    DivModUnique(v, 2 * d, q, 2 * r + v % 2);
  }

  lemma {:induction false} DivModUnique(v: int, d: int, q: int, r: int)
    requires d > 0 && v == d * q + r && 0 <= r < d
    ensures v / d == q && v % d == r
  {
    var q' := v / d;
    var r' := v % d;
    assert d * (q - q') == r' - r;
    if q' != q {
      MulAbs(d, q - q');
    }
  }

  lemma {:induction false} MulAbs(d: int, k: int)
    requires d > 0 && k != 0
    ensures d * k >= d || d * k <= -d
  {
  }

  /** Shifting right by one more bit is shifting the halved value. */
  lemma {:induction false} BitSucc(v: nat, t: nat)
    ensures Bit(v, t + 1) == Bit(v / 2, t)
  {
    DivDiv(v, Pow2(t));
    assert Pow2(t + 1) == 2 * Pow2(t);
  }

  /** Every bit string read back bit by bit gives its own bits. */
  lemma {:induction false} BitOfBitsValue(bits: seq<nat>, t: nat)
    requires IsBits(bits) && t < |bits|
    ensures Bit(BitsValue(bits), t) == bits[t]
  {
    var v := BitsValue(bits);
    assert v == bits[0] + 2 * BitsValue(bits[1..]);
    if t == 0 {
    } else {
      BitSucc(v, t - 1);
      assert v / 2 == BitsValue(bits[1..]);
      BitOfBitsValue(bits[1..], t - 1);
    }
  }

  /** A bit string of length n denotes a value below 2^n. */
  lemma {:induction false} BitsValueBound(bits: seq<nat>)
    ensures BitsValue(bits) < Pow2(|bits|)
  {
    if bits != [] {
      BitsValueBound(bits[1..]);
    }
  }

  lemma {:induction false} Pow2Add(a: nat, b: nat)
    ensures Pow2(a + b) == Pow2(a) * Pow2(b)
    decreases a
  {
    if a > 0 {
      Pow2Add(a - 1, b);
      assert Pow2(a + b) == 2 * Pow2(a - 1 + b);
    }
  }

  /** Appending a most significant bit adds it at weight 2^|bits|. */
  lemma {:induction false} BitsValueSnoc(bits: seq<nat>, b: nat)
    requires b < 2
    ensures BitsValue(bits + [b]) == BitsValue(bits) + b * Pow2(|bits|)
    decreases |bits|
  {
    if bits == [] {
      assert [] + [b] == [b];
      assert [b][1..] == [];
    } else {
      assert (bits + [b])[1..] == bits[1..] + [b];
      BitsValueSnoc(bits[1..], b);
      assert Pow2(|bits|) == 2 * Pow2(|bits| - 1);
    }
  }

  /** Dropping the lowest bit of v's low n bits leaves the low n - 1 bits
    * of v / 2. */
  lemma {:induction false} BitsOfTail(v: nat, n: nat)
    requires n > 0
    ensures BitsOf(v, n)[1..] == BitsOf(v / 2, n - 1)
  {
    var bs := BitsOf(v, n);
    forall t | 0 <= t < n - 1
      ensures bs[1..][t] == BitsOf(v / 2, n - 1)[t]
    {
      BitSucc(v, t);
    }
  }

  /** The low n bits of v spell v modulo 2^n. */
  lemma {:induction false} BitsOfValue(v: nat, n: nat)
    ensures BitsValue(BitsOf(v, n)) == v % Pow2(n)
  {
    if n > 0 {
      var bs := BitsOf(v, n);
      var p := Pow2(n - 1);
      assert BitsValue(bs[1..]) == (v / 2) % p by {
        BitsOfTail(v, n);
        BitsOfValue(v / 2, n - 1);
      }
      assert bs[0] % 2 == v % 2 by {
        assert Pow2(0) == 1;
      }
      assert v % Pow2(n) == v % 2 + 2 * ((v / 2) % p) by {
        DivDiv(v, p);
        assert Pow2(n) == 2 * p;
      }
    }
  }
}
