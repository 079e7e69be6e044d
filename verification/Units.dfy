/** Time units, the clocks the service reads, and the integer conversions of the C++ code.
    Time points are nanoseconds and durations handed over the API are milliseconds, as in
    std::chrono; both are unbounded integers here except where a conversion wraps. */
module Units {

  const NS_PER_MS: int := 1_000_000
  const TIME_POINT_MIN: int := -0x8000_0000_0000_0000
  const TIME_POINT_MAX: int := 0x7FFF_FFFF_FFFF_FFFF
  const TWO_TO_THE_32: int := 0x1_0000_0000
  const TWO_TO_THE_63: int := 0x8000_0000_0000_0000
  const TWO_TO_THE_64: int := 0x1_0000_0000_0000_0000

  type uint32 = x: int | 0 <= x < TWO_TO_THE_32
  type uint64 = x: int | 0 <= x < TWO_TO_THE_64

  datatype Option<+T> = None | Some(value: T)

  /** One reading of CLOCK_BOOTTIME and of the wall clock, both in nanoseconds. */
  datatype Clock = Clock(boot: nat, wall: int)

  /** C++ integer division: truncates toward zero. */
  function TruncDiv(a: int, b: int): int
    requires b > 0
  {
    if a >= 0 then a / b else -((-a) / b)
  }

  /** duration_cast<milliseconds> of a nanosecond count. */
  function ToMillis(ns: int): int {
    TruncDiv(ns, NS_PER_MS)
  }

  /** The int64 value with the same 64 bits: how a uint64 count becomes a duration. */
  function AsSigned64(u: uint64): (s: int)
    ensures TIME_POINT_MIN <= s <= TIME_POINT_MAX
    ensures s == u || s == u - TWO_TO_THE_64
  {
    if u < TWO_TO_THE_63 then u else u - TWO_TO_THE_64
  }

  /** Reduction modulo 2^64: the value an unsigned 64-bit operation leaves. */
  function Wrap64(x: int): uint64 {
    x % TWO_TO_THE_64
  }

  function Max(a: int, b: int): int {
    if a < b then b else a
  }

  function Min(a: int, b: int): int {
    if b < a then b else a
  }

  /** A value that fits int64 survives any number of wrapped 64-bit operations. */
  lemma WrapAgrees(x: int, y: int, k: int)
    requires y == x + k * TWO_TO_THE_64
    requires TIME_POINT_MIN <= x <= TIME_POINT_MAX
    ensures AsSigned64(Wrap64(y)) == x
  {
    if x >= 0 {
      assert Wrap64(y) == x;
    } else {
      assert y == (x + TWO_TO_THE_64) + (k - 1) * TWO_TO_THE_64;
      assert Wrap64(y) == x + TWO_TO_THE_64;
    }
  }

  /** Multiplication by a positive factor keeps and reflects order. */
  lemma MulOrder(x: int, y: int, d: int)
    requires d > 0
    ensures x <= y <==> x * d <= y * d
  {
    if x <= y {
      assert (y - x) * d >= 0;
    } else {
      assert (x - y) * d > 0;
    }
  }

  /** The quotient is the only multiple count below. */
  lemma QuotientIs(a: int, d: int, q: int)
    requires d > 0
    requires q * d <= a < (q + 1) * d
    ensures a / d == q
  {
    MulOrder(q + 1, a / d, d);
    MulOrder(a / d + 1, q, d);
  }

  /** Truncating twice is truncating once: the nanosecond-to-millisecond cast in front of a
      division by a millisecond interval loses nothing. */
  lemma TruncTwice(a: int, b: int, c: int)
    requires a >= 0 && b > 0 && c > 0
    ensures b * c > 0
    ensures TruncDiv(TruncDiv(a, b), c) == a / (b * c)
  {
    var q := a / b;
    DivBounds(a, b);
    DivBounds(q, c);
    MulOrder(1, c, b);
    NestedBounds(a, b, c, q, q / c);
    QuotientIs(a, b * c, q / c);
  }

  lemma DivBounds(a: int, d: int)
    requires d > 0
    ensures a / d * d <= a < (a / d + 1) * d
  {}

  lemma NestedBounds(a: int, b: int, c: int, q: int, r: int)
    requires b > 0 && c > 0 && q * b <= a < (q + 1) * b && r * c <= q < (r + 1) * c
    ensures r * (b * c) <= a < (r + 1) * (b * c)
  {
    MulOrder(r * c, q, b);
    MulOrder(q + 1, (r + 1) * c, b);
    Regroup(r, b, c);
    Regroup(r + 1, b, c);
  }

  lemma Regroup(r: int, b: int, c: int)
    ensures r * (b * c) == (r * c) * b
  {}

  /** std::upper_bound over `keys[first .. first + len]`: the halving search of the C++
      library, total also on a range that is not partitioned. */
  function UpperBound(keys: seq<int>, key: int, first: nat, len: nat): (p: nat)
    requires first + len <= |keys|
    ensures first <= p <= first + len
    decreases len
  {
    if len == 0 then first
    else
      var half := len / 2;
      var mid := first + half;
      if key < keys[mid] then UpperBound(keys, key, first, half)
      else UpperBound(keys, key, mid + 1, len - half - 1)
  }

  ghost predicate Ascending(keys: seq<int>) {
    forall i, j :: 0 <= i < j < |keys| ==> keys[i] <= keys[j]
  }

  /** On an ascending range the search splits it: nothing greater before, only greater after. */
  lemma {:induction false} UpperBoundSplits(keys: seq<int>, key: int, first: nat, len: nat)
    requires first + len <= |keys| && Ascending(keys)
    requires forall i :: 0 <= i < first ==> keys[i] <= key
    requires forall i :: first + len <= i < |keys| ==> key < keys[i]
    ensures var p := UpperBound(keys, key, first, len);
            (forall i :: 0 <= i < p ==> keys[i] <= key) && (forall i :: p <= i < |keys| ==> key < keys[i])
    decreases len
  {
    if len > 0 {
      var half := len / 2;
      var mid := first + half;
      if key < keys[mid] {
        UpperBoundSplits(keys, key, first, half);
      } else {
        UpperBoundSplits(keys, key, mid + 1, len - half - 1);
      }
    }
  }
}
