/** 64-bit NTP timestamps: 32 bits of seconds since 1900 and 32 bits of fraction (section 3 of
    RFC 4330), their conversions to Unix time and to milliseconds, and their bytes on the wire.
    `unsigned long` is 64 bits wide, and the two conversions the code does in `double` are taken
    over exact rationals. */
module NtpTimestamps {
  import opened Units

  const SECONDS_SINCE_FIRST_EPOCH: int := 2_208_988_800
  const ERA_YEAR: int := 1900
  const MICROS: int := 1_000_000

  datatype NtpTime = NtpTime(second: uint32, fraction: uint32)
  datatype UnixTime = UnixTime(sec: int, usec: int)

  predicate IsLeapYear(year: int) {
    year % 4 == 0 && (year % 100 != 0 || year % 400 == 0)
  }

  /** Days from the first of January of one year to that of another. */
  function DaysBetween(from: int, to: int): int
    decreases to - from
  {
    if to <= from then 0 else DaysBetween(from, to - 1) + (if IsLeapYear(to - 1) then 366 else 365)
  }

  /** From 1900, itself no leap year, to 2100 every fourth year is one. */
  lemma {:induction false} DaysOfFourYears(n: nat)
    requires n <= 50
    ensures DaysBetween(ERA_YEAR, ERA_YEAR + 4 * n) == if n == 0 then 0 else 1461 * n - 1
    decreases n
  {
    if n > 0 {
      var y := ERA_YEAR + 4 * (n - 1);
      DaysOfFourYears(n - 1);
      assert DaysBetween(ERA_YEAR, y + 4) == DaysBetween(ERA_YEAR, y + 3) + (if IsLeapYear(y + 3) then 366 else 365);
      assert DaysBetween(ERA_YEAR, y + 3) == DaysBetween(ERA_YEAR, y + 2) + (if IsLeapYear(y + 2) then 366 else 365);
      assert DaysBetween(ERA_YEAR, y + 2) == DaysBetween(ERA_YEAR, y + 1) + (if IsLeapYear(y + 1) then 366 else 365);
      assert DaysBetween(ERA_YEAR, y + 1) == DaysBetween(ERA_YEAR, y) + (if IsLeapYear(y) then 366 else 365);
      LeapInCentury(y);
    }
  }

  lemma LeapInCentury(y: int)
    requires 1900 <= y < 2100 && y % 4 == 0
    ensures IsLeapYear(y) <==> y != 1900
    ensures !IsLeapYear(y + 1) && !IsLeapYear(y + 2) && !IsLeapYear(y + 3)
  {}

  /** The constant is the length of the seventy years from 1900 to 1970, leap days counted. */
  lemma EpochIsSeventyYears()
    ensures SECONDS_SINCE_FIRST_EPOCH == DaysBetween(ERA_YEAR, 1970) * 24 * 3600
  {
    DaysOfFourYears(17);
    assert DaysBetween(ERA_YEAR, 1970) == DaysBetween(ERA_YEAR, 1969) + 365;
    assert DaysBetween(ERA_YEAR, 1969) == DaysBetween(ERA_YEAR, 1968) + 366;
  }

  function Wrap32(x: int): uint32 {
    x % TWO_TO_THE_32
  }

  function AsSigned32(x: int): int {
    var w := Wrap32(x);
    if w < TWO_TO_THE_32 / 2 then w else w - TWO_TO_THE_32
  }

  function Pack(t: NtpTime): uint64 {
    t.second * TWO_TO_THE_32 + t.fraction
  }

  function Unpack(ts: uint64): NtpTime {
    NtpTime(ts / TWO_TO_THE_32, ts % TWO_TO_THE_32)
  }

  lemma UnpackPack(t: NtpTime)
    ensures Unpack(Pack(t)) == t
  {
    QuotientIs(Pack(t), TWO_TO_THE_32, t.second);
  }

  // ---------------------------------------------------------------- Unix time

  function ConvertUnixToNtp(u: UnixTime): NtpTime {
    NtpTime(Wrap32(u.sec + SECONDS_SINCE_FIRST_EPOCH), Wrap32((u.usec + 1) * TWO_TO_THE_32 / MICROS))
  }

  function ConvertNtpToUnix(t: NtpTime): UnixTime {
    UnixTime(t.second - SECONDS_SINCE_FIRST_EPOCH, t.fraction * MICROS / TWO_TO_THE_32)
  }

  /** The fraction computed for a microsecond count fits its 32 bits exactly up to 999998. */
  lemma FractionFitsIff(usec: int)
    requires 0 <= usec < MICROS
    ensures (usec + 1) * TWO_TO_THE_32 / MICROS < TWO_TO_THE_32 <==> usec <= 999_998
  {}

  /** Seconds survive the trip exactly in era 0 (section 6 of RFC 5905). */
  lemma SecondsRoundTripIff(u: UnixTime)
    ensures ConvertNtpToUnix(ConvertUnixToNtp(u)).sec == u.sec <==>
            0 <= u.sec + SECONDS_SINCE_FIRST_EPOCH < TWO_TO_THE_32
  {}

  /** Microseconds survive the trip except that every multiple of 15625 minus one gains one. */
  lemma MicrosRoundTrip(u: UnixTime)
    requires 0 <= u.usec <= 999_998
    ensures ConvertNtpToUnix(ConvertUnixToNtp(u)).usec == if (u.usec + 1) % 15_625 == 0 then u.usec + 1 else u.usec
  {
    var n := u.usec + 1;
    var f := n * TWO_TO_THE_32 / MICROS;
    FractionFitsIff(u.usec);
    // 2^32 / 10^6 in lowest terms is 67108864 / 15625
    assert f == n * 67_108_864 / 15_625;
    if n % 15_625 == 0 {
      var k := n / 15_625;
      assert n == 15_625 * k && f == 67_108_864 * k;
      assert f * MICROS == n * TWO_TO_THE_32;
    } else {
      ScaledRemainder(n);
      assert n * 67_108_864 - 15_625 < f * 15_625 < n * 67_108_864;
      assert (n - 1) * TWO_TO_THE_32 <= f * MICROS < n * TWO_TO_THE_32;
    }
  }

  /** 67108864 is prime to 15625 (its inverse is 12659), so it scales no non-multiple to a
      multiple. */
  lemma ScaledRemainder(n: int)
    ensures n * 67_108_864 % 15_625 == 0 ==> n % 15_625 == 0
  {
    var q := n * 67_108_864 / 15_625;
    if n * 67_108_864 % 15_625 == 0 {
      assert n * 67_108_864 == q * 15_625;
      var k := 12_659 * q - 54369991 * n;
      assert n == 15_625 * k;
    }
  }

  // ---------------------------------------------------------------- milliseconds

  /** ConvertNtpToStamp. */
  function ConvertNtpToStamp(ts: uint64): int {
    var t := Unpack(ts);
    if t.second == 0 && t.fraction == 0 then 0 else WrappedMillis(t)
  }

  /** Its C++ expression, in unsigned 64-bit arithmetic and returned as int64. */
  function WrappedMillis(t: NtpTime): int {
    AsSigned64(Wrap64(Wrap64(Wrap64(t.second - SECONDS_SINCE_FIRST_EPOCH) * 1000)
                      + Wrap64(t.fraction * 1000) / TWO_TO_THE_32))
  }

  /** Milliseconds since 1900, rounded down. */
  function MillisSince1900(ts: int): int {
    ts * 1000 / TWO_TO_THE_32
  }

  /** The wrapped arithmetic yields the exact millisecond count, negative before 1970, for every
      timestamp but the zero one, which the code maps to 1970. */
  lemma StampExactIff(ts: uint64)
    ensures ConvertNtpToStamp(0) == 0
    ensures ConvertNtpToStamp(ts) == MillisSince1900(ts) - SECONDS_SINCE_FIRST_EPOCH * 1000 <==> ts != 0
  {
    var t := PackUnpack(ts);
    WrappedMillisExact(t);
    assert MillisSince1900(0) == 0;
  }

  lemma PackUnpack(ts: uint64) returns (t: NtpTime)
    ensures t == Unpack(ts) && Pack(t) == ts
    ensures ts == 0 <==> t.second == 0 && t.fraction == 0
  {
    t := Unpack(ts);
  }

  lemma WrappedMillisExact(t: NtpTime)
    ensures WrappedMillis(t) == MillisSince1900(Pack(t)) - SECONDS_SINCE_FIRST_EPOCH * 1000
  {
    SplitMillis(t);
    FractionMillis(t.fraction);
    WrappedSum(t.second - SECONDS_SINCE_FIRST_EPOCH, t.fraction * 1000 / TWO_TO_THE_32);
  }

  lemma FractionMillis(fraction: uint32)
    ensures Wrap64(fraction * 1000) == fraction * 1000
    ensures 0 <= fraction * 1000 / TWO_TO_THE_32 < 1000
  {}

  lemma WrappedSum(s: int, f: int)
    requires -SECONDS_SINCE_FIRST_EPOCH <= s < TWO_TO_THE_32 && 0 <= f < 1000
    ensures AsSigned64(Wrap64(Wrap64(Wrap64(s) * 1000) + f)) == s * 1000 + f
  {
    var k := WrapScaled(s);
    WrapAgrees(s * 1000 + f, Wrap64(Wrap64(s) * 1000) + f, k);
  }

  lemma SplitMillis(t: NtpTime)
    ensures MillisSince1900(Pack(t)) == t.second * 1000 + t.fraction * 1000 / TWO_TO_THE_32
  {
    var f := t.fraction * 1000;
    assert Pack(t) * 1000 == t.second * 1000 * TWO_TO_THE_32 + f;
  }

  lemma WrapScaled(s: int) returns (k: int)
    requires -SECONDS_SINCE_FIRST_EPOCH <= s < TWO_TO_THE_32
    ensures Wrap64(Wrap64(s) * 1000) == s * 1000 + k * TWO_TO_THE_64
  {
    k := if s < 0 then 1 else 0;
    if s < 0 {
      assert Wrap64(s) == s + TWO_TO_THE_64;
      assert (s + TWO_TO_THE_64) * 1000 == s * 1000 + TWO_TO_THE_64 + 999 * TWO_TO_THE_64;
      assert Wrap64(Wrap64(s) * 1000) == s * 1000 + TWO_TO_THE_64;
    }
  }

  /** A time of day goes through the wire format to its Unix time in milliseconds, except that the
      microsecond added on the way carries over eight times a second. */
  lemma StampOfTimeOfDay(u: UnixTime)
    requires 0 <= u.usec <= 999_998 && 0 < u.sec + SECONDS_SINCE_FIRST_EPOCH < TWO_TO_THE_32
    ensures ConvertNtpToStamp(Pack(ConvertUnixToNtp(u))) ==
            u.sec * 1000 + if (u.usec + 1) % 125_000 == 0 then (u.usec + 1) / 1000 else u.usec / 1000
  {
    var t := ConvertUnixToNtp(u);
    FieldsInEra(u);
    StampOfFields(t);
    MicrosToMillis(u.usec + 1);
  }

  lemma FieldsInEra(u: UnixTime)
    requires 0 <= u.usec <= 999_998 && 0 < u.sec + SECONDS_SINCE_FIRST_EPOCH < TWO_TO_THE_32
    ensures var t := ConvertUnixToNtp(u);
            t.second == u.sec + SECONDS_SINCE_FIRST_EPOCH && t.fraction == (u.usec + 1) * TWO_TO_THE_32 / MICROS
  {
    FractionFitsIff(u.usec);
  }

  lemma StampOfFields(t: NtpTime)
    requires t.second != 0
    ensures ConvertNtpToStamp(Pack(t)) ==
            (t.second - SECONDS_SINCE_FIRST_EPOCH) * 1000 + t.fraction * 1000 / TWO_TO_THE_32
  {
    UnpackPack(t);
    WrappedMillisExact(t);
    SplitMillis(t);
  }

  lemma MicrosToMillis(n: int)
    requires 0 < n <= 999_999
    ensures n * TWO_TO_THE_32 / MICROS * 1000 / TWO_TO_THE_32 == if n % 125_000 == 0 then n / 1000 else (n - 1) / 1000
  {
    var k, f := n / 1000, n * TWO_TO_THE_32 / MICROS;
    if n % 1000 == 0 {
      assert f == k * TWO_TO_THE_32 / 1000;
      EighthOfSecond(k);
    } else {
      QuotientIs(f * 1000, TWO_TO_THE_32, k);
    }
  }

  /** 2^32 is prime to 125 (its inverse is 106). */
  lemma CoprimeTo125(k: int, f: int)
    ensures f * 1000 == k * TWO_TO_THE_32 ==> k % 125 == 0
  {
    if f * 1000 == k * TWO_TO_THE_32 {
      assert k == 125 * (848 * f - 3_642_132_267 * k);
    }
  }

  lemma EighthOfSecond(k: int)
    requires 0 <= k
    ensures k * TWO_TO_THE_32 / 1000 * 1000 / TWO_TO_THE_32 == if k % 125 == 0 then k else k - 1
  {
    var f := k * TWO_TO_THE_32 / 1000;
    if k % 125 == 0 {
      var j := k / 125;
      assert k == 125 * j && f == j * 536_870_912;
      QuotientIs(f * 1000, TWO_TO_THE_32, k);
    } else {
      CoprimeTo125(k, f);
      QuotientIs(f * 1000, TWO_TO_THE_32, k - 1);
    }
  }

  /** Later timestamps never get earlier stamps, the zero timestamp aside. */
  lemma StampMonotone(x: uint64, y: uint64)
    requires 0 < x <= y
    ensures ConvertNtpToStamp(x) <= ConvertNtpToStamp(y)
  {
    StampExactIff(x);
    StampExactIff(y);
  }

  // ---------------------------------------------------------------- bytes

  type uint8 = x: int | 0 <= x < 256

  /** The integer a little-endian host reads from memory. */
  function LittleEndian(bytes: seq<uint8>): nat {
    if bytes == [] then 0 else bytes[0] + 256 * LittleEndian(bytes[1..])
  }

  /** The integer a message field denotes: network byte order. */
  function BigEndian(bytes: seq<uint8>): nat {
    if bytes == [] then 0 else BigEndian(bytes[..|bytes| - 1]) * 256 + bytes[|bytes| - 1]
  }

  /** The first `n` bytes of an integer in little-endian memory. */
  function Bytes(x: nat, n: nat): (b: seq<uint8>)
    ensures |b| == n
  {
    if n == 0 then [] else [x % 256] + Bytes(x / 256, n - 1)
  }

  function Pow256(n: nat): nat {
    if n == 0 then 1 else 256 * Pow256(n - 1)
  }

  lemma {:induction false} BytesRoundTrip(x: nat, n: nat)
    requires x < Pow256(n)
    ensures LittleEndian(Bytes(x, n)) == x
  {
    if n > 0 {
      BytesRoundTrip(x / 256, n - 1);
    }
  }

  ghost predicate Mirrored(x: seq<uint8>, y: seq<uint8>) {
    |x| == |y| && forall i :: 0 <= i < |x| ==> x[i] == y[|x| - 1 - i]
  }

  lemma {:induction false} MirrorSwapsEndianness(x: seq<uint8>, y: seq<uint8>)
    requires Mirrored(x, y)
    ensures LittleEndian(x) == BigEndian(y)
    decreases |x|
  {
    if x != [] {
      var n := |x| - 1;
      assert x[0] == y[n];
      forall i | 0 <= i < n ensures x[1..][i] == y[..n][n - 1 - i] {
        assert x[i + 1] == y[n - (i + 1)];
      }
      MirrorSwapsEndianness(x[1..], y[..n]);
    }
  }

  /** The unsigned integer of a field as wide as the type. */
  function Field64(bytes: seq<uint8>): uint64
    requires |bytes| == 8
  {
    BigEndianBound(bytes);
    Widths();
    BigEndian(bytes)
  }

  function Field32(bytes: seq<uint8>): uint32
    requires |bytes| == 4
  {
    BigEndianBound(bytes);
    Widths();
    BigEndian(bytes)
  }

  lemma {:induction false} BigEndianBound(x: seq<uint8>)
    ensures BigEndian(x) < Pow256(|x|)
    decreases |x|
  {
    if x != [] {
      BigEndianBound(x[..|x| - 1]);
    }
  }

  lemma Widths()
    ensures Pow256(4) == TWO_TO_THE_32 && Pow256(8) == TWO_TO_THE_64
  {
    assert Pow256(2) == 65536;
    assert Pow256(4) == TWO_TO_THE_32;
    assert Pow256(6) == 65536 * Pow256(4);
    assert Pow256(8) == 65536 * Pow256(6);
  }

  // ---------------------------------------------------------------- the header byte

  function HeaderByte(leap: int, version: int, mode: int): (b: int) {
    leap * 64 + version * 8 + mode
  }

  /** The leap indicator as read: a plain `char` shifted right by six and kept in an unsigned one.
      Where `char` is signed the shift brings in the sign. */
  function LeapRead(b: int, charIsSigned: bool): int
    requires 0 <= b < 256
  {
    if charIsSigned && b >= 128 then 256 + (b - 256) / 64 else b / 64
  }

  /** Version and mode are recovered by the shifts and masks of ReceivedMessage; the leap indicator
      is on a machine whose `char` is unsigned, elsewhere exactly if it is 0 or 1: 2 and 3 are read as
      254 and 255. */
  lemma HeaderRoundTrip(leap: int, version: int, mode: int, charIsSigned: bool)
    requires 0 <= leap < 4 && 0 <= version < 8 && 0 <= mode < 8
    ensures var b := HeaderByte(leap, version, mode);
            && 0 <= b < 256 && b / 8 % 8 == version && b % 8 == mode
            && (LeapRead(b, charIsSigned) == leap <==> !charIsSigned || leap < 2)
            && (charIsSigned && leap >= 2 ==> LeapRead(b, charIsSigned) == leap + 252)
  {
    var b := HeaderByte(leap, version, mode);
    QuotientIs(b, 64, leap);
    QuotientIs(b - 256, 64, leap - 4);
    QuotientIs(b, 8, leap * 8 + version);
    QuotientIs(leap * 8 + version, 8, leap);
  }
}
