/** The SNTP client: writing a request into its buffer, reading a reply out of one, and the
    offset and delay computed from the four timestamps (section 5 of RFC 4330). */
module SntpClients {
  import opened Units
  import opened NtpTimestamps

  const ORIGINATE_TIMESTAMP_OFFSET: nat := 24
  const RECEIVE_TIMESTAMP_OFFSET: nat := 32
  const TRANSMIT_TIMESTAMP_OFFSET: nat := 40
  const NTP_PACKAGE_SIZE: nat := 48
  const VERSION_THREE: int := 3
  const MODE_THREE: int := 3

  // ---------------------------------------------------------------- the estimate

  function ClockOffset(t1: int, t2: int, t3: int, t4: int): int {
    TruncDiv((t2 - t1) + (t3 - t4), 2)
  }

  function RoundTripDelay(t1: int, t2: int, t3: int, t4: int): int {
    (t4 - t1) - (t3 - t2)
  }

  /** NtpTrustedTime's certainty: half the round trip. */
  function Certainty(roundTrip: int): int {
    TruncDiv(roundTrip, 2)
  }

  function Abs(x: int): int {
    if x < 0 then -x else x
  }

  /** With a server `offset` ahead and one-way delays d1 and d2, the round trip is their sum and
      the estimated offset is off by at most half of it, plus one for the two truncations. */
  lemma OffsetWithinCertainty(t1: int, t3: int, offset: int, d1: nat, d2: nat)
    ensures var t2, t4 := t1 + offset + d1, t3 - offset + d2;
            && RoundTripDelay(t1, t2, t3, t4) == d1 + d2
            && Abs(ClockOffset(t1, t2, t3, t4) - offset) <= Certainty(d1 + d2) + 1
    // the certainty is no more than half the round trip, to the millisecond
    ensures 2 * Certainty(d1 + d2) <= d1 + d2 <= 2 * Certainty(d1 + d2) + 1
  {}

  /** The bound cannot be tightened by the one: a one-way delay of 1 ms already needs it. */
  lemma CertaintyAloneIsNotEnough()
    ensures Abs(ClockOffset(0, -5 + 1, 0, 5) - (-5)) == Certainty(1) + 1
  {}

  /** The same for the timestamps of the wire, in units of 2^-32 s and converted to milliseconds
      by rounding down: three milliseconds more than the certainty suffice. */
  lemma WireOffsetBound(t1: uint64, t2: uint64, t3: uint64, t4: uint64, offset: int, d1: nat, d2: nat)
    requires t1 != 0 && t2 != 0 && t3 != 0 && t4 != 0
    requires t2 == t1 + offset + d1 && t4 == t3 - offset + d2
    ensures var s1, s2, s3, s4 := ConvertNtpToStamp(t1), ConvertNtpToStamp(t2), ConvertNtpToStamp(t3), ConvertNtpToStamp(t4);
            var e := ClockOffset(s1, s2, s3, s4);
            Abs(e * TWO_TO_THE_32 - offset * 1000) < (Certainty(RoundTripDelay(s1, s2, s3, s4)) + 3) * TWO_TO_THE_32
  {
    var s1 := StampBracket(t1);
    var s2 := StampBracket(t2);
    var s3 := StampBracket(t3);
    var s4 := StampBracket(t4);
    FlooredOffset(t1, t2, t3, t4, s1, s2, s3, s4, offset, d1, d2);
  }

  lemma StampBracket(ts: uint64) returns (s: int)
    requires ts != 0
    ensures s == ConvertNtpToStamp(ts)
    ensures (s + SECONDS_SINCE_FIRST_EPOCH * 1000) * TWO_TO_THE_32 <= ts * 1000
    ensures ts * 1000 < (s + SECONDS_SINCE_FIRST_EPOCH * 1000 + 1) * TWO_TO_THE_32
  {
    s := ConvertNtpToStamp(ts);
    StampExactIff(ts);
  }

  /** The arithmetic of WireOffsetBound: four readings, each rounded down by less than one. */
  lemma FlooredOffset(t1: int, t2: int, t3: int, t4: int, s1: int, s2: int, s3: int, s4: int,
                      offset: int, d1: nat, d2: nat)
    requires t2 == t1 + offset + d1 && t4 == t3 - offset + d2
    requires Floored(t1, s1) && Floored(t2, s2) && Floored(t3, s3) && Floored(t4, s4)
    ensures var e := ClockOffset(s1, s2, s3, s4);
            Abs(e * TWO_TO_THE_32 - offset * 1000) < (Certainty(RoundTripDelay(s1, s2, s3, s4)) + 3) * TWO_TO_THE_32
  {}

  ghost predicate Floored(t: int, s: int) {
    var base := (s + SECONDS_SINCE_FIRST_EPOCH * 1000) * TWO_TO_THE_32;
    base <= t * 1000 < base + TWO_TO_THE_32
  }

  // ---------------------------------------------------------------- the client object

  method ReadMirrored(offset: nat, len: nat, buffer: array<uint8>) returns (valueRx: seq<uint8>)
    requires offset + len <= buffer.Length
    ensures Mirrored(valueRx, buffer[offset..offset + len])
  {
    var value := new uint8[len](_ => 0);
    var numOfBit := len;
    for loop := offset to offset + len
      invariant numOfBit == len - (loop - offset)
      invariant forall i :: numOfBit <= i < len ==> value[i] == buffer[offset + len - 1 - i]
    {
      numOfBit := numOfBit - 1;
      value[numOfBit] := buffer[loop];
    }
    valueRx := value[..];
  }

  class SntpClient {
    var originateTimestamp: uint64
    var ntpTime: int
    var ntpTimeReference: int
    var roundTripTime: int
    var clockOffset: int

    constructor ()
    {
      originateTimestamp, ntpTime, ntpTimeReference, roundTripTime, clockOffset := 0, 0, 0, 0, 0;
    }

    /** Eight bytes in network order. */
    method GetNtpTimestamp64(offset: nat, buffer: array<uint8>) returns (ts: uint64)
      requires offset + 8 <= buffer.Length
      ensures ts == Field64(buffer[offset..offset + 8])
    {
      var valueRx := ReadMirrored(offset, 8, buffer);
      MirrorSwapsEndianness(valueRx, buffer[offset..offset + 8]);
      assert LittleEndian(valueRx) == Field64(buffer[offset..offset + 8]);
      ts := LittleEndian(valueRx);
    }

    /** Four bytes in network order. */
    method GetNtpField32(offset: nat, buffer: array<uint8>) returns (field: uint32)
      requires offset + 4 <= buffer.Length
      ensures field == Field32(buffer[offset..offset + 4])
    {
      var valueRx := ReadMirrored(offset, 4, buffer);
      MirrorSwapsEndianness(valueRx, buffer[offset..offset + 4]);
      assert LittleEndian(valueRx) == Field32(buffer[offset..offset + 4]);
      field := LittleEndian(valueRx);
    }

    /** Write a request with the given time: the originate timestamp and the header byte. */
    method WriteTimeStamp(buffer: array<uint8>, ntp: NtpTime)
      requires NTP_PACKAGE_SIZE <= buffer.Length
      modifies this`originateTimestamp, buffer
      ensures originateTimestamp == Pack(ntp)
      ensures Field64(buffer[24..32]) == Pack(ntp)
      ensures buffer[0] == 27
      ensures forall i :: 0 < i < buffer.Length && !(24 <= i < 32) ==> buffer[i] == old(buffer[i])
    {
      originateTimestamp := Pack(ntp);
      var value := Bytes(Pack(ntp), 8);
      var numOfBit := 7;
      for loop := ORIGINATE_TIMESTAMP_OFFSET to ORIGINATE_TIMESTAMP_OFFSET + 8
        invariant originateTimestamp == Pack(ntp) && numOfBit == 7 - (loop - ORIGINATE_TIMESTAMP_OFFSET)
        invariant forall i :: ORIGINATE_TIMESTAMP_OFFSET <= i < loop ==> buffer[i] == value[31 - i]
        invariant forall i :: 0 <= i < buffer.Length && !(24 <= i < 32) ==> buffer[i] == old(buffer[i])
      {
        buffer[loop] := value[numOfBit];
        numOfBit := numOfBit - 1;
      }
      buffer[0] := HeaderByte(0, VERSION_THREE, MODE_THREE);
      assert Mirrored(value, buffer[24..32]);
      MirrorSwapsEndianness(value, buffer[24..32]);
      Widths();
      BytesRoundTrip(Pack(ntp), 8);
    }

    /** The request for the time of day `unix`. The code also converts back, without using it. */
    method CreateMessage(buffer: array<uint8>, unix: UnixTime)
      requires NTP_PACKAGE_SIZE <= buffer.Length
      modifies this`originateTimestamp, buffer
      ensures originateTimestamp == Pack(ConvertUnixToNtp(unix))
      ensures Field64(buffer[24..32]) == originateTimestamp
      ensures buffer[0] == 27
      ensures forall i :: 0 < i < buffer.Length && !(24 <= i < 32) ==> buffer[i] == old(buffer[i])
    {
      WriteTimeStamp(buffer, ConvertUnixToNtp(unix));
    }

    /** SetClockOffset takes an `int`. */
    method SetClockOffset(offset: int)
      modifies this`clockOffset
      ensures clockOffset == AsSigned32(offset)
    {
      clockOffset := AsSigned32(offset);
    }

    /** A reply that arrives at time of day `unix`; `steadyMillis` is the steady clock at the end. */
    method ReceivedMessage(buffer: array<uint8>, unix: UnixTime, steadyMillis: int)
      requires NTP_PACKAGE_SIZE <= buffer.Length
      modifies this`ntpTime, this`ntpTimeReference, this`roundTripTime, this`clockOffset
      ensures var echoed := Field64(buffer[24..32]);
              var t1 := ConvertNtpToStamp(if echoed > 0 then echoed else originateTimestamp);
              var t2, t3 := ConvertNtpToStamp(Field64(buffer[32..40])), ConvertNtpToStamp(Field64(buffer[40..48]));
              var t4 := ConvertNtpToStamp(Pack(ConvertUnixToNtp(unix)));
              && roundTripTime == RoundTripDelay(t1, t2, t3, t4)
              && ntpTime == t4 + ClockOffset(t1, t2, t3, t4)
              && ntpTimeReference == steadyMillis
              && clockOffset == AsSigned32(ClockOffset(t1, t2, t3, t4))
    {
      var sentOriginate := GetNtpTimestamp64(ORIGINATE_TIMESTAMP_OFFSET, buffer);
      var receive := GetNtpTimestamp64(RECEIVE_TIMESTAMP_OFFSET, buffer);
      var transmit := GetNtpTimestamp64(TRANSMIT_TIMESTAMP_OFFSET, buffer);
      var originate := originateTimestamp;
      if sentOriginate > 0 {
        originate := sentOriginate;
      }
      var t1, t2, t3 := ConvertNtpToStamp(originate), ConvertNtpToStamp(receive), ConvertNtpToStamp(transmit);
      var t4 := ConvertNtpToStamp(Pack(ConvertUnixToNtp(unix)));
      var offset := ClockOffset(t1, t2, t3, t4);
      roundTripTime := RoundTripDelay(t1, t2, t3, t4);
      ntpTime := t4 + offset;
      ntpTimeReference := steadyMillis;
      SetClockOffset(offset);
    }
  }

  /** What WriteTimeStamp puts on the wire, GetNtpTimestamp64 takes off it, for every timestamp. */
  method WriteThenRead(client: SntpClient, buffer: array<uint8>, ntp: NtpTime) returns (ts: uint64)
    requires NTP_PACKAGE_SIZE <= buffer.Length
    modifies client`originateTimestamp, buffer
    ensures ts == Pack(ntp) == client.originateTimestamp && Unpack(ts) == ntp
  {
    client.WriteTimeStamp(buffer, ntp);
    ts := client.GetNtpTimestamp64(ORIGINATE_TIMESTAMP_OFFSET, buffer);
    UnpackPack(ntp);
  }

  /** The offset kept as an `int` is the offset exactly within 32 signed bits of milliseconds,
      some 24 days; the time derived from it is not affected. */
  lemma ClockOffsetKeptIff(offset: int)
    ensures AsSigned32(offset) == offset <==> -TWO_TO_THE_32 / 2 <= offset < TWO_TO_THE_32 / 2
  {}
}
