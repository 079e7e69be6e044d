/** The cached network time: refreshed from an SNTP exchange and extrapolated with the steady
    clock. */
module NtpTrustedTimes {
  import opened Units
  import opened NtpTimestamps
  import opened SntpClients

  datatype TimeResult = TimeResult(timeMillis: int, elapsedRealtimeMillis: int, certaintyMillis: int)

  /** What a successful SNTPClient::RequestTime leaves in the client. */
  datatype Exchange = Exchange(ntpTime: int, ntpTimeReference: int, roundTripTime: int)

  const INVALID_MILLIS: int := -1

  class NtpTrustedTime {
    var timeResult: Option<TimeResult>

    constructor ()
      ensures timeResult == None
    {
      timeResult := None;
    }

    /** Ask the server, and once more if that fails. The first exchange that succeeds decides. */
    method ForceRefresh(first: Option<Exchange>, second: Option<Exchange>) returns (ok: bool)
      modifies this
      ensures ok <==> first.Some? || second.Some?
      ensures !ok ==> timeResult == old(timeResult)
      ensures ok ==> var e := if first.Some? then first.value else second.value;
                     timeResult == Some(TimeResult(e.ntpTime, e.ntpTimeReference, Certainty(e.roundTripTime)))
    {
      ok := true;
      if first.Some? {
        var e := first.value;
        timeResult := Some(TimeResult(e.ntpTime, e.ntpTimeReference, Certainty(e.roundTripTime)));
      } else if second.Some? {
        var e := second.value;
        timeResult := Some(TimeResult(e.ntpTime, e.ntpTimeReference, Certainty(e.roundTripTime)));
      } else {
        ok := false;
      }
    }

    /** The time at a steady-clock reading, in milliseconds. */
    function CurrentTimeMillis(steadyMillis: int): (now: int)
      reads this
      ensures timeResult == None ==> now == -1
    {
      if timeResult == None then INVALID_MILLIS else timeResult.value.timeMillis + AgeMillis(timeResult.value, steadyMillis)
    }
  }

  function AgeMillis(r: TimeResult, steadyMillis: int): int {
    steadyMillis - r.elapsedRealtimeMillis
  }

  /** The answer is the cached time at the reading it was taken for, and two answers differ by exactly
      the steady time between them. */
  lemma AnswersRunAlong(trusted: NtpTrustedTime, x: int, y: int)
    requires trusted.timeResult.Some?
    ensures trusted.CurrentTimeMillis(trusted.timeResult.value.elapsedRealtimeMillis) == trusted.timeResult.value.timeMillis
    ensures trusted.CurrentTimeMillis(y) - trusted.CurrentTimeMillis(x) == y - x
  {}

  /** Whole milliseconds of a steady-clock reading in units of 2^-32 s. */
  function SteadyMillis(t: nat): int {
    t * 1000 / TWO_TO_THE_32
  }

  lemma SteadyMillisRoundsDown(t: nat)
    ensures SteadyMillis(t) * TWO_TO_THE_32 <= t * 1000 < (SteadyMillis(t) + 1) * TWO_TO_THE_32
  {}

  /** An exchange with a server whose clock is `offset` ahead: a request sent at t1 takes d1 to arrive
      and is received at t2; the reply sent at t3 takes d2 and arrives at t4. All instants are in
      units of 2^-32 s. */
  ghost predicate IsExchange(t1: uint64, t2: uint64, t3: uint64, t4: uint64, offset: int, d1: nat, d2: nat) {
    t1 != 0 && t2 != 0 && t3 != 0 && t4 != 0 && t2 == t1 + offset + d1 && t4 == t3 - offset + d2
  }

  /** An answer given at the steady clock's r1 tracks the server: the steady clock was read at r0, `gap`
      after the reply had arrived at t4, and the server's clock has advanced with it since. */
  ghost predicate Tracks(answer: int, t4: uint64, offset: int, gap: nat, r0: nat, r1: nat, certainty: int) {
    var server := (t4 + offset + gap + (r1 - r0)) * 1000;
    Abs((answer + SECONDS_SINCE_FIRST_EPOCH * 1000) * TWO_TO_THE_32 - server) < (certainty + 5) * TWO_TO_THE_32 + gap * 1000
  }

  /** The time handed out tracks the server's within the certainty plus five milliseconds, and the
      gap; the certainty is half the round trip the client measured. */
  lemma CachedTimeTracksServer(trusted: NtpTrustedTime, t1: uint64, t2: uint64, t3: uint64, t4: uint64, offset: int,
                               d1: nat, d2: nat, gap: nat, r0: nat, r1: nat)
    requires IsExchange(t1, t2, t3, t4, offset, d1, d2) && r0 <= r1
    requires var s1, s2, s3, s4 := ConvertNtpToStamp(t1), ConvertNtpToStamp(t2), ConvertNtpToStamp(t3), ConvertNtpToStamp(t4);
             trusted.timeResult == Some(TimeResult(s4 + ClockOffset(s1, s2, s3, s4), SteadyMillis(r0),
                                                   Certainty(RoundTripDelay(s1, s2, s3, s4))))
    ensures Tracks(trusted.CurrentTimeMillis(SteadyMillis(r1)), t4, offset, gap, r0, r1,
                   trusted.timeResult.value.certaintyMillis)
  {
    WireOffsetBound(t1, t2, t3, t4, offset, d1, d2);
    var s4 := StampBracket(t4);
  }

  /** From the reply to the answer: the client reads a reply, at the first or the second attempt, the
      cache takes its result, and the time it hands out at the steady clock's r1 tracks the server's. */
  method AnswerAfterReply(client: SntpClient, trusted: NtpTrustedTime, buffer: array<uint8>, unix: UnixTime, retried: bool,
                          ghost offset: int, ghost d1: nat, ghost d2: nat, ghost gap: nat, r0: nat, r1: nat)
    returns (answer: int)
    requires NTP_PACKAGE_SIZE <= buffer.Length && r0 <= r1
    requires var echoed := Field64(buffer[24..32]);
             IsExchange(if echoed > 0 then echoed else client.originateTimestamp, Field64(buffer[32..40]),
                        Field64(buffer[40..48]), Pack(ConvertUnixToNtp(unix)), offset, d1, d2)
    modifies client`ntpTime, client`ntpTimeReference, client`roundTripTime, client`clockOffset, trusted
    ensures trusted.timeResult.Some?
    ensures 2 * trusted.timeResult.value.certaintyMillis <= Max(client.roundTripTime, 0)
    ensures Tracks(answer, Pack(ConvertUnixToNtp(unix)), offset, gap, r0, r1, trusted.timeResult.value.certaintyMillis)
  {
    ghost var echoed := Field64(buffer[24..32]);
    ghost var t1 := if echoed > 0 then echoed else client.originateTimestamp;
    ghost var t2, t3, t4 := Field64(buffer[32..40]), Field64(buffer[40..48]), Pack(ConvertUnixToNtp(unix));
    client.ReceivedMessage(buffer, unix, SteadyMillis(r0));
    var e := Exchange(client.ntpTime, client.ntpTimeReference, client.roundTripTime);
    var ok := trusted.ForceRefresh(if retried then None else Some(e), Some(e));
    CachedTimeTracksServer(trusted, t1, t2, t3, t4, offset, d1, d2, gap, r0, r1);
    answer := trusted.CurrentTimeMillis(SteadyMillis(r1));
  }
}
