/** The latency compensation of one time-source sample. Times are real
    milliseconds here because `halfRTT` divides the round trip by two with
    real division. */
module TimeSource {

  function AbsReal(x: real): (r: real)
    ensures r >= 0.0 && (r == x || r == -x)
  {
    if x < 0.0 then -x else x
  }

  /** `halfRTT(serverMs, t0, t1)`: the server's time stamp advanced by half the
      measured round trip, the estimated server time at `t1`. */
  function HalfRTT(serverMs: real, t0: real, t1: real): (r: real)
    ensures t0 <= t1 ==> serverMs <= r <= serverMs + (t1 - t0)
    ensures r - serverMs == t1 - (t0 + t1) / 2.0
  {
    serverMs + (t1 - t0) / 2.0
  }

  /** The offset a source reports: `halfRTT(...) - Date.now()`, with the wall
      clock read at `wallNow`. The compensation moves the raw difference
      between the stamp and the wall clock forward, by at most one round
      trip. */
  function SampleOffset(serverMs: real, t0: real, t1: real, wallNow: real): (off: real)
    ensures t0 <= t1 ==> 0.0 <= off - (serverMs - wallNow) <= t1 - t0
  {
    HalfRTT(serverMs, t0, t1) - wallNow
  }

  /* In the lemmas below the request leaves at local time t0 and the reply
     arrives at t1 (both on the monotonic clock `performance.now`); the wall
     clock reads `skew` more than the monotonic clock, and the authority's
     clock reads `trueOffset` more than the wall clock. The server stamps its
     reply at local time `ts`. Two imperfections of the code are parameters:
     - `trunc` >= 0: the stamp as parsed lies `trunc` ms before the server's
       true time (the HTTP `Date` header has whole-second resolution, so for
       `tryHead` 0 <= trunc < 1000);
     - `lag` >= 0: `Date.now()` is read `lag` ms after `t1` (for
       `sampleWorldAPI` it is read only after the body `r.json()` has been
       downloaded). */

  /** The error of a sample: the parsed stamp, minus the wall clock as read. */
  function SampleError(t0: real, t1: real, ts: real, skew: real, trueOffset: real,
                       trunc: real, lag: real): (e: real)
  {
    SampleOffset(ts + skew + trueOffset - trunc, t0, t1, t1 + lag + skew) - trueOffset
  }

  /** A reply stamped halfway through the round trip errs exactly by the
      stamp's truncation plus the read delay, always towards the past; with
      an exact stamp read at `t1` the sample is the true offset. */
  lemma SymmetricLatencyIsExact(t0: real, t1: real, skew: real, trueOffset: real,
                                trunc: real, lag: real)
    requires t0 <= t1
    ensures SampleError(t0, t1, (t0 + t1) / 2.0, skew, trueOffset, trunc, lag) == -(trunc + lag)
    ensures trunc == 0.0 && lag == 0.0 ==>
      SampleOffset((t0 + t1) / 2.0 + skew + trueOffset, t0, t1, t1 + skew) == trueOffset
  {
  }

  /** Wherever in the round trip the server stamps its reply, the sample
      overshoots by at most half the round trip and undershoots by at most
      half the round trip plus the truncation and the read delay. */
  lemma SampleErrorWithinHalfRoundTrip(t0: real, t1: real, ts: real, skew: real, trueOffset: real,
                                       trunc: real, lag: real)
    requires t0 <= ts <= t1 && trunc >= 0.0 && lag >= 0.0
    ensures -((t1 - t0) / 2.0 + trunc + lag)
      <= SampleError(t0, t1, ts, skew, trueOffset, trunc, lag) <= (t1 - t0) / 2.0
    ensures AbsReal(SampleError(t0, t1, ts, skew, trueOffset, trunc, lag))
      <= (t1 - t0) / 2.0 + trunc + lag
  {
  }

  /** For `tryHead`, read at once after the reply (lag 0), the error is below
      half the round trip plus one second. */
  lemma HeadSampleErrorWithinOneSecond(t0: real, t1: real, ts: real, skew: real, trueOffset: real,
                                       trunc: real)
    requires t0 <= ts <= t1 && 0.0 <= trunc < 1000.0
    ensures AbsReal(SampleError(t0, t1, ts, skew, trueOffset, trunc, 0.0)) < (t1 - t0) / 2.0 + 1000.0
  {
    SampleErrorWithinHalfRoundTrip(t0, t1, ts, skew, trueOffset, trunc, 0.0);
  }
}
