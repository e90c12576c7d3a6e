/** `TimeService.getTime`: relays `api/en/time` with no params. */
module Time {
  import opened Wrappers
  import opened Text
  import opened Paths
  import opened Json
  import opened YayaHttp
  import Signature

  const TimeRelayPath := "api/en/time"

  class TimeService {
    const yayaHttp: YayaHttpService

    constructor (yayaHttp: YayaHttpService)
      ensures this.yayaHttp == yayaHttp
    {
      this.yayaHttp := yayaHttp;
    }

    /** `getTime()`: the relay's result for `api/en/time` and the default
        empty params, unchanged; for a constructed relay (always in mock mode)
        that is the time envelope for the current clock value. */
    method GetTime(clock: Clock, fx: Effects) returns (r: Result<Value, HttpError>)
      ensures r == yayaHttp.Outcome(TimeRelayPath, [], clock, fx)
      ensures yayaHttp.Valid() ==> r == Success(TimeEnvelope(clock.millis))
    {
      r := yayaHttp.Get(TimeRelayPath, [], clock, fx);
      TimeRelayPathNormalizes();
      TimePathRoute();
    }
  }

  /** The relayed path normalises to `/api/en/time`. */
  lemma TimeRelayPathNormalizes()
    ensures NormalizePath(TimeRelayPath) == TimePath
  {
    assert "/" + TimeRelayPath == TimePath;
  }

  /** The time call answers with `time`, `timezone` 'UTC' and `client_ip`
      '127.0.0.1', and the transport is never reached. */
  lemma GetTimeMockFields(svc: YayaHttpService, clock: Clock, fx: Effects)
    requires svc.Valid()
    ensures svc.Outcome(TimeRelayPath, [], clock, fx).Success?
    ensures var v := svc.Outcome(TimeRelayPath, [], clock, fx).value;
      Get(v, "time") == Num(clock.millis) && Get(v, "timezone") == Str("UTC")
      && Get(v, "client_ip") == Str("127.0.0.1")
  {
    TimeRelayPathNormalizes();
    TimePathRoute();
    TimeMockFields(TimePath, [], clock);
  }

  /** In the real branch the time call signs no params segment: the canonical
      string is the timestamp, `GET` and `/api/en/time`. */
  lemma TimeRealPrehash(timestamp: string, stringify: Signature.Stringify)
    ensures RelayPrehash(timestamp, NormalizePath(TimeRelayPath), [], stringify)
            == timestamp + "GET" + TimePath
  {
    TimeRelayPathNormalizes();
  }
}
