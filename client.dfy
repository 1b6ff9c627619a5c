/**
 * The automated client's send_request (src/client/auto_client.py): stamp
 * the outbound request's data with a tick, exchange it with the server and
 * merge the clock the answer carries.  The request is the caller's own
 * dictionary and is changed in place.
 */
module Client {
  import opened Options
  import opened Clock

  /** A decoded MessagePack value, as far as the clock merge cares: an integer or anything else. */
  datatype Value = IntValue(i: int) | OtherValue

  /** The caller's request dictionary: its 'service' and, optionally, its 'data' dictionary. */
  class RequestDict {
    var service: Option<string>
    var data: Option<map<string, Value>>

    constructor (service: Option<string>, data: Option<map<string, Value>>)
      ensures this.service == service && this.data == data
    {
      this.service := service;
      this.data := data;
    }
  }

  /** A decoded answer: only its optional 'data' dictionary matters here. */
  datatype Response = Response(data: Option<map<string, Value>>)

  /** The answer carries an integer data.clock. */
  predicate CarriesClock(r: Response)
  {
    r.data.Some? && "clock" in r.data.value && r.data.value["clock"].IntValue?
  }

  /** The answer's data.clock exists but is not a number, so comparing it with the clock raises. */
  predicate CarriesBadClock(r: Response)
  {
    r.data.Some? && "clock" in r.data.value && !r.data.value["clock"].IntValue?
  }

  /**
   * send_request.  `exchange` is what packing, sending, receiving and
   * unpacking produced: None when any of them raised, which the function
   * catches and answers with None.
   */
  method SendRequest(clock: LogicalClock, request: RequestDict, exchange: Option<Response>)
    returns (response: Option<Response>)
    modifies clock, request`data
    ensures old(request.data).None? ==> request.data.None?
    ensures old(request.data).Some? ==>
      request.data == Some(old(request.data.value)["clock" := IntValue(Tick(old(clock.value)))])
    ensures var stamped := if old(request.data).Some? then Tick(old(clock.value)) else old(clock.value);
      && (exchange.None? ==> response.None? && clock.value == stamped)
      && (exchange.Some? && CarriesClock(exchange.value) ==>
            response == exchange && clock.value == Observe(stamped, exchange.value.data.value["clock"].i))
      && (exchange.Some? && CarriesBadClock(exchange.value) ==>
            response.None? && clock.value == stamped)
      && (exchange.Some? && !CarriesClock(exchange.value) && !CarriesBadClock(exchange.value) ==>
            response == exchange && clock.value == stamped)
    ensures clock.value >= old(clock.value)
    ensures old(request.data).Some? && exchange.Some? && CarriesClock(exchange.value) ==>
      && request.data.value["clock"].IntValue?
      && clock.value > request.data.value["clock"].i
      && clock.value > exchange.value.data.value["clock"].i
  {
    if request.data.Some? {
      var c := clock.Increment();
      request.data := Some(request.data.value["clock" := IntValue(c)]);
    }
    if exchange.None? {
      return None;
    }
    var r := exchange.value;
    if r.data.Some? && "clock" in r.data.value {
      match r.data.value["clock"] {
        case IntValue(received) =>
          var _ := clock.Update(received);
        case OtherValue =>
          return None;
      }
    }
    response := Some(r);
  }
}
