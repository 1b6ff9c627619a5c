/**
 * The Lamport logical clock that every process of the system keeps: the
 * reference server, both chat servers and the automated client carry the
 * same two operations, a tick before each send and a merge after each receive.
 */
module Clock {

  /** Tick-on-send: the counter after one increment. */
  function Tick(local: int): int
  {
    local + 1
  }

  /**
   * Merge-on-receive: max(local, received) + 1, i.e. the value one above the
   * larger of the two clocks.
   */
  function Observe(local: int, received: int): (r: int)
    ensures r > local && r > received
    ensures r == local + 1 || r == received + 1
  {
    if received > local then received + 1 else local + 1
  }

  /** One clock event of a process: a send or the receipt of a stamped message. */
  datatype Event = Send | Receive(stamp: int)

  function Apply(local: int, e: Event): int
  {
    match e
    case Send => Tick(local)
    case Receive(stamp) => Observe(local, stamp)
  }

  /** The counter after a run of events, applied in order. */
  function Run(local: int, events: seq<Event>): int
    decreases |events|
  {
    if events == [] then local else Run(Apply(local, events[0]), events[1..])
  }

  /** Every event advances the counter by at least one, so it never decreases. */
  lemma {:induction false} RunAdvances(local: int, events: seq<Event>)
    ensures Run(local, events) >= local + |events|
    decreases |events|
  {
    if events != [] {
      RunAdvances(Apply(local, events[0]), events[1..]);
    }
  }

  /** After a run, the counter is above every clock value received during it. */
  lemma {:induction false} RunDominatesReceived(local: int, events: seq<Event>, i: nat)
    requires i < |events| && events[i].Receive?
    ensures Run(local, events) > events[i].stamp
    decreases |events|
  {
    var next := Apply(local, events[0]);
    if i == 0 {
      RunAdvances(next, events[1..]);
    } else {
      RunDominatesReceived(next, events[1..], i - 1);
    }
  }

  /** The process-wide counter; it starts at 0 when the process starts. */
  class LogicalClock {
    var value: int

    constructor ()
      ensures value == 0
    {
      value := 0;
    }

    /** increment_clock / incrementClock: add one and return the new value. */
    method Increment() returns (c: int)
      modifies this
      ensures value == Tick(old(value)) && c == value
    {
      value := value + 1;
      c := value;
    }

    /** update_clock / updateClock: take the larger clock, add one, return it. */
    method Update(received: int) returns (c: int)
      modifies this
      ensures value == Observe(old(value), received) && c == value
    {
      if received > value {
        value := received;
      }
      value := value + 1;
      c := value;
    }
  }
}
