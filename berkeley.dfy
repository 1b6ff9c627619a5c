/**
 * The arithmetic of a Berkeley round run by the coordinator
 * (berkeleyCoordinator, identical in both chat servers): the average of
 * the sampled times by Go's truncating integer division, and the
 * adjustment each listed server is sent so that its time moves to the
 * average.  It also models the round around that arithmetic: the
 * fetch of the server list, and the sampling loop, in which each
 * listed server's exchange ends as a `ClockAnswer` (no connection, no
 * reply, or a reported time and clock) and the answered times are
 * gathered into a map from server name to time (SamplesAfter,
 * SampleTimes).
 */
module Berkeley {
  import opened Options
  import opened Clock
  import opened Registry
  import opened ChatNode

  /** Go's `/` on integers: the quotient truncated toward zero. */
  function GoDiv(a: int, b: int): (q: int)
    requires b > 0
    ensures a >= 0 ==> 0 <= a - q * b < b
    ensures a < 0 ==> -b < a - q * b <= 0
  {
    if a >= 0 then a / b else -((-a) / b)
  }

  /** Some key of a non-empty map. */
  ghost function Pick(m: map<string, int>): (k: string)
    requires m != map[]
    ensures k in m
  {
    var k :| k in m; k
  }

  /** The sum of a map's values, in no particular key order. */
  ghost function Sum(m: map<string, int>): int
    decreases |m|
  {
    if m == map[] then 0 else m[Pick(m)] + Sum(m - {Pick(m)})
  }

  /** Any key can be taken out first: the sum does not depend on the iteration order. */
  lemma {:induction false} SumRemove(m: map<string, int>, k: string)
    requires k in m
    ensures Sum(m) == m[k] + Sum(m - {k})
    decreases |m|
  {
    var j := Pick(m);
    if j != k {
      SumRemove(m - {j}, k);
      SumRemove(m - {k}, j);
      assert m - {j} - {k} == m - {k} - {j};
    }
  }

  /** Multiplying by a positive number keeps the order. */
  lemma MulMono(n: int, a: int, b: int)
    requires n > 0 && a <= b
    ensures n * a <= n * b
  {
    assert n * b - n * a == n * (b - a);
  }

  /** One more copy of x. */
  lemma MulSucc(r: int, x: int)
    ensures (r + 1) * x == r * x + x
  {
  }

  /** n values between lo and hi sum to between n * lo and n * hi. */
  lemma {:induction false} SumBounds(m: map<string, int>, lo: int, hi: int)
    requires forall k :: k in m ==> lo <= m[k] <= hi
    ensures |m| * lo <= Sum(m) <= |m| * hi
    decreases |m|
  {
    if m != map[] {
      var k := Pick(m);
      var rest := m - {k};
      SumBounds(rest, lo, hi);
      assert |rest| + 1 == |m|;
      MulSucc(|rest|, lo);
      MulSucc(|rest|, hi);
    }
  }

  /** The truncated quotient of a value between n * lo and n * hi lies between lo and hi. */
  lemma DivBetween(s: int, n: int, lo: int, hi: int)
    requires n > 0 && n * lo <= s <= n * hi
    ensures lo <= GoDiv(s, n) <= hi
  {
    var q := GoDiv(s, n);
    assert -n < s - q * n < n;
    if q < lo {
      MulMono(n, q + 1, lo);
    }
    if q > hi {
      MulMono(n, hi, q - 1);
    }
  }

  /** The sum loop and the division: avgTime over the sampled times. */
  method AverageTime(samples: map<string, int>) returns (avg: int)
    requires |samples| > 0
    ensures avg == GoDiv(Sum(samples), |samples|)
  {
    var sum := 0;
    var rest := samples;
    while rest != map[]
      invariant sum + Sum(rest) == Sum(samples)
      decreases |rest|
    {
      var name :| name in rest;
      SumRemove(rest, name);
      sum := sum + rest[name];
      rest := rest - {name};
    }
    avg := GoDiv(sum, |samples|);
  }

  /** The average never leaves the range of the samples. */
  lemma AverageWithinSamples(samples: map<string, int>, lo: int, hi: int)
    requires |samples| > 0
    requires forall k :: k in samples ==> lo <= samples[k] <= hi
    ensures lo <= GoDiv(Sum(samples), |samples|) <= hi
  {
    SumBounds(samples, lo, hi);
    DivBetween(Sum(samples), |samples|, lo, hi);
  }

  /**
   * The adjustment as written: avgTime - timestamps[name], where a name
   * whose sample failed reads Go's zero value.
   */
  function AdjustmentAsWritten(avg: int, samples: map<string, int>, name: string): (adj: int)
    ensures name in samples ==> samples[name] + adj == avg
    ensures name !in samples ==> adj == avg
  {
    avg - (if name in samples then samples[name] else 0)
  }

  /**
   * Two servers sampled at 1700000000 and 1700000002 average to 1700000001,
   * and a third server whose reply failed to parse is told to move its
   * clock forward by 1700000001 seconds.
   */
  lemma UnsampledServerCounterexample()
    ensures var samples := map["s1" := 1700000000, "s2" := 1700000002];
            var avg := GoDiv(Sum(samples), |samples|);
            && avg == 1700000001
            && AdjustmentAsWritten(avg, samples, "s3") == 1700000001
  {
    var samples := map["s1" := 1700000000, "s2" := 1700000002];
    SumRemove(samples, "s1");
    var rest := samples - {"s1"};
    assert rest == map["s2" := 1700000002];
    SumRemove(rest, "s2");
    assert rest - {"s2"} == map[];
  }

  /** The adjustment as intended: only a sampled server has one, and it moves that server to the average. */
  function Adjustment(avg: int, samples: map<string, int>, name: string): (adj: Option<int>)
    ensures adj.Some? <==> name in samples
    ensures adj.Some? ==> samples[name] + adj.value == avg
  {
    if name in samples then Some(avg - samples[name]) else None
  }

  /** For a sampled server the intended and the written adjustment agree. */
  lemma AdjustmentAgreesWhenSampled(avg: int, samples: map<string, int>, name: string)
    requires name in samples
    ensures Adjustment(avg, samples, name) == Some(AdjustmentAsWritten(avg, samples, name))
  {
  }

  /** A clock adjustment message as sent: target, adjustment and the stamped logical clock. */
  datatype AdjustMessage = AdjustMessage(target: string, adjustment: int, clock: int)

  // ---------------------------------------------------------------------------
  // Sampling: ask every other listed server for its adjusted time

  /**
   * How the clock exchange with one listed peer ends: no socket could be
   * created; the request went out, stamped with a tick, but no reply was
   * received or parsed; or the reply carried the peer's time and clock.
   */
  datatype ClockAnswer = NoConnection | NoReply | Answered(time: int, clock: int)

  /**
   * timestamps after the first n list entries, entry i answering as
   * answers(i): this server's own time, then every other server that
   * answered, a later answer for the same name replacing an earlier one.
   */
  function SamplesAfter(self: string, selfTime: int, servers: seq<ServerInfo>, answers: nat -> ClockAnswer, n: nat)
    : (m: map<string, int>)
    requires n <= |servers|
    ensures self in m && m[self] == selfTime
  {
    if n == 0 then map[self := selfTime]
    else
      var prev := SamplesAfter(self, selfTime, servers, answers, n - 1);
      if servers[n - 1].name != self && answers(n - 1).Answered? then prev[servers[n - 1].name := answers(n - 1).time]
      else prev
  }

  /** The clock after the first n exchanges: a tick for each request sent, a merge for each reply. */
  function ClockAfterSampling(c: int, self: string, servers: seq<ServerInfo>, answers: nat -> ClockAnswer, n: nat): int
    requires n <= |servers|
  {
    if n == 0 then c
    else
      var prev := ClockAfterSampling(c, self, servers, answers, n - 1);
      if servers[n - 1].name == self then prev
      else match answers(n - 1)
        case NoConnection => prev
        case NoReply => Tick(prev)
        case Answered(_, received) => Observe(Tick(prev), received)
  }

  /**
   * A server other than this one has a sample exactly when some list entry
   * naming it answered, and its sample is the time one of those answers
   * carried.
   */
  lemma {:induction false} SampledIffAnswered(self: string, selfTime: int, servers: seq<ServerInfo>,
                                              answers: nat -> ClockAnswer, n: nat, name: string)
    requires n <= |servers| && name != self
    ensures var m := SamplesAfter(self, selfTime, servers, answers, n);
            && (name in m <==> exists i :: 0 <= i < n && servers[i].name == name && answers(i).Answered?)
            && (name in m ==> exists i :: 0 <= i < n && servers[i].name == name && answers(i).Answered?
                                          && answers(i).time == m[name])
  {
    if n > 0 {
      SampledIffAnswered(self, selfTime, servers, answers, n - 1, name);
    }
  }

  /** Sampling never lowers the clock, and leaves it above every clock a peer answered with. */
  lemma {:induction false} SamplingDominatesAnswers(c: int, self: string, servers: seq<ServerInfo>,
                                                    answers: nat -> ClockAnswer, n: nat)
    requires n <= |servers|
    ensures ClockAfterSampling(c, self, servers, answers, n) >= c
    ensures forall i :: 0 <= i < n && servers[i].name != self && answers(i).Answered? ==>
      ClockAfterSampling(c, self, servers, answers, n) > answers(i).clock
  {
    if n > 0 {
      SamplingDominatesAnswers(c, self, servers, answers, n - 1);
    }
  }

  /**
   * The sampling loop: this server's own adjusted time first, then one clock
   * request to every other listed server; a server that cannot be reached
   * or does not answer is skipped.
   */
  method SampleTimes(node: ChatNode, servers: seq<ServerInfo>, now: int, answers: nat -> ClockAnswer)
    returns (samples: map<string, int>)
    modifies node.clock
    ensures samples == SamplesAfter(node.serverName, node.AdjustedTime(now), servers, answers, |servers|)
    ensures node.clock.value == ClockAfterSampling(old(node.clock.value), node.serverName, servers, answers, |servers|)
  {
    samples := map[node.serverName := node.AdjustedTime(now)];
    var i := 0;
    while i < |servers|
      invariant 0 <= i <= |servers|
      invariant samples == SamplesAfter(node.serverName, node.AdjustedTime(now), servers, answers, i)
      invariant node.clock.value == ClockAfterSampling(old(node.clock.value), node.serverName, servers, answers, i)
    {
      var server := servers[i];
      if server.name != node.serverName {
        match answers(i) {
          case NoConnection =>
          case NoReply =>
            var _ := node.clock.Increment();
          case Answered(time, received) =>
            var _ := node.clock.Increment();
            var _ := node.clock.Update(received);
            samples := samples[server.name := time];
        }
      }
      i := i + 1;
    }
  }

  // ---------------------------------------------------------------------------
  // Distribution

  /** How many list entries carry the name. */
  function Occurrences(servers: seq<ServerInfo>, name: string): nat
  {
    if servers == [] then 0
    else Occurrences(servers[..|servers| - 1], name) + (if servers[|servers| - 1].name == name then 1 else 0)
  }

  lemma OccurrencesStep(servers: seq<ServerInfo>, i: nat, name: string)
    requires i < |servers|
    ensures Occurrences(servers[..i + 1], name) ==
            Occurrences(servers[..i], name) + (if servers[i].name == name then 1 else 0)
  {
    assert servers[..i + 1][..i] == servers[..i];
  }

  /** A server other than the coordinator that was sampled and can be connected to. */
  predicate Receives(self: string, unreachable: set<string>, samples: map<string, int>, name: string)
  {
    name != self && name !in unreachable && name in samples
  }

  /** The names the first n list entries send to, in list order, one per entry naming a server that Receives. */
  function Recipients(self: string, unreachable: set<string>, samples: map<string, int>, servers: seq<ServerInfo>, n: nat)
    : seq<string>
    requires n <= |servers|
  {
    if n == 0 then []
    else Recipients(self, unreachable, samples, servers, n - 1)
         + (if Receives(self, unreachable, samples, servers[n - 1].name) then [servers[n - 1].name] else [])
  }

  /** The targets of the messages, in sending order. */
  function Targets(sent: seq<AdjustMessage>): (t: seq<string>)
    ensures |t| == |sent| && forall k :: 0 <= k < |sent| ==> t[k] == sent[k].target
  {
    seq(|sent|, k requires 0 <= k < |sent| => sent[k].target)
  }

  /** A list entry naming a receiving server contributes its name to the recipients. */
  lemma {:induction false} RecipientsCover(self: string, unreachable: set<string>, samples: map<string, int>,
                                           servers: seq<ServerInfo>, n: nat, i: nat)
    requires i < n <= |servers| && Receives(self, unreachable, samples, servers[i].name)
    ensures servers[i].name in Recipients(self, unreachable, samples, servers, n)
  {
    if i < n - 1 {
      RecipientsCover(self, unreachable, samples, servers, n - 1, i);
    }
  }

  /** Every recipient is a receiving server. */
  lemma {:induction false} RecipientsReceive(self: string, unreachable: set<string>, samples: map<string, int>,
                                             servers: seq<ServerInfo>, n: nat)
    requires n <= |servers|
    ensures forall name :: name in Recipients(self, unreachable, samples, servers, n) ==>
      Receives(self, unreachable, samples, name)
  {
    if n > 0 {
      RecipientsReceive(self, unreachable, samples, servers, n - 1);
    }
  }

  /**
   * The distribution loop, with the intended adjustment: every list entry
   * naming this server adds its own adjustment to the offset; every other
   * entry naming a server that was sampled and can be connected to is sent
   * that server's adjustment, each message stamped with a fresh tick.
   */
  method DistributeAdjustments(node: ChatNode, servers: seq<ServerInfo>, samples: map<string, int>, avg: int,
                               unreachable: set<string>) returns (sent: seq<AdjustMessage>)
    requires node.serverName in samples
    modifies node`timeOffset, node.clock
    ensures node.timeOffset ==
      old(node.timeOffset) + Occurrences(servers, node.serverName) * (avg - samples[node.serverName])
    ensures node.clock.value == old(node.clock.value) + |sent|
    ensures Targets(sent) == Recipients(node.serverName, unreachable, samples, servers, |servers|)
    ensures forall k :: 0 <= k < |sent| ==>
      && Receives(node.serverName, unreachable, samples, sent[k].target)
      && samples[sent[k].target] + sent[k].adjustment == avg
      && sent[k].clock == old(node.clock.value) + k + 1
    ensures forall i :: 0 <= i < |servers| && Receives(node.serverName, unreachable, samples, servers[i].name) ==>
      exists k :: 0 <= k < |sent| && sent[k].target == servers[i].name
  {
    var self := node.serverName;
    ghost var offset0, clock0 := node.timeOffset, node.clock.value;
    ghost var own := avg - samples[self];
    ghost var hits := 0;
    sent := [];
    var i := 0;
    while i < |servers|
      invariant 0 <= i <= |servers|
      invariant hits == Occurrences(servers[..i], self)
      invariant node.timeOffset == offset0 + hits * own
      invariant node.clock.value == clock0 + |sent|
      invariant Targets(sent) == Recipients(self, unreachable, samples, servers, i)
      invariant forall k :: 0 <= k < |sent| ==>
        && Receives(self, unreachable, samples, sent[k].target)
        && samples[sent[k].target] + sent[k].adjustment == avg
        && sent[k].clock == clock0 + k + 1
    {
      var server := servers[i];
      OccurrencesStep(servers, i, self);
      if server.name == self {
        var adjustment := avg - samples[self];
        if adjustment != 0 {
          node.AdjustTime(adjustment);
        }
        MulSucc(hits, own);
        hits := hits + 1;
      } else if server.name !in unreachable {
        var adjustment := Adjustment(avg, samples, server.name);
        if adjustment.Some? {
          var c := node.clock.Increment();
          var m := AdjustMessage(server.name, adjustment.value, c);
          assert Targets(sent + [m]) == Targets(sent) + [m.target];
          sent := sent + [m];
        }
      }
      i := i + 1;
    }
    assert servers[..i] == servers;
    DistributionCoversReceivers(self, unreachable, samples, servers, sent);
  }

  /**
   * Every entry naming a reachable, sampled server other than this one is
   * sent exactly one message, so a server listed once receives one.
   */
  lemma DistributionCoversReceivers(self: string, unreachable: set<string>, samples: map<string, int>,
                                    servers: seq<ServerInfo>, sent: seq<AdjustMessage>)
    requires Targets(sent) == Recipients(self, unreachable, samples, servers, |servers|)
    ensures forall i :: 0 <= i < |servers| && Receives(self, unreachable, samples, servers[i].name) ==>
      exists k :: 0 <= k < |sent| && sent[k].target == servers[i].name
  {
    forall i | 0 <= i < |servers| && Receives(self, unreachable, samples, servers[i].name)
      ensures exists k :: 0 <= k < |sent| && sent[k].target == servers[i].name
    {
      RecipientsCover(self, unreachable, samples, servers, |servers|, i);
      var k :| 0 <= k < |Targets(sent)| && Targets(sent)[k] == servers[i].name;
    }
  }

  /**
   * berkeleyCoordinator with the intended adjustment: fetch the list (an
   * error ends the round); with at most one listed server stop there;
   * otherwise sample the times, average them and distribute the
   * adjustments.  A sampling exchange with list entry i ends as
   * answers(i).
   */
  method BerkeleyRound(node: ChatNode, answer: Option<ListReply>, now: int, answers: nat -> ClockAnswer,
                       unreachable: set<string>) returns (sent: seq<AdjustMessage>, failed: bool)
    modifies node`timeOffset, node.clock
    ensures failed <==> answer.None?
    ensures answer.None? ==>
      sent == [] && node.timeOffset == old(node.timeOffset) && node.clock.value == Tick(old(node.clock.value))
    ensures answer.Some? && |answer.value.list| <= 1 ==>
      && sent == [] && node.timeOffset == old(node.timeOffset)
      && node.clock.value == Observe(Tick(old(node.clock.value)), answer.value.clock)
    ensures answer.Some? && |answer.value.list| > 1 ==>
      var servers := answer.value.list;
      var samples := SamplesAfter(node.serverName, old(node.AdjustedTime(now)), servers, answers, |servers|);
      var sampled := ClockAfterSampling(Observe(Tick(old(node.clock.value)), answer.value.clock),
                                        node.serverName, servers, answers, |servers|);
      var avg := GoDiv(Sum(samples), |samples|);
      && node.timeOffset ==
           old(node.timeOffset) + Occurrences(servers, node.serverName) * (avg - samples[node.serverName])
      && node.clock.value == sampled + |sent|
      && Targets(sent) == Recipients(node.serverName, unreachable, samples, servers, |servers|)
      && (forall k :: 0 <= k < |sent| ==>
            && Receives(node.serverName, unreachable, samples, sent[k].target)
            && samples[sent[k].target] + sent[k].adjustment == avg
            && sent[k].clock == sampled + k + 1)
      && (forall i :: 0 <= i < |servers| && Receives(node.serverName, unreachable, samples, servers[i].name) ==>
            exists k :: 0 <= k < |sent| && sent[k].target == servers[i].name)
  {
    sent, failed := [], false;
    var list := node.FetchServerList(answer);
    if list.None? {
      failed := true;
      return;
    }
    var servers := list.value;
    if |servers| <= 1 {
      return;
    }
    var samples := SampleTimes(node, servers, now, answers);
    var avg := AverageTime(samples);
    sent := DistributeAdjustments(node, servers, samples, avg, unreachable);
  }
}
