/**
 * The reference server's request loop: merge the inbound clock, dispatch on
 * the service name to the rank, list or heartbeat handler (or reply with an
 * unknown-service error), and run the eviction every 100 messages.  Every
 * reply, success or error, carries the timestamp and a freshly ticked clock.
 */
module ReferenceServer {
  import opened Options
  import opened Clock
  import opened Registry

  /** Eviction runs whenever the processed-message count is a multiple of this. */
  const CleanupEvery: int := 100

  /** The fields of request['data'] that the handlers read. */
  datatype RequestData = RequestData(user: Option<string>, clock: Option<int>)

  /** A decoded request: 'service' and 'data' are both optional keys. */
  datatype Request = Request(service: Option<string>, data: Option<RequestData>)

  /** The service-specific part of a reply's 'data'. */
  datatype Payload =
    | Ranked(rank: int)
    | Listed(list: seq<ServerInfo>)
    | Status(status: string)
    | Failure(error: string)

  /** A reply: 'service' and a 'data' map that always holds 'timestamp' and 'clock'. */
  datatype Response = Response(service: Option<string>, payload: Payload, timestamp: int, clock: int)

  /** request['data']['user'], if both keys are present. */
  function UserOf(req: Request): Option<string>
  {
    if req.data.Some? then req.data.value.user else None
  }

  /** str() of the KeyError raised by request['data']['user'] when a key is missing. */
  function MissingKeyError(req: Request): string
  {
    if req.data.None? then "'data'" else "'user'"
  }

  /** The error text for a service the loop does not know; Python renders a missing one as None. */
  function UnknownServiceError(service: Option<string>): string
  {
    "Serviço desconhecido: " + match service case Some(s) => s case None => "None"
  }

  /** The clock after receipt: merged only when data.clock is present. */
  function InboundClock(local: int, req: Request): (c: int)
    ensures c >= local
    ensures req.data.Some? && req.data.value.clock.Some? ==> c > req.data.value.clock.value && c > local
    ensures !(req.data.Some? && req.data.value.clock.Some?) ==> c == local
  {
    if req.data.Some? && req.data.value.clock.Some? then Observe(local, req.data.value.clock.value) else local
  }

  /** What handling req does to the registry (before any periodic cleanup). */
  function Effect(s: RegistryState, req: Request, now: int): (t: RegistryState)
    ensures WellFormed(s) ==> WellFormed(t)
    ensures t.nextRank >= s.nextRank
  {
    if req.service == Some("rank") && UserOf(req).Some? then Register(s, UserOf(req).value, now)
    else if req.service == Some("heartbeat") && UserOf(req).Some? then Heartbeat(s, UserOf(req).value, now)
    else s
  }

  /** Handling req inserts a new record (and so triggers a save). */
  predicate IsNewRegistration(s: RegistryState, req: Request)
  {
    req.service == Some("rank") && UserOf(req).Some? && UserOf(req).value !in s.servers
  }

  /** The payload the loop answers req with, given the registry state it was handled in. */
  predicate Answers(s: RegistryState, req: Request, now: int, p: Payload)
  {
    if req.service == Some("rank") then
      if UserOf(req).Some? then p == Ranked(RankFor(s, UserOf(req).value)) else p == Failure(MissingKeyError(req))
    else if req.service == Some("list") then
      p.Listed? && IsActiveListing(p.list, s.servers, now)
    else if req.service == Some("heartbeat") then
      if UserOf(req).Some? then p == Status("OK") else p == Failure(MissingKeyError(req))
    else
      p == Failure(UnknownServiceError(req.service))
  }

  /** A heartbeat is answered OK even from a server the registry does not know. */
  lemma HeartbeatAlwaysOk(s: RegistryState, req: Request, now: int, p: Payload)
    requires req.service == Some("heartbeat") && UserOf(req).Some?
    requires Answers(s, req, now, p)
    ensures p == Status("OK")
    ensures UserOf(req).value !in s.servers ==> Effect(s, req, now) == s
  {
  }

  /** Only rank registers; no other request grows the registry or hands out a rank. */
  lemma OnlyRankRegisters(s: RegistryState, req: Request, now: int)
    requires req.service != Some("rank")
    ensures Effect(s, req, now).servers.Keys == s.servers.Keys
    ensures Effect(s, req, now).nextRank == s.nextRank
  {
  }

  /** The reference server process: its registry, its clock and its message counter. */
  class ReferenceServer {
    const registry: ServerRegistry
    const clock: LogicalClock
    var messageCount: int

    /** Start-up: load the snapshot, clock at 0, no messages yet. */
    constructor (file: StoredFile)
      ensures fresh(registry) && fresh(clock)
      ensures registry.State() == Load(file) && registry.disk == file
      ensures clock.value == 0 && messageCount == 0
    {
      registry := new ServerRegistry(file);
      clock := new LogicalClock();
      messageCount := 0;
    }

    /** handle_rank: register data.user and reply with its rank, or with the KeyError text. */
    method HandleRank(req: Request, now: int, save: SaveOutcome) returns (resp: Response)
      modifies registry, clock
      ensures clock.value == Tick(old(clock.value))
      ensures resp.service == Some("rank") && resp.timestamp == now && resp.clock == clock.value
      ensures UserOf(req).Some? ==>
        && resp.payload == Ranked(RankFor(old(registry.State()), UserOf(req).value))
        && registry.State() == Register(old(registry.State()), UserOf(req).value, now)
        && registry.disk == if UserOf(req).value in old(registry.servers) then old(registry.disk)
                            else AfterSave(old(registry.disk), registry.State(), save)
      ensures UserOf(req).None? ==>
        && resp.payload == Failure(MissingKeyError(req))
        && registry.State() == old(registry.State()) && registry.disk == old(registry.disk)
    {
      var user := UserOf(req);
      if user.Some? {
        var rank := registry.RegisterServer(user.value, now, save);
        var c := clock.Increment();
        resp := Response(Some("rank"), Ranked(rank), now, c);
      } else {
        var c := clock.Increment();
        resp := Response(Some("rank"), Failure(MissingKeyError(req)), now, c);
      }
    }

    /** handle_list: reply with the servers heard from in the last 30 s. */
    method HandleList(now: int) returns (resp: Response)
      modifies clock
      ensures clock.value == Tick(old(clock.value))
      ensures resp.service == Some("list") && resp.timestamp == now && resp.clock == clock.value
      ensures resp.payload.Listed? && IsActiveListing(resp.payload.list, registry.servers, now)
    {
      var list := registry.GetServerList(now);
      var c := clock.Increment();
      resp := Response(Some("list"), Listed(list), now, c);
    }

    /** handle_heartbeat: refresh data.user if it is known; the reply is OK either way. */
    method HandleHeartbeat(req: Request, now: int) returns (resp: Response)
      modifies registry`servers, clock
      ensures clock.value == Tick(old(clock.value))
      ensures resp.service == Some("heartbeat") && resp.timestamp == now && resp.clock == clock.value
      ensures UserOf(req).Some? ==>
        resp.payload == Status("OK") && registry.State() == Heartbeat(old(registry.State()), UserOf(req).value, now)
      ensures UserOf(req).None? ==>
        resp.payload == Failure(MissingKeyError(req)) && registry.State() == old(registry.State())
    {
      var user := UserOf(req);
      if user.Some? {
        var _ := registry.UpdateHeartbeat(user.value, now);
        var c := clock.Increment();
        resp := Response(Some("heartbeat"), Status("OK"), now, c);
      } else {
        var c := clock.Increment();
        resp := Response(Some("heartbeat"), Failure(MissingKeyError(req)), now, c);
      }
    }

    /**
     * One iteration of main's loop: receive, merge clock, dispatch, reply,
     * count, maybe clean up.  A new registration's save ends as registerSave;
     * the cleanup's k-th save as cleanupSaves(k); `evicted` is the order in
     * which the cleanup deleted the stale names.
     */
    method Step(req: Request, now: int, registerSave: SaveOutcome, cleanupSaves: nat -> SaveOutcome)
      returns (resp: Response, ghost evicted: seq<string>)
      modifies this, registry, clock
      ensures resp.service == req.service && resp.timestamp == now
      ensures clock.value == Tick(InboundClock(old(clock.value), req)) && resp.clock == clock.value
      ensures Answers(old(registry.State()), req, now, resp.payload)
      ensures messageCount == old(messageCount) + 1
      ensures registry.State() ==
        if messageCount % CleanupEvery == 0 then Evict(Effect(old(registry.State()), req, now), now)
        else Effect(old(registry.State()), req, now)
      ensures messageCount % CleanupEvery == 0 ==> Enumerates(evicted, StaleNames(Effect(old(registry.State()), req, now), now))
      ensures messageCount % CleanupEvery != 0 ==> evicted == []
      ensures registry.disk ==
        var handledDisk := if IsNewRegistration(old(registry.State()), req)
                           then AfterSave(old(registry.disk), Effect(old(registry.State()), req, now), registerSave)
                           else old(registry.disk);
        AfterRemovals(handledDisk, Effect(old(registry.State()), req, now), evicted, cleanupSaves, 0)
    {
      ghost var s0, d0 := registry.State(), registry.disk;
      if req.data.Some? && req.data.value.clock.Some? {
        var _ := clock.Update(req.data.value.clock.value);
      }
      var service := req.service;
      if service == Some("rank") {
        resp := HandleRank(req, now, registerSave);
      } else if service == Some("list") {
        resp := HandleList(now);
      } else if service == Some("heartbeat") {
        resp := HandleHeartbeat(req, now);
      } else {
        var c := clock.Increment();
        resp := Response(service, Failure(UnknownServiceError(service)), now, c);
      }
      ghost var handled := Effect(s0, req, now);
      assert registry.State() == handled;
      assert registry.disk == if IsNewRegistration(s0, req) then AfterSave(d0, handled, registerSave) else d0;
      messageCount := messageCount + 1;
      evicted := [];
      if messageCount % CleanupEvery == 0 {
        evicted := registry.CleanupInactiveServers(now, cleanupSaves);
      }
    }
  }
}
