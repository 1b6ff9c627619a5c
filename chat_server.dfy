/**
 * What the current chat server (server/main.go) does differently from its
 * older variant: it trims login names, has a handler that applies a
 * replica without creating duplicate users or channels, and picks as coordinator
 * the listed server of highest rank, breaking ties by the greater name.
 */
module ChatServer {
  import opened Options
  import opened Clock
  import opened Registry
  import opened GoStrings
  import opened ChatNode

  /** handleLogin: the trimmed name is what is validated and stored. */
  method HandleLogin(node: ChatNode, req: LoginRequest, now: int, save: IoResult) returns (reply: Reply)
    modifies node`data, node.clock
    ensures node.clock.value == Tick(Observe(old(node.clock.value), req.clock))
    ensures reply.StatusReply? && reply.service == "login" && reply.timestamp == now && reply.clock == node.clock.value
    ensures TrimSpace(req.user) == "" ==>
      reply.status == Erro && reply.note == "Nome de usuário não pode ser vazio" && node.data == old(node.data)
    ensures TrimSpace(req.user) != "" && HasUser(old(node.data.logins), TrimSpace(req.user)) ==>
      reply.status == Erro && reply.note == "Usuário já existe" && node.data == old(node.data)
    ensures TrimSpace(req.user) != "" && !HasUser(old(node.data.logins), TrimSpace(req.user)) ==>
      && node.data == old(node.data).(logins := old(node.data.logins) + [UserLogin(TrimSpace(req.user), req.timestamp)])
      && (save.Done? ==> reply.status == Success && reply.note == "")
      && (save.IoError? ==> reply.status == Erro && reply.note == "Erro ao salvar dados: " + save.reason)
    ensures DistinctLogins(old(node.data.logins)) ==> DistinctLogins(node.data.logins)
  {
    var trimmedUser := TrimSpace(req.user);
    reply := node.LoginAs(trimmedUser, req, now, save);
  }

  /**
   * A replication request after its content has been decoded as the struct
   * its type names; Ignored stands for an unknown type or content that does
   * not decode, both of which leave the data alone.
   */
  datatype Replica =
    | LoginReplica(login: UserLogin)
    | ChannelReplica(channel: string)
    | ChannelMessageReplica(channelMessage: ChannelMessage)
    | UserMessageReplica(userMessage: UserMessage)
    | Ignored(kind: string)

  /** The apply step of handleReplication, on the data alone. */
  function ApplyReplica(d: PersistentData, r: Replica): (e: PersistentData)
    ensures r.LoginReplica? ==>
      e == if HasUser(d.logins, r.login.username) then d else d.(logins := d.logins + [r.login])
    ensures r.ChannelReplica? ==>
      e == if r.channel in d.channels then d else d.(channels := d.channels + [r.channel])
    ensures r.ChannelMessageReplica? ==> e == d.(channelMessages := d.channelMessages + [r.channelMessage])
    ensures r.UserMessageReplica? ==> e == d.(userMessages := d.userMessages + [r.userMessage])
    ensures r.Ignored? ==> e == d
    ensures DistinctLogins(d.logins) ==> DistinctLogins(e.logins)
    ensures NoDuplicates(d.channels) ==> NoDuplicates(e.channels)
  {
    match r
    case LoginReplica(login) =>
      if HasUser(d.logins, login.username) then d
      else
        assert DistinctLogins(d.logins) ==> DistinctLogins(d.logins + [login]) by {
          if DistinctLogins(d.logins) {
            NewLoginKeepsDistinct(d.logins, login);
          }
        }
        d.(logins := d.logins + [login])
    case ChannelReplica(channel) =>
      if channel in d.channels then d else d.(channels := d.channels + [channel])
    case ChannelMessageReplica(cm) => d.(channelMessages := d.channelMessages + [cm])
    case UserMessageReplica(um) => d.(userMessages := d.userMessages + [um])
    case Ignored(_) => d
  }

  /** Delivering the same login or channel replica twice has the effect of delivering it once. */
  lemma ReplicaIdempotent(d: PersistentData, r: Replica)
    requires r.LoginReplica? || r.ChannelReplica? || r.Ignored?
    ensures ApplyReplica(ApplyReplica(d, r), r) == ApplyReplica(d, r)
  {
    if r.LoginReplica? && !HasUser(d.logins, r.login.username) {
      var l := d.logins + [r.login];
      assert l[|d.logins|].username == r.login.username;
    }
  }

  /** After a login or channel replica, the user or channel is present. */
  lemma ReplicaPresent(d: PersistentData, r: Replica)
    ensures r.LoginReplica? ==> HasUser(ApplyReplica(d, r).logins, r.login.username)
    ensures r.ChannelReplica? ==> r.channel in ApplyReplica(d, r).channels
  {
    if r.LoginReplica? && !HasUser(d.logins, r.login.username) {
      var l := d.logins + [r.login];
      assert l[|d.logins|].username == r.login.username;
    }
  }

  /** handleReplication: apply the replica, ignore the save outcome, reply OK with the adjusted time. */
  method HandleReplication(node: ChatNode, r: Replica, reqClock: int, now: int) returns (reply: Reply)
    modifies node`data, node.clock
    ensures node.data == ApplyReplica(old(node.data), r)
    ensures node.clock.value == Tick(Observe(old(node.clock.value), reqClock))
    ensures reply == StatusReply("replicate", Ok, "", node.AdjustedTime(now), node.clock.value)
  {
    var _ := node.clock.Update(reqClock);
    match r {
      case LoginReplica(login) =>
        var known := node.UserExists(login.username);
        if !known {
          node.data := node.data.(logins := node.data.logins + [login]);
        }
      case ChannelReplica(channel) =>
        var known := node.ChannelExists(channel);
        if !known {
          node.data := node.data.(channels := node.data.channels + [channel]);
        }
      case ChannelMessageReplica(cm) =>
        node.data := node.data.(channelMessages := node.data.channelMessages + [cm]);
      case UserMessageReplica(um) =>
        node.data := node.data.(userMessages := node.data.userMessages + [um]);
      case Ignored(_) =>
    }
    var c := node.clock.Increment();
    reply := StatusReply("replicate", Ok, "", node.AdjustedTime(now), c);
  }

  /** a wins over b: a higher rank, or the same rank and a greater name. */
  predicate Outranks(a: ServerInfo, b: ServerInfo)
  {
    a.rank > b.rank || (a.rank == b.rank && Less(b.name, a.name))
  }

  /**
   * What determineCoordinator returns for a list: its own name for an empty
   * list; otherwise the name of a listed server that no other listed server
   * outranks.  Ranks below -1 never beat the starting maximum -1, so a list
   * holding only those yields "".
   */
  predicate IsCoordinator(self: string, servers: seq<ServerInfo>, c: string)
  {
    if servers == [] then c == self
    else if forall k :: 0 <= k < |servers| ==> servers[k].rank < -1 then c == ""
    else exists k :: 0 <= k < |servers| && servers[k].name == c && servers[k].rank >= -1
                     && forall j :: 0 <= j < |servers| ==> !Outranks(servers[j], servers[k])
  }

  /** Outranks is a strict order: a server that beats the current best beats everything the best beat. */
  lemma OutranksChain(a: ServerInfo, b: ServerInfo, s: ServerInfo)
    requires !Outranks(a, b) && Outranks(s, b)
    ensures !Outranks(a, s)
  {
    if a.rank == b.rank && b.rank == s.rank && Less(s.name, a.name) {
      if a.name == b.name {
        LessAsymmetric(b.name, s.name);
      } else {
        LessTotal(a.name, b.name);
        LessTransitive(s.name, a.name, b.name);
        LessAsymmetric(b.name, s.name);
      }
    }
  }

  /** determineCoordinator, given the list getServerList returned. */
  method DetermineCoordinator(self: string, servers: seq<ServerInfo>) returns (coordinator: string)
    ensures IsCoordinator(self, servers, coordinator)
  {
    if |servers| == 0 {
      return self;
    }
    var maxRank := -1;
    coordinator := "";
    var i := 0;
    while i < |servers|
      invariant 0 <= i <= |servers|
      invariant (maxRank == -1 && coordinator == "")
             || exists k :: 0 <= k < i && servers[k] == ServerInfo(coordinator, maxRank)
      invariant maxRank >= -1
      invariant forall j :: 0 <= j < i ==> !Outranks(servers[j], ServerInfo(coordinator, maxRank))
    {
      var server := servers[i];
      if server.rank > maxRank || (server.rank == maxRank && Less(coordinator, server.name)) {
        ghost var best := ServerInfo(coordinator, maxRank);
        forall j | 0 <= j < i
          ensures !Outranks(servers[j], server)
        {
          OutranksChain(servers[j], best, server);
        }
        LessIrreflexive(server.name);
        maxRank := server.rank;
        coordinator := server.name;
      }
      i := i + 1;
    }
  }

  /** IsCoordinator pins the result down: two names it accepts for the same list are equal. */
  lemma CoordinatorUnique(self: string, servers: seq<ServerInfo>, c1: string, c2: string)
    requires IsCoordinator(self, servers, c1) && IsCoordinator(self, servers, c2)
    ensures c1 == c2
  {
    if servers != [] && !forall k :: 0 <= k < |servers| ==> servers[k].rank < -1 {
      var k1 :| 0 <= k1 < |servers| && servers[k1].name == c1 && servers[k1].rank >= -1
                && forall j :: 0 <= j < |servers| ==> !Outranks(servers[j], servers[k1]);
      var k2 :| 0 <= k2 < |servers| && servers[k2].name == c2 && servers[k2].rank >= -1
                && forall j :: 0 <= j < |servers| ==> !Outranks(servers[j], servers[k2]);
      assert !Outranks(servers[k1], servers[k2]) && !Outranks(servers[k2], servers[k1]);
      if c1 != c2 {
        LessTotal(c1, c2);
      }
    }
  }

  /** The coordinator holds the highest rank in the list, whatever the names. */
  lemma CoordinatorHasMaxRank(self: string, servers: seq<ServerInfo>, c: string, k: nat)
    requires IsCoordinator(self, servers, c)
    requires k < |servers| && servers[k].rank >= -1
    ensures exists m :: 0 <= m < |servers| && servers[m].name == c && servers[m].rank >= servers[k].rank
  {
    var m :| 0 <= m < |servers| && servers[m].name == c && servers[m].rank >= -1
             && forall j :: 0 <= j < |servers| ==> !Outranks(servers[j], servers[m]);
    assert !Outranks(servers[k], servers[m]);
  }

  /**
   * checkAndSyncIfNeeded: count the message; on every tenth, fetch the list,
   * and if that worked record the coordinator, and report whether this
   * server must start a Berkeley round.
   */
  method CheckAndSyncIfNeeded(node: ChatNode, answer: Option<ListReply>) returns (startSync: bool)
    modifies node`messageCounter, node`coordinatorName, node.clock
    ensures node.messageCounter == NextCounter(old(node.messageCounter))
    ensures old(node.messageCounter) + 1 < SyncEvery ==>
      && !startSync && node.coordinatorName == old(node.coordinatorName)
      && node.clock.value == old(node.clock.value)
    ensures old(node.messageCounter) + 1 >= SyncEvery && answer.None? ==>
      && !startSync && node.coordinatorName == old(node.coordinatorName)
      && node.clock.value == Tick(old(node.clock.value))
    ensures old(node.messageCounter) + 1 >= SyncEvery && answer.Some? ==>
      && IsCoordinator(node.serverName, answer.value.list, node.coordinatorName)
      && startSync == (node.coordinatorName == node.serverName)
      && node.clock.value == Observe(Tick(old(node.clock.value)), answer.value.clock)
  {
    var due := node.CountMessage();
    startSync := false;
    if due {
      var list := node.FetchServerList(answer);
      if list.Some? {
        var coordinator := DetermineCoordinator(node.serverName, list.value);
        node.coordinatorName := coordinator;
        startSync := coordinator == node.serverName;
      }
    }
  }
}
