/**
 * What the older chat server (src/server/main.go) does differently: login
 * names are taken as sent, without trimming, and the coordinator is the
 * first listed server of greatest positive rank, the server itself when no
 * rank exceeds 0.
 */
module LegacyServer {
  import opened Options
  import opened Clock
  import opened Registry
  import opened ChatNode
  import GoStrings
  import ChatServer

  /** handleLogin: only the exact empty name is refused as empty. */
  method HandleLogin(node: ChatNode, req: LoginRequest, now: int, save: IoResult) returns (reply: Reply)
    modifies node`data, node.clock
    ensures node.clock.value == Tick(Observe(old(node.clock.value), req.clock))
    ensures reply.StatusReply? && reply.service == "login" && reply.timestamp == now && reply.clock == node.clock.value
    ensures req.user == "" ==>
      reply.status == Erro && reply.note == "Nome de usuário não pode ser vazio" && node.data == old(node.data)
    ensures req.user != "" && HasUser(old(node.data.logins), req.user) ==>
      reply.status == Erro && reply.note == "Usuário já existe" && node.data == old(node.data)
    ensures req.user != "" && !HasUser(old(node.data.logins), req.user) ==>
      && node.data == old(node.data).(logins := old(node.data.logins) + [UserLogin(req.user, req.timestamp)])
      && (save.Done? ==> reply.status == Success && reply.note == "")
      && (save.IoError? ==> reply.status == Erro && reply.note == "Erro ao salvar dados: " + save.reason)
    ensures DistinctLogins(old(node.data.logins)) ==> DistinctLogins(node.data.logins)
  {
    reply := node.LoginAs(req.user, req, now, save);
  }

  /**
   * What this determineCoordinator returns: its own name when the list is
   * empty or no rank exceeds 0; otherwise the name at the first index that
   * holds the greatest rank.
   */
  predicate IsCoordinator(self: string, servers: seq<ServerInfo>, c: string)
  {
    if forall k :: 0 <= k < |servers| ==> servers[k].rank <= 0 then c == self
    else exists k :: 0 <= k < |servers| && servers[k].name == c && servers[k].rank > 0
                     && (forall j :: 0 <= j < k ==> servers[j].rank < servers[k].rank)
                     && (forall j :: 0 <= j < |servers| ==> servers[j].rank <= servers[k].rank)
  }

  /** determineCoordinator, given the list getServerList returned. */
  method DetermineCoordinator(self: string, servers: seq<ServerInfo>) returns (coordinator: string)
    ensures IsCoordinator(self, servers, coordinator)
  {
    if |servers| == 0 {
      return self;
    }
    var maxRank := 0;
    coordinator := self;
    ghost var best := -1;
    var i := 0;
    while i < |servers|
      invariant 0 <= i <= |servers|
      invariant maxRank >= 0
      invariant forall j :: 0 <= j < i ==> servers[j].rank <= maxRank
      invariant best == -1 ==> maxRank == 0 && coordinator == self
      invariant best != -1 ==>
        && 0 <= best < i && servers[best].name == coordinator && servers[best].rank == maxRank > 0
        && forall j :: 0 <= j < best ==> servers[j].rank < maxRank
    {
      var server := servers[i];
      if server.rank > maxRank {
        maxRank := server.rank;
        coordinator := server.name;
        best := i;
      }
      i := i + 1;
    }
  }

  /** The first index of greatest rank is unique, so the predicate admits one name. */
  lemma CoordinatorUnique(self: string, servers: seq<ServerInfo>, c1: string, c2: string)
    requires IsCoordinator(self, servers, c1) && IsCoordinator(self, servers, c2)
    ensures c1 == c2
  {
    if !forall k :: 0 <= k < |servers| ==> servers[k].rank <= 0 {
      var k1 :| 0 <= k1 < |servers| && servers[k1].name == c1 && servers[k1].rank > 0
                && (forall j :: 0 <= j < k1 ==> servers[j].rank < servers[k1].rank)
                && (forall j :: 0 <= j < |servers| ==> servers[j].rank <= servers[k1].rank);
      var k2 :| 0 <= k2 < |servers| && servers[k2].name == c2 && servers[k2].rank > 0
                && (forall j :: 0 <= j < k2 ==> servers[j].rank < servers[k2].rank)
                && (forall j :: 0 <= j < |servers| ==> servers[j].rank <= servers[k2].rank);
      assert servers[k1].rank <= servers[k2].rank <= servers[k1].rank;
      assert k1 == k2;
    }
  }

  /**
   * The two servers disagree on a tie: for two servers of rank 2 listed as
   * a then b, the current server elects b and the older one elects a.
   */
  lemma TieBreakDiffers(self: string, c: string, legacy: string)
    requires ChatServer.IsCoordinator(self, [ServerInfo("a", 2), ServerInfo("b", 2)], c)
    requires IsCoordinator(self, [ServerInfo("a", 2), ServerInfo("b", 2)], legacy)
    ensures c == "b" && legacy == "a"
  {
    var l := [ServerInfo("a", 2), ServerInfo("b", 2)];
    assert GoStrings.Less("a", "b");
    assert ChatServer.Outranks(l[1], l[0]);
    assert l[0].rank > 0;
  }

  /**
   * checkAndSyncIfNeeded: count the message; on every tenth, fetch the list,
   * and if that worked record the coordinator, and report whether this
   * server must start a Berkeley round.
   */
  method CheckAndSyncIfNeeded(node: ChatNode, answer: Option<ListReply>) returns (startSync: bool)
    modifies node`messageCounter, node`coordinatorName, node.clock
    ensures node.messageCounter == NextCounter(old(node.messageCounter))
    ensures old(node.messageCounter) + 1 < SyncEvery ==>
      && !startSync && node.coordinatorName == old(node.coordinatorName)
      && node.clock.value == old(node.clock.value)
    ensures old(node.messageCounter) + 1 >= SyncEvery && answer.None? ==>
      && !startSync && node.coordinatorName == old(node.coordinatorName)
      && node.clock.value == Tick(old(node.clock.value))
    ensures old(node.messageCounter) + 1 >= SyncEvery && answer.Some? ==>
      && IsCoordinator(node.serverName, answer.value.list, node.coordinatorName)
      && startSync == (node.coordinatorName == node.serverName)
      && node.clock.value == Observe(Tick(old(node.clock.value)), answer.value.clock)
  {
    var due := node.CountMessage();
    startSync := false;
    if due {
      var list := node.FetchServerList(answer);
      if list.Some? {
        var coordinator := DetermineCoordinator(node.serverName, list.value);
        node.coordinatorName := coordinator;
        startSync := coordinator == node.serverName;
      }
    }
  }
}
