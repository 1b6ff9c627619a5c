/**
 * The state of one chat server process and the request handlers that the
 * current server (server/main.go) and its older variant (src/server/main.go)
 * share line for line: the persisted logins, channels and messages, the
 * frames handed to the broker, the Berkeley time offset and the message
 * counter that paces coordinator checks.  Requests arrive already decoded;
 * a clock field missing from the wire decodes to Go's zero value 0.
 */
module ChatNode {
  import opened Options
  import opened Clock
  import opened Registry

  /** A coordinator check is due on every SyncEvery-th message. */
  const SyncEvery: int := 10

  const Success: string := "sucesso"
  const Erro: string := "erro"
  const Ok: string := "OK"

  datatype UserLogin = UserLogin(username: string, timestamp: int)
  datatype ChannelMessage = ChannelMessage(user: string, channel: string, message: string, timestamp: int)
  datatype UserMessage = UserMessage(src: string, dst: string, message: string, timestamp: int)

  /** The four slices saved to the data file. */
  datatype PersistentData = PersistentData(
    logins: seq<UserLogin>,
    channels: seq<string>,
    channelMessages: seq<ChannelMessage>,
    userMessages: seq<UserMessage>)

  /** What a missing data file loads as. */
  function EmptyData(): PersistentData
  {
    PersistentData([], [], [], [])
  }

  /** The data file as found at start-up: absent, decodable, or unreadable or undecodable. */
  datatype DataFile = Missing | Present(content: PersistentData) | Broken

  /**
   * loadData: a missing file starts empty data and saves it at once.  None
   * is the error that stops the process: an unreadable or undecodable
   * file, or a failed first save.
   */
  function LoadData(f: DataFile, save: IoResult): (d: Option<PersistentData>)
    ensures d.None? <==> f.Broken? || (f.Missing? && save.IoError?)
    ensures f.Missing? && save.Done? ==> d == Some(EmptyData()) && d.value.logins == [] && d.value.channels == []
    ensures f.Present? ==> d == Some(f.content)
  {
    match f
    case Missing => if save.Done? then Some(EmptyData()) else None
    case Present(content) => Some(content)
    case Broken => None
  }

  /** The payloads published to the broker. */
  datatype Publication = Publication(user: string, message: string, timestamp: int, clock: int)
  datatype DirectMessage = DirectMessage(from: string, message: string, timestamp: int, clock: int)

  /** A two-frame message sent on the PUB socket: topic, then payload. */
  datatype Frame =
    | ToChannel(topic: string, publication: Publication)
    | ToUser(topic: string, direct: DirectMessage)

  /** The outcome of an I/O call that is not modelled: success, or an error and its text. */
  datatype IoResult = Done | IoError(reason: string)

  datatype Stamp = Stamp(timestamp: int, clock: int)
  datatype ChannelRequest = ChannelRequest(channel: string, timestamp: int, clock: int)
  datatype PublishRequest = PublishRequest(user: string, channel: string, message: string, timestamp: int, clock: int)
  datatype MessageRequest = MessageRequest(src: string, dst: string, message: string, timestamp: int, clock: int)
  datatype AdjustRequest = AdjustRequest(adjustment: int, timestamp: int, clock: int)
  datatype LoginRequest = LoginRequest(user: string, timestamp: int, clock: int)

  /** The reference server's answer to a list request: the active servers and its clock. */
  datatype ListReply = ListReply(list: seq<ServerInfo>, clock: int)

  /** The replies; `note` is the description or message field, "" when omitted. */
  datatype Reply =
    | StatusReply(service: string, status: string, note: string, timestamp: int, clock: int)
    | UsersReply(users: seq<string>, timestamp: int, clock: int)
    | ChannelsReply(channels: seq<string>, timestamp: int, clock: int)
    | TimeReply(time: int, timestamp: int, clock: int)

  /** Some login in the list carries this user name. */
  predicate HasUser(logins: seq<UserLogin>, name: string)
  {
    exists i :: 0 <= i < |logins| && logins[i].username == name
  }

  predicate NoDuplicates(names: seq<string>)
  {
    forall i, j :: 0 <= i < j < |names| ==> names[i] != names[j]
  }

  /** No user name has two logins. */
  predicate DistinctLogins(logins: seq<UserLogin>)
  {
    forall i, j :: 0 <= i < j < |logins| ==> logins[i].username != logins[j].username
  }

  /** Appending a login for a user with none keeps the names distinct. */
  lemma NewLoginKeepsDistinct(logins: seq<UserLogin>, login: UserLogin)
    requires DistinctLogins(logins) && !HasUser(logins, login.username)
    ensures DistinctLogins(logins + [login])
  {
    var l := logins + [login];
    forall i, j | 0 <= i < j < |l|
      ensures l[i].username != l[j].username
    {
      if j == |logins| {
        assert l[i] == logins[i];
      }
    }
  }

  /** checkAndSyncIfNeeded's counter step: count one message, wrap to 0 on reaching SyncEvery. */
  function NextCounter(c: int): (r: int)
    ensures 0 <= c < SyncEvery ==> 0 <= r < SyncEvery
    ensures 0 <= c ==> (r == 0 <==> c + 1 >= SyncEvery)
  {
    if c + 1 >= SyncEvery then 0 else c + 1
  }

  /** The counter after n messages, starting from 0. */
  function CounterAfter(n: nat): int
  {
    if n == 0 then 0 else NextCounter(CounterAfter(n - 1))
  }

  /** After n messages the counter is n mod 10, so a check is due exactly on every 10th message. */
  lemma {:induction false} CounterCadence(n: nat)
    ensures CounterAfter(n) == n % SyncEvery
  {
    if n > 0 {
      CounterCadence(n - 1);
    }
  }

  class ChatNode {
    /** SERVER_NAME */
    const serverName: string
    const clock: LogicalClock
    var data: PersistentData
    /** Every frame handed to the PUB socket, in order. */
    var outbox: seq<Frame>
    /** The Berkeley adjustment added to the wall clock, in seconds. */
    var timeOffset: int
    var messageCounter: int
    var coordinatorName: string

    /** Start-up: main stops with log.Fatalf when loadData fails, so only a successful load starts a server. */
    constructor (name: string, f: DataFile, save: IoResult)
      requires LoadData(f, save).Some?
      ensures serverName == name && fresh(clock) && clock.value == 0
      ensures data == LoadData(f, save).value && outbox == [] && timeOffset == 0 && messageCounter == 0
      ensures coordinatorName == ""
    {
      serverName := name;
      clock := new LogicalClock();
      data := LoadData(f, save).value;
      outbox := [];
      timeOffset := 0;
      messageCounter := 0;
      coordinatorName := "";
    }

    /** getAdjustedTime: the wall clock plus the Berkeley offset. */
    function AdjustedTime(now: int): int
      reads this
    {
      now + timeOffset
    }

    /** userExists: a linear scan of the logins. */
    method UserExists(username: string) returns (found: bool)
      ensures found == HasUser(data.logins, username)
    {
      var logins := data.logins;
      var i := 0;
      while i < |logins|
        invariant 0 <= i <= |logins|
        invariant forall k :: 0 <= k < i ==> logins[k].username != username
      {
        if logins[i].username == username {
          return true;
        }
        i := i + 1;
      }
      return false;
    }

    /** channelExists: a linear scan of the channel names. */
    method ChannelExists(channel: string) returns (found: bool)
      ensures found == (channel in data.channels)
    {
      var channels := data.channels;
      var i := 0;
      while i < |channels|
        invariant 0 <= i <= |channels|
        invariant forall k :: 0 <= k < i ==> channels[k] != channel
      {
        if channels[i] == channel {
          return true;
        }
        i := i + 1;
      }
      return false;
    }

    /** getUniqueUsers: every user name that has a login, each exactly once, in no particular order. */
    method UniqueUsers() returns (users: seq<string>)
      ensures NoDuplicates(users)
      ensures forall u :: u in users <==> HasUser(data.logins, u)
    {
      var logins := data.logins;
      var userMap: set<string> := {};
      var i := 0;
      while i < |logins|
        invariant 0 <= i <= |logins|
        invariant forall u :: u in userMap <==> exists k :: 0 <= k < i && logins[k].username == u
      {
        userMap := userMap + {logins[i].username};
        i := i + 1;
      }
      users := [];
      var pending := userMap;
      while pending != {}
        invariant pending <= userMap
        invariant NoDuplicates(users)
        invariant forall u :: u in users <==> u in userMap && u !in pending
        decreases pending
      {
        var u :| u in pending;
        users := users + [u];
        pending := pending - {u};
      }
    }

    /** adjustTime: add the adjustment to the offset. */
    method AdjustTime(adjustment: int)
      modifies this`timeOffset
      ensures timeOffset == old(timeOffset) + adjustment
    {
      timeOffset := timeOffset + adjustment;
    }

    /** Count one processed message; a coordinator check is due when the counter wraps. */
    method CountMessage() returns (due: bool)
      modifies this`messageCounter
      ensures messageCounter == NextCounter(old(messageCounter))
      ensures due == (old(messageCounter) + 1 >= SyncEvery)
    {
      messageCounter := messageCounter + 1;
      due := messageCounter >= SyncEvery;
      if due {
        messageCounter := 0;
      }
    }

    /**
     * The login step both servers share once the name to register is fixed:
     * refuse an empty or taken name with no change; otherwise append exactly
     * one login, which stays even when saving fails.
     */
    method LoginAs(name: string, req: LoginRequest, now: int, save: IoResult) returns (reply: Reply)
      modifies this`data, clock
      ensures clock.value == Tick(Observe(old(clock.value), req.clock))
      ensures reply.StatusReply? && reply.service == "login" && reply.timestamp == now && reply.clock == clock.value
      ensures name == "" ==>
        reply.status == Erro && reply.note == "Nome de usuário não pode ser vazio" && data == old(data)
      ensures name != "" && HasUser(old(data.logins), name) ==>
        reply.status == Erro && reply.note == "Usuário já existe" && data == old(data)
      ensures name != "" && !HasUser(old(data.logins), name) ==>
        && data == old(data).(logins := old(data.logins) + [UserLogin(name, req.timestamp)])
        && (save.Done? ==> reply.status == Success && reply.note == "")
        && (save.IoError? ==> reply.status == Erro && reply.note == "Erro ao salvar dados: " + save.reason)
      ensures DistinctLogins(old(data.logins)) ==> DistinctLogins(data.logins)
    {
      var _ := clock.Update(req.clock);
      var c := clock.Increment();
      var taken := UserExists(name);
      if name == "" {
        reply := StatusReply("login", Erro, "Nome de usuário não pode ser vazio", now, c);
      } else if taken {
        reply := StatusReply("login", Erro, "Usuário já existe", now, c);
      } else {
        if DistinctLogins(data.logins) {
          NewLoginKeepsDistinct(data.logins, UserLogin(name, req.timestamp));
        }
        data := data.(logins := data.logins + [UserLogin(name, req.timestamp)]);
        if save.IoError? {
          reply := StatusReply("login", Erro, "Erro ao salvar dados: " + save.reason, now, c);
        } else {
          reply := StatusReply("login", Success, "", now, c);
        }
      }
    }

    /**
     * getServerList: stamp the request with a tick; when a reply arrives,
     * merge its clock and return its list.  None stands for any send,
     * receive or decode failure after the stamp.
     */
    method FetchServerList(answer: Option<ListReply>) returns (list: Option<seq<ServerInfo>>)
      modifies clock
      ensures answer.None? ==> list.None? && clock.value == Tick(old(clock.value))
      ensures answer.Some? ==>
        list == Some(answer.value.list) && clock.value == Observe(Tick(old(clock.value)), answer.value.clock)
    {
      var _ := clock.Increment();
      if answer.None? {
        return None;
      }
      var _ := clock.Update(answer.value.clock);
      list := Some(answer.value.list);
    }

    /** handleUsers: the unique user names. */
    method HandleUsers(req: Stamp, now: int) returns (reply: Reply)
      modifies clock
      ensures clock.value == Tick(Observe(old(clock.value), req.clock))
      ensures reply.UsersReply? && reply.timestamp == now && reply.clock == clock.value
      ensures NoDuplicates(reply.users) && forall u :: u in reply.users <==> HasUser(data.logins, u)
    {
      var _ := clock.Update(req.clock);
      var c := clock.Increment();
      var users := UniqueUsers();
      reply := UsersReply(users, now, c);
    }

    /** handleChannels: the channel names, in creation order. */
    method HandleChannels(req: Stamp, now: int) returns (reply: Reply)
      modifies clock
      ensures clock.value == Tick(Observe(old(clock.value), req.clock))
      ensures reply == ChannelsReply(data.channels, now, clock.value)
    {
      var _ := clock.Update(req.clock);
      var c := clock.Increment();
      reply := ChannelsReply(data.channels, now, c);
    }

    /**
     * handleChannel: an empty or existing name is refused with no change;
     * otherwise the channel is appended, and kept even when saving fails.
     */
    method HandleChannel(req: ChannelRequest, now: int, save: IoResult) returns (reply: Reply)
      modifies this`data, clock
      ensures clock.value == Tick(Observe(old(clock.value), req.clock))
      ensures reply.StatusReply? && reply.service == "channel" && reply.timestamp == now && reply.clock == clock.value
      ensures req.channel == "" ==>
        reply.status == Erro && reply.note == "Nome do canal não pode ser vazio" && data == old(data)
      ensures req.channel != "" && req.channel in old(data.channels) ==>
        reply.status == Erro && reply.note == "Canal já existe" && data == old(data)
      ensures req.channel != "" && req.channel !in old(data.channels) ==>
        && data == old(data).(channels := old(data.channels) + [req.channel])
        && (save.Done? ==> reply.status == Success && reply.note == "")
        && (save.IoError? ==> reply.status == Erro && reply.note == "Erro ao salvar dados: " + save.reason)
      ensures NoDuplicates(old(data.channels)) ==> NoDuplicates(data.channels)
    {
      var _ := clock.Update(req.clock);
      var c := clock.Increment();
      var exists_ := ChannelExists(req.channel);
      if req.channel == "" {
        reply := StatusReply("channel", Erro, "Nome do canal não pode ser vazio", now, c);
      } else if exists_ {
        reply := StatusReply("channel", Erro, "Canal já existe", now, c);
      } else {
        data := data.(channels := data.channels + [req.channel]);
        if save.IoError? {
          reply := StatusReply("channel", Erro, "Erro ao salvar dados: " + save.reason, now, c);
        } else {
          reply := StatusReply("channel", Success, "", now, c);
        }
      }
    }

    /**
     * handlePublish: refuse an unknown channel, then an empty message, with
     * nothing appended; otherwise stamp the publication with a second tick,
     * hand it to the broker under the channel's topic and, if that worked,
     * append the channel message.  A failed save is only logged.
     */
    method HandlePublish(req: PublishRequest, now: int, send: IoResult) returns (reply: Reply)
      modifies this`data, this`outbox, clock
      ensures reply.StatusReply? && reply.service == "publish" && reply.timestamp == now
      ensures reply.clock == Tick(Observe(old(clock.value), req.clock))
      ensures req.channel !in old(data.channels) ==>
        && reply.status == Erro && reply.note == "Canal não existe"
        && data == old(data) && outbox == old(outbox) && clock.value == reply.clock
      ensures req.channel in old(data.channels) && req.message == "" ==>
        && reply.status == Erro && reply.note == "Mensagem não pode ser vazia"
        && data == old(data) && outbox == old(outbox) && clock.value == reply.clock
      ensures req.channel in old(data.channels) && req.message != "" ==>
        && clock.value == reply.clock + 1
        && (send.Done? ==>
              && reply.status == Ok && reply.note == ""
              && outbox == old(outbox) + [ToChannel(req.channel, Publication(req.user, req.message, req.timestamp, clock.value))]
              && data == old(data).(channelMessages := old(data.channelMessages) +
                                      [ChannelMessage(req.user, req.channel, req.message, req.timestamp)]))
        && (send.IoError? ==>
              && reply.status == Erro && reply.note == "Erro ao publicar mensagem: " + send.reason
              && data == old(data) && outbox == old(outbox))
    {
      var _ := clock.Update(req.clock);
      var c := clock.Increment();
      var known := ChannelExists(req.channel);
      if !known {
        return StatusReply("publish", Erro, "Canal não existe", now, c);
      }
      if req.message == "" {
        return StatusReply("publish", Erro, "Mensagem não pode ser vazia", now, c);
      }
      var pubClock := clock.Increment();
      var pub := Publication(req.user, req.message, req.timestamp, pubClock);
      if send.IoError? {
        return StatusReply("publish", Erro, "Erro ao publicar mensagem: " + send.reason, now, c);
      }
      outbox := outbox + [ToChannel(req.channel, pub)];
      data := data.(channelMessages := data.channelMessages + [ChannelMessage(req.user, req.channel, req.message, req.timestamp)]);
      reply := StatusReply("publish", Ok, "", now, c);
    }

    /**
     * handleMessage: refuse an unknown destination user, then an empty
     * message, with nothing appended; otherwise publish the direct message
     * under the destination's topic and append it.
     */
    method HandleMessage(req: MessageRequest, now: int, send: IoResult) returns (reply: Reply)
      modifies this`data, this`outbox, clock
      ensures reply.StatusReply? && reply.service == "message" && reply.timestamp == now
      ensures reply.clock == Tick(Observe(old(clock.value), req.clock))
      ensures !HasUser(old(data.logins), req.dst) ==>
        && reply.status == Erro && reply.note == "Usuário de destino não existe"
        && data == old(data) && outbox == old(outbox) && clock.value == reply.clock
      ensures HasUser(old(data.logins), req.dst) && req.message == "" ==>
        && reply.status == Erro && reply.note == "Mensagem não pode ser vazia"
        && data == old(data) && outbox == old(outbox) && clock.value == reply.clock
      ensures HasUser(old(data.logins), req.dst) && req.message != "" ==>
        && clock.value == reply.clock + 1
        && (send.Done? ==>
              && reply.status == Ok && reply.note == ""
              && outbox == old(outbox) + [ToUser(req.dst, DirectMessage(req.src, req.message, req.timestamp, clock.value))]
              && data == old(data).(userMessages := old(data.userMessages) +
                                      [UserMessage(req.src, req.dst, req.message, req.timestamp)]))
        && (send.IoError? ==>
              && reply.status == Erro && reply.note == "Erro ao enviar mensagem: " + send.reason
              && data == old(data) && outbox == old(outbox))
    {
      var _ := clock.Update(req.clock);
      var c := clock.Increment();
      var known := UserExists(req.dst);
      if !known {
        return StatusReply("message", Erro, "Usuário de destino não existe", now, c);
      }
      if req.message == "" {
        return StatusReply("message", Erro, "Mensagem não pode ser vazia", now, c);
      }
      var dmClock := clock.Increment();
      var dm := DirectMessage(req.src, req.message, req.timestamp, dmClock);
      if send.IoError? {
        return StatusReply("message", Erro, "Erro ao enviar mensagem: " + send.reason, now, c);
      }
      outbox := outbox + [ToUser(req.dst, dm)];
      data := data.(userMessages := data.userMessages + [UserMessage(req.src, req.dst, req.message, req.timestamp)]);
      reply := StatusReply("message", Ok, "", now, c);
    }

    /** handleClockRequest: report the adjusted time to the coordinator. */
    method HandleClockRequest(req: Stamp, now: int) returns (reply: Reply)
      modifies clock
      ensures clock.value == Tick(Observe(old(clock.value), req.clock))
      ensures reply == TimeReply(AdjustedTime(now), AdjustedTime(now), clock.value)
    {
      var _ := clock.Update(req.clock);
      var t := AdjustedTime(now);
      var c := clock.Increment();
      reply := TimeReply(t, AdjustedTime(now), c);
    }

    /** handleClockAdjustment: apply the coordinator's adjustment, then reply OK with the new adjusted time. */
    method HandleClockAdjustment(req: AdjustRequest, now: int) returns (reply: Reply)
      modifies this`timeOffset, clock
      ensures timeOffset == old(timeOffset) + req.adjustment
      ensures clock.value == Tick(Observe(old(clock.value), req.clock))
      ensures reply == StatusReply("adjust", Ok, "", AdjustedTime(now), clock.value)
    {
      var _ := clock.Update(req.clock);
      AdjustTime(req.adjustment);
      var c := clock.Increment();
      reply := StatusReply("adjust", Ok, "", AdjustedTime(now), c);
    }
  }
}
