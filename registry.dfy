/**
 * The reference server's registry of chat servers: each server name is given
 * a permanent rank on first registration, its last heartbeat is tracked, it
 * is listed while its heartbeat is less than 30 s old and evicted once it is
 * more than 60 s old.  Time is an integer number of seconds passed in by the
 * caller.
 */
module Registry {
  import opened Options

  /** A server is listed while now - last_heartbeat is below this many seconds. */
  const ActiveWindow: int := 30
  /** A server is evicted once now - last_heartbeat exceeds this many seconds. */
  const StaleWindow: int := 60
  /** The rank handed to the first server of an empty registry. */
  const FirstRank: int := 1

  datatype Record = Record(rank: int, lastHeartbeat: int)

  /** One entry of the list reply: {name, rank}. */
  datatype ServerInfo = ServerInfo(name: string, rank: int)

  /** The registry's whole state: the server map and the next rank to hand out. */
  datatype RegistryState = RegistryState(servers: map<string, Record>, nextRank: int)

  /** nextRank is positive, and the stored ranks are positive, below nextRank and pairwise distinct. */
  predicate WellFormed(s: RegistryState)
  {
    && FirstRank <= s.nextRank
    && (forall n :: n in s.servers ==> FirstRank <= s.servers[n].rank < s.nextRank)
    && (forall a, b :: a in s.servers && b in s.servers && a != b ==> s.servers[a].rank != s.servers[b].rank)
  }

  function Empty(): (s: RegistryState)
    ensures WellFormed(s) && s.servers == map[]
  {
    RegistryState(map[], FirstRank)
  }

  // ---------------------------------------------------------------------------
  // Persistence: the JSON snapshot {"servers": ..., "next_rank": ...}

  /** What load_data can find: no file, a file it cannot parse, or a JSON object whose keys may be missing. */
  datatype StoredFile = NoFile | Unreadable | Json(servers: Option<map<string, Record>>, nextRank: Option<int>)

  /** load_data: missing file, parse error and missing keys all fall back to the empty defaults. */
  function Load(f: StoredFile): (s: RegistryState)
    ensures f.NoFile? || f.Unreadable? ==> s == Empty()
    ensures f.Json? && f.servers.None? ==> s.servers == map[]
    ensures f.Json? && f.nextRank.None? ==> s.nextRank == FirstRank
  {
    match f
    case NoFile => Empty()
    case Unreadable => Empty()
    case Json(servers, nextRank) => RegistryState(servers.GetOr(map[]), nextRank.GetOr(FirstRank))
  }

  /** save_data writes the whole state; reloading it gives that state back. */
  function Snapshot(s: RegistryState): (f: StoredFile)
    ensures Load(f) == s
  {
    Json(Some(s.servers), Some(s.nextRank))
  }

  /**
   * How one call of save_data ends: the snapshot is written; the file cannot
   * be opened, so it stays as it was; or open(..., 'w') truncates it and
   * json.dump then fails, leaving a file load_data cannot parse.  Each error
   * is logged and swallowed.
   */
  datatype SaveOutcome = Written | NotOpened | Truncated

  /** The file after one save_data of state s. */
  function AfterSave(disk: StoredFile, s: RegistryState, o: SaveOutcome): (f: StoredFile)
    ensures o.Written? ==> Load(f) == s
    ensures o.NotOpened? ==> f == disk
    ensures o.Truncated? ==> Load(f) == Empty()
  {
    match o
    case Written => Snapshot(s)
    case NotOpened => disk
    case Truncated => Unreadable
  }

  // ---------------------------------------------------------------------------
  // The registry operations on values

  /** The rank register_server returns: the stored one, or nextRank for a new name. */
  function RankFor(s: RegistryState, name: string): int
  {
    if name in s.servers then s.servers[name].rank else s.nextRank
  }

  /** register_server on values; RegisterEffect states what it does. */
  function Register(s: RegistryState, name: string, now: int): (t: RegistryState)
    ensures WellFormed(s) ==> WellFormed(t)
  {
    var t := RegistryState(s.servers[name := Record(RankFor(s, name), now)],
                           if name in s.servers then s.nextRank else s.nextRank + 1);
    assert WellFormed(s) ==> WellFormed(t) by {
      if WellFormed(s) {
        forall n | n in t.servers
          ensures FirstRank <= t.servers[n].rank < t.nextRank
        {
          if n != name {
            assert t.servers[n] == s.servers[n];
          }
        }
      }
    }
    t
  }

  /**
   * A known name keeps its rank and nextRank; a new one takes nextRank, which
   * moves up by one; either way its heartbeat becomes now and every other
   * record stays as it was.
   */
  lemma RegisterEffect(s: RegistryState, name: string, now: int)
    ensures Register(s, name, now).servers.Keys == s.servers.Keys + {name}
    ensures name in s.servers ==>
      Register(s, name, now).servers[name].rank == s.servers[name].rank && Register(s, name, now).nextRank == s.nextRank
    ensures name !in s.servers ==>
      Register(s, name, now).servers[name].rank == s.nextRank && Register(s, name, now).nextRank == s.nextRank + 1
    ensures Register(s, name, now).servers[name].lastHeartbeat == now
    ensures forall n :: n in s.servers && n != name ==> Register(s, name, now).servers[n] == s.servers[n]
  {
  }

  function Heartbeat(s: RegistryState, name: string, now: int): (t: RegistryState)
    ensures t.servers.Keys == s.servers.Keys && t.nextRank == s.nextRank
    ensures WellFormed(s) ==> WellFormed(t)
  {
    if name in s.servers then RegistryState(s.servers[name := s.servers[name].(lastHeartbeat := now)], s.nextRank)
    else s
  }

  predicate IsActive(r: Record, now: int)
  {
    now - r.lastHeartbeat < ActiveWindow
  }

  predicate IsStale(r: Record, now: int)
  {
    now - r.lastHeartbeat > StaleWindow
  }

  /** list is exactly the active servers, each once, each with its stored rank. */
  predicate IsActiveListing(list: seq<ServerInfo>, servers: map<string, Record>, now: int)
  {
    && (forall i :: 0 <= i < |list| ==>
          list[i].name in servers && list[i].rank == servers[list[i].name].rank && IsActive(servers[list[i].name], now))
    && (forall n :: n in servers && IsActive(servers[n], now) ==> exists i :: 0 <= i < |list| && list[i].name == n)
    && (forall i, j :: 0 <= i < j < |list| ==> list[i].name != list[j].name)
  }

  function StaleNames(s: RegistryState, now: int): set<string>
  {
    set n | n in s.servers && IsStale(s.servers[n], now)
  }

  /** cleanup_inactive_servers on values: drop the stale entries, keep nextRank. */
  function Evict(s: RegistryState, now: int): (t: RegistryState)
    ensures WellFormed(s) ==> WellFormed(t)
  {
    RegistryState(s.servers - StaleNames(s, now), s.nextRank)
  }

  /** The names listed once each, and exactly the names of the set. */
  predicate Enumerates(order: seq<string>, names: set<string>)
  {
    && (forall i, j :: 0 <= i < j < |order| ==> order[i] != order[j])
    && (forall i :: 0 <= i < |order| ==> order[i] in names)
    && (forall n :: n in names ==> n in order)
  }

  /** The state without the listed names. */
  function Without(s: RegistryState, names: seq<string>): RegistryState
  {
    RegistryState(s.servers - (set n | n in names), s.nextRank)
  }

  /**
   * The file after cleanup_inactive_servers deletes the names in this order
   * and saves after every deletion, save number k ending as outcome(k).
   */
  function AfterRemovals(disk: StoredFile, s: RegistryState, names: seq<string>, outcome: nat -> SaveOutcome, k: nat): StoredFile
    decreases |names|
  {
    if names == [] then disk
    else
      var t := RegistryState(s.servers - {names[0]}, s.nextRank);
      AfterRemovals(AfterSave(disk, t, outcome(k)), t, names[1..], outcome, k + 1)
  }

  // ---------------------------------------------------------------------------
  // Properties

  /** Eviction removes exactly the entries older than the stale window and changes nothing else. */
  lemma EvictExactlyStale(s: RegistryState, now: int)
    ensures Evict(s, now).nextRank == s.nextRank
    ensures forall n :: n in Evict(s, now).servers <==> n in s.servers && !IsStale(s.servers[n], now)
    ensures forall n :: n in Evict(s, now).servers ==> Evict(s, now).servers[n] == s.servers[n]
  {
  }

  /**
   * The two windows form a hysteresis: what the list reply shows survives an
   * eviction at the same instant, while servers 30 to 60 seconds old are
   * neither listed nor evicted.
   */
  lemma ListedServersSurviveEviction(list: seq<ServerInfo>, s: RegistryState, now: int)
    requires IsActiveListing(list, s.servers, now)
    ensures forall i :: 0 <= i < |list| ==> list[i].name in Evict(s, now).servers
  {
  }

  /** Registering a name twice in a row returns the same rank and hands out no new one. */
  lemma ReRegistrationIsIdempotent(s: RegistryState, name: string, now: int, later: int)
    ensures RankFor(Register(s, name, now), name) == RankFor(s, name)
    ensures Register(Register(s, name, now), name, later).nextRank == Register(s, name, now).nextRank
  {
  }

  /** A heartbeat never creates a record and never changes a rank. */
  lemma HeartbeatKeepsRanks(s: RegistryState, name: string, now: int)
    ensures forall n :: n in Heartbeat(s, name, now).servers ==> Heartbeat(s, name, now).servers[n].rank == s.servers[n].rank
    ensures name !in s.servers ==> Heartbeat(s, name, now) == s
  {
  }

  /** Re-registering an evicted server allocates a fresh, larger rank: evicted ranks are not reused. */
  lemma EvictedRankNotReused(s: RegistryState, name: string, now: int)
    requires WellFormed(s)
    requires name in s.servers && IsStale(s.servers[name], now)
    ensures RankFor(Evict(s, now), name) == s.nextRank
    ensures RankFor(Evict(s, now), name) > s.servers[name].rank
  {
  }

  /**
   * Only the last of cleanup's saves decides the file: when it is written the
   * file holds the state with every evicted name gone; when it truncates,
   * the file can no longer be parsed.
   */
  lemma {:induction false} LastSaveDecides(disk: StoredFile, s: RegistryState, names: seq<string>,
                                           outcome: nat -> SaveOutcome, k: nat)
    requires names != []
    ensures outcome(k + |names| - 1).Written? ==> AfterRemovals(disk, s, names, outcome, k) == Snapshot(Without(s, names))
    ensures outcome(k + |names| - 1).Truncated? ==> AfterRemovals(disk, s, names, outcome, k) == Unreadable
    decreases |names|
  {
    var t := RegistryState(s.servers - {names[0]}, s.nextRank);
    var rest := names[1..];
    assert (set n | n in names) == {names[0]} + (set n | n in rest) by {
      assert forall n :: n in names <==> n == names[0] || n in rest;
    }
    assert Without(t, rest) == Without(s, names);
    if rest != [] {
      LastSaveDecides(AfterSave(disk, t, outcome(k)), t, rest, outcome, k + 1);
    } else {
      assert (set n | n in rest) == {};
      assert Without(t, rest) == t;
    }
  }

  /** When no save can open the file, cleanup leaves it as it was. */
  lemma {:induction false} UnopenedSavesKeepFile(disk: StoredFile, s: RegistryState, names: seq<string>,
                                                 outcome: nat -> SaveOutcome, k: nat)
    requires forall j :: k <= j ==> outcome(j).NotOpened?
    ensures AfterRemovals(disk, s, names, outcome, k) == disk
    decreases |names|
  {
    if names != [] {
      var t := RegistryState(s.servers - {names[0]}, s.nextRank);
      UnopenedSavesKeepFile(AfterSave(disk, t, outcome(k)), t, names[1..], outcome, k + 1);
    }
  }

  /**
   * Two stale servers, the first save written and the second unable to open
   * the file: the file keeps the second server, which a restart reloads.
   */
  lemma PartialCleanupSurvivesRestart()
    ensures var s := RegistryState(map["x" := Record(1, 0), "y" := Record(2, 0)], 3);
            var outcome := (j: nat) => if j == 0 then Written else NotOpened;
            var f := AfterRemovals(NoFile, s, ["x", "y"], outcome, 0);
            && Load(f) == RegistryState(map["y" := Record(2, 0)], 3)
            && Load(f) != Without(s, ["x", "y"])
  {
    var s := RegistryState(map["x" := Record(1, 0), "y" := Record(2, 0)], 3);
    var t := RegistryState(s.servers - {"x"}, 3);
    assert t.servers == map["y" := Record(2, 0)];
    assert "y" !in Without(s, ["x", "y"]).servers;
  }

  /** Registering one name after another, in order. */
  function RegisterAll(s: RegistryState, names: seq<string>, now: int): RegistryState
    decreases |names|
  {
    if names == [] then s else RegisterAll(Register(s, names[0], now), names[1..], now)
  }

  /**
   * N distinct new names get the ranks nextRank, nextRank + 1, ... in call
   * order, with no gap; starting from the empty registry these are 1..N.
   */
  lemma {:induction false} RanksInCallOrder(s: RegistryState, names: seq<string>, now: int)
    requires forall i, j :: 0 <= i < j < |names| ==> names[i] != names[j]
    requires forall i :: 0 <= i < |names| ==> names[i] !in s.servers
    ensures RegisterAll(s, names, now).nextRank == s.nextRank + |names|
    ensures forall i :: 0 <= i < |names| ==>
      names[i] in RegisterAll(s, names, now).servers && RegisterAll(s, names, now).servers[names[i]].rank == s.nextRank + i
    decreases |names|
  {
    if names != [] {
      var t := Register(s, names[0], now);
      var rest := names[1..];
      assert forall i :: 0 <= i < |rest| ==> rest[i] == names[i + 1];
      RanksInCallOrder(t, rest, now);
      RegisterAllKeeps(t, rest, now, names[0]);
    }
  }

  /** Registering other names leaves an existing record alone. */
  lemma {:induction false} RegisterAllKeeps(s: RegistryState, names: seq<string>, now: int, n: string)
    requires n in s.servers
    requires forall i :: 0 <= i < |names| ==> names[i] != n
    ensures n in RegisterAll(s, names, now).servers && RegisterAll(s, names, now).servers[n] == s.servers[n]
    decreases |names|
  {
    if names != [] {
      var rest := names[1..];
      assert forall i :: 0 <= i < |rest| ==> rest[i] == names[i + 1];
      RegisterAllKeeps(Register(s, names[0], now), rest, now, n);
    }
  }

  // ---------------------------------------------------------------------------
  // The registry object of reference/main.py

  class ServerRegistry {
    var servers: map<string, Record>
    var nextRank: int
    /** The last snapshot written by save_data (or the file found at start-up). */
    var disk: StoredFile

    function State(): RegistryState
      reads this
    {
      RegistryState(servers, nextRank)
    }

    /** __init__ followed by load_data. */
    constructor (file: StoredFile)
      ensures State() == Load(file) && disk == file
    {
      var s := Load(file);
      servers := s.servers;
      nextRank := s.nextRank;
      disk := file;
    }

    /** save_data: writes the whole state; an error is logged and swallowed, with the file as it left it. */
    method SaveData(outcome: SaveOutcome)
      modifies this`disk
      ensures disk == AfterSave(old(disk), State(), outcome)
    {
      match outcome
      case Written =>
        disk := Snapshot(State());
      case NotOpened =>
      case Truncated =>
        disk := Unreadable;
    }

    /** register_server: the stored rank for a known name, else the next rank (saved at once). */
    method RegisterServer(name: string, now: int, save: SaveOutcome) returns (rank: int)
      modifies this
      ensures old(name in servers) ==> rank == old(servers[name].rank) && nextRank == old(nextRank)
      ensures old(name !in servers) ==> rank == old(nextRank) && nextRank == old(nextRank) + 1
      ensures servers == old(servers)[name := Record(rank, now)]
      ensures State() == Register(old(State()), name, now)
      ensures disk == if old(name in servers) then old(disk) else AfterSave(old(disk), State(), save)
    {
      if name in servers {
        rank := servers[name].rank;
      } else {
        rank := nextRank;
        servers := servers[name := Record(rank, now)];
        nextRank := nextRank + 1;
        SaveData(save);
      }
      servers := servers[name := servers[name].(lastHeartbeat := now)];
    }

    /** update_heartbeat: refreshes a known server only; an unknown name is reported, not added. */
    method UpdateHeartbeat(name: string, now: int) returns (found: bool)
      modifies this`servers
      ensures found == (name in old(servers))
      ensures servers == if found then old(servers)[name := old(servers)[name].(lastHeartbeat := now)] else old(servers)
      ensures State() == Heartbeat(old(State()), name, now)
    {
      if name in servers {
        servers := servers[name := servers[name].(lastHeartbeat := now)];
        found := true;
      } else {
        found := false;
      }
    }

    /** get_server_list: every server whose heartbeat is less than 30 s old, with its rank. */
    method GetServerList(now: int) returns (list: seq<ServerInfo>)
      ensures IsActiveListing(list, servers, now)
    {
      list := [];
      var pending := servers.Keys;
      while pending != {}
        invariant pending <= servers.Keys
        invariant forall i :: 0 <= i < |list| ==>
          list[i].name in servers && list[i].name !in pending &&
          list[i].rank == servers[list[i].name].rank && IsActive(servers[list[i].name], now)
        invariant forall n :: n in servers && n !in pending && IsActive(servers[n], now) ==>
          exists i :: 0 <= i < |list| && list[i].name == n
        invariant forall i, j :: 0 <= i < j < |list| ==> list[i].name != list[j].name
        decreases pending
      {
        var name :| name in pending;
        pending := pending - {name};
        if now - servers[name].lastHeartbeat < ActiveWindow {
          ghost var prev := list;
          list := list + [ServerInfo(name, servers[name].rank)];
          forall n | n in servers && n !in pending && IsActive(servers[n], now)
            ensures exists i :: 0 <= i < |list| && list[i].name == n
          {
            if n == name {
              assert list[|list| - 1].name == n;
            } else {
              var i :| 0 <= i < |prev| && prev[i].name == n;
              assert list[i].name == n;
            }
          }
        }
      }
    }

    /**
     * cleanup_inactive_servers: collect the stale names, then delete each one
     * and save, save number k ending as outcome(k); `order` is the order in
     * which the dictionary yielded them.
     */
    method CleanupInactiveServers(now: int, outcome: nat -> SaveOutcome) returns (ghost order: seq<string>)
      modifies this`servers, this`disk
      ensures State() == Evict(old(State()), now)
      ensures Enumerates(order, StaleNames(old(State()), now))
      ensures disk == AfterRemovals(old(disk), old(State()), order, outcome, 0)
    {
      ghost var stale := StaleNames(State(), now);
      var inactive: seq<string> := [];
      var pending := servers.Keys;
      while pending != {}
        invariant pending <= servers.Keys
        invariant forall n :: n in inactive <==> n in servers && n !in pending && IsStale(servers[n], now)
        invariant forall i, j :: 0 <= i < j < |inactive| ==> inactive[i] != inactive[j]
        decreases pending
      {
        var name :| name in pending;
        if now - servers[name].lastHeartbeat > StaleWindow {
          inactive := inactive + [name];
        }
        pending := pending - {name};
      }
      assert forall n :: n in inactive <==> n in stale;
      order := inactive;

      var i := 0;
      while i < |inactive|
        invariant 0 <= i <= |inactive|
        invariant servers == old(servers) - (set k | 0 <= k < i :: inactive[k])
        invariant nextRank == old(nextRank)
        invariant AfterRemovals(disk, State(), inactive[i..], outcome, i) == AfterRemovals(old(disk), old(State()), inactive, outcome, 0)
      {
        // each name is still present, so the source's `del` never raises
        assert inactive[i] in servers by {
          assert forall k :: 0 <= k < i ==> inactive[k] != inactive[i];
        }
        assert inactive[i..][0] == inactive[i] && inactive[i..][1..] == inactive[i + 1..];
        servers := servers - {inactive[i]};
        SaveData(outcome(i));
        i := i + 1;
      }
      assert (set k | 0 <= k < |inactive| :: inactive[k]) == stale;
    }
  }
}
