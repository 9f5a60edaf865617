/** RedisCache (internal/cache/cache.go) as an object that changes its Redis keyspace in place. */
module Cache {
  import opened Wrappers
  import opened Domain
  import opened Redis
  import opened KeyCodec
  import C = CacheCommands

  /** The commands a transaction pipeline can hold. */
  datatype Command =
    | SetCommand(key: string, rows: seq<Task>, ttl: nat)
    | SAddCommand(key: string, member: string)
    | ExpireCommand(key: string, ttl: nat)
    | DelCommand(keys: set<string>)

  function RunCommand(s: Store, now: nat, c: Command): Store {
    match c
    case SetCommand(k, rows, ttl) => SetEx(s, now, ttl, k, rows)
    case SAddCommand(k, m) => SAdd(s, now, k, m)
    case ExpireCommand(k, ttl) => Expire(s, now, ttl, k)
    case DelCommand(ks) => Del(s, ks)
  }

  function RunCommands(s: Store, now: nat, cs: seq<Command>): Store {
    if cs == [] then s else RunCommand(RunCommands(s, now, cs[..|cs| - 1]), now, cs[|cs| - 1])
  }

  lemma RunSnoc(s: Store, now: nat, cs: seq<Command>, c: Command)
    ensures RunCommands(s, now, cs + [c]) == RunCommand(RunCommands(s, now, cs), now, c)
  {
    hide RunCommand;
    assert (cs + [c])[..|cs + [c]| - 1] == cs;
  }

  class RedisCache {
    const ttl: nat
    var store: Store

    /** Attaches to a server, whatever it holds. */
    constructor (ttl: nat, server: Store)
      ensures this.ttl == ttl && store == server
    {
      this.ttl := ttl;
      store := server;
    }

    /** Rows exactly when a list is stored that has not expired; an error never reads as a hit or a miss. */
    method GetTasks(key: string, now: nat, fails: bool) returns (r: Result<Option<seq<Task>>, Error>)
      ensures r.Ok? && r.value.Some? <==> !fails && LiveRows(store, now, key)
      ensures r.Ok? && r.value.Some? ==> store[key].value == Rows(r.value.value)
      ensures r == Ok(None) <==> !fails && !Live(store, now, key)
      ensures r.Err? ==> r.error == Database
    {
      if fails {
        return Err(Database);
      }
      r := Get(store, now, key);
    }

    /** EXEC runs the whole queue atomically or, on failure, none of it. */
    method Exec(pipe: seq<Command>, now: nat, fails: bool) returns (r: Result<(), Error>)
      modifies this
      ensures store == if fails then old(store) else RunCommands(old(store), now, pipe)
      ensures r == if fails then Err(Database) else Ok(())
    {
      if fails {
        return Err(Database);
      }
      for i := 0 to |pipe|
        invariant store == RunCommands(old(store), now, pipe[..i])
      {
        RunSnoc(old(store), now, pipe[..i], pipe[i]);
        assert pipe[..i] + [pipe[i]] == pipe[..i + 1];
        store := RunCommand(store, now, pipe[i]);
      }
      assert pipe[..|pipe|] == pipe;
      return Ok(());
    }

    method SetTasks(key: string, tasks: seq<Task>, now: nat, fails: bool) returns (r: Result<(), Error>)
      modifies this
      ensures store == if fails then old(store) else C.SetTasks(old(store), now, ttl, key, tasks)
      ensures r == if fails then Err(Database) else Ok(())
    {
      var teamId := TeamIDFromKey(key);
      var pipe := [SetCommand(key, tasks, ttl)];
      RunSnoc(store, now, [], pipe[0]);
      assert [] + [pipe[0]] == pipe;
      if teamId > 0 {
        RunSnoc(store, now, pipe, SAddCommand(TeamSetKey(teamId), key));
        pipe := pipe + [SAddCommand(TeamSetKey(teamId), key)];
        RunSnoc(store, now, pipe, ExpireCommand(TeamSetKey(teamId), ttl));
        pipe := pipe + [ExpireCommand(TeamSetKey(teamId), ttl)];
      }
      r := Exec(pipe, now, fails);
    }

    method InvalidateTeam(teamId: Int64, now: nat, smembersFails: bool, delFails: bool) returns (r: Result<(), Error>)
      modifies this
      ensures (store, r) == C.InvalidateTeam(old(store), now, teamId, smembersFails, delFails)
    {
      var setKey := TeamSetKey(teamId);
      if smembersFails {
        return Err(Database);
      }
      var keys := SMembers(store, now, setKey);
      if keys.Err? {
        return Err(keys.error);
      }
      var pipe: seq<Command> := [];
      if keys.value != {} {
        RunSnoc(store, now, pipe, DelCommand(keys.value));
        pipe := pipe + [DelCommand(keys.value)];
      }
      assert RunCommands(store, now, pipe) == Del(store, keys.value);
      RunSnoc(store, now, pipe, DelCommand({setKey}));
      pipe := pipe + [DelCommand({setKey})];
      r := Exec(pipe, now, delFails);
    }
  }
}
