/** What RedisCache.SetTasks and RedisCache.InvalidateTeam do to the keyspace (internal/cache/cache.go). */
module CacheCommands {
  import opened Wrappers
  import opened Domain
  import opened Redis
  import opened KeyCodec

  /** The MULTI block of SetTasks: SET with expiry, then SADD and EXPIRE of the team's key set. */
  function SetTasks(s: Store, now: nat, ttl: nat, key: string, rows: seq<Task>): Store {
    var teamId := TeamIDFromKey(key);
    var s1 := SetEx(s, now, ttl, key, rows);
    if teamId > 0
    then Expire(SAdd(s1, now, TeamSetKey(teamId), key), now, ttl, TeamSetKey(teamId))
    else s1
  }

  /** The MULTI block of InvalidateTeam: DEL of the collected keys and of the key set. */
  function DeleteKeys(s: Store, teamId: Int64, keys: set<string>): Store {
    Del(Del(s, keys), {TeamSetKey(teamId)})
  }

  /** InvalidateTeam: SMEMBERS, then the DELs; a failure of either leaves the keyspace alone. */
  function InvalidateTeam(s: Store, now: nat, teamId: Int64, smembersFails: bool, delFails: bool): (Store, Result<(), Error>) {
    if smembersFails then (s, Err(Database))
    else
      match SMembers(s, now, TeamSetKey(teamId))
      case Err(e) => (s, Err(e))
      case Ok(keys) => if delFails then (s, Err(Database)) else (DeleteKeys(s, teamId, keys), Ok(()))
  }

  /** The filters that reach the cache: positive team, a status other than "all", clamped page. */
  predicate Request(f: TaskFilter) {
    f.teamId > 0 && f.status != Some(ALL) && 1 <= f.limit <= 100 && f.offset >= 0
  }

  /** k is listed in the team's key set, which lives at least until `until`. */
  ghost predicate InSet(store: Store, team: Int64, k: string, until: nat) {
    var sk := TeamSetKey(team);
    && sk in store && store[sk].value.Members? && k in store[sk].value.keys
    && store[sk].expireAt.Some? && store[sk].expireAt.value >= until
  }

  /** The live members of a team's key set. */
  function Tracked(s: Store, now: nat, teamId: Int64): set<string> {
    var k := TeamSetKey(teamId);
    if Live(s, now, k) && s[k].value.Members? then s[k].value.keys else {}
  }

  /** Every cell sits under a name of its own kind, and a key set lists only names of its own team. */
  ghost predicate Sorted(s: Store) {
    forall k | k in s ::
      if s[k].value.Rows? then exists f: TaskFilter :: k == TasksKey(f)
      else k == TeamSetKey(TeamIDFromKey(k)) && forall m | m in s[k].value.keys :: TeamIDFromKey(m) == TeamIDFromKey(k)
  }

  lemma SetKeysHoldSets(s: Store, t: Int64)
    requires Sorted(s) && TeamSetKey(t) in s
    ensures s[TeamSetKey(t)].value.Members?
  {
    var k := TeamSetKey(t);
    if s[k].value.Rows? {
      var f: TaskFilter :| k == TasksKey(f);
      KeySpacesDisjoint(f, t);
    }
  }

  lemma WriteAndTrack(s: Store, now: nat, ttl: nat, k: string, sk: string, rows: seq<Task>)
    requires k != sk && ttl > 0 && (sk in s ==> s[sk].value.Members?)
    ensures
      Expire(SAdd(SetEx(s, now, ttl, k, rows), now, sk, k), now, ttl, sk) ==
      s[k := Cell(Rows(rows), Some(now + ttl))]
       [sk := Cell(Members((if Live(s, now, sk) then s[sk].value.keys else {}) + {k}), Some(now + ttl))]
  {
    assert {} + {k} == {k};
  }

  /** SetTasks writes exactly two cells: the list, and the team's key set grown by its name with a renewed expiry. */
  lemma SetTasksWrites(s: Store, now: nat, ttl: nat, f: TaskFilter, rows: seq<Task>)
    requires Sorted(s) && f.teamId > 0 && ttl > 0
    ensures
      SetTasks(s, now, ttl, TasksKey(f), rows) ==
      s[TasksKey(f) := Cell(Rows(rows), Some(now + ttl))]
       [TeamSetKey(f.teamId) := Cell(Members(Tracked(s, now, f.teamId) + {TasksKey(f)}), Some(now + ttl))]
    ensures TasksKey(f) != TeamSetKey(f.teamId)
  {
    TeamRoundTrip(f, f.teamId);
    KeySpacesDisjoint(f, f.teamId);
    if TeamSetKey(f.teamId) in s { SetKeysHoldSets(s, f.teamId); }
    WriteAndTrack(s, now, ttl, TasksKey(f), TeamSetKey(f.teamId), rows);
  }

  /** A name without a positive team is stored, but no key set is touched for it. */
  lemma SetTasksUntracked(s: Store, now: nat, ttl: nat, key: string, rows: seq<Task>)
    requires TeamIDFromKey(key) <= 0
    ensures SetTasks(s, now, ttl, key, rows) == s[key := Cell(Rows(rows), Some(now + ttl))]
  {
  }

  /** What was stored last is read back until its time to live is over, and a miss from then on. */
  lemma SetThenGet(s: Store, now: nat, ttl: nat, f: TaskFilter, rows: seq<Task>, later: nat)
    requires Sorted(s) && f.teamId > 0 && ttl > 0
    ensures Get(SetTasks(s, now, ttl, TasksKey(f), rows), later, TasksKey(f))
            == Ok(if later < now + ttl then Some(rows) else None)
  {
    hide TasksKey, TeamSetKey, TeamIDFromKey;
    SetTasksWrites(s, now, ttl, f, rows);
  }

  lemma SetTasksSorted(s: Store, now: nat, ttl: nat, f: TaskFilter, rows: seq<Task>)
    requires Sorted(s) && f.teamId > 0 && ttl > 0
    ensures Sorted(SetTasks(s, now, ttl, TasksKey(f), rows))
  {
    hide TasksKey, TeamSetKey, TeamIDFromKey;
    SetTasksWrites(s, now, ttl, f, rows);
    TeamRoundTrip(f, f.teamId);
  }

  /** What is left after DeleteKeys: everything not collected and not the key set itself. */
  lemma DeleteKeysLeaves(s: Store, teamId: Int64, keys: set<string>)
    ensures forall k :: k in DeleteKeys(s, teamId, keys) <==> k in s && k !in keys && k != TeamSetKey(teamId)
    ensures forall k | k in DeleteKeys(s, teamId, keys) :: DeleteKeys(s, teamId, keys)[k] == s[k]
    ensures Sorted(s) ==> Sorted(DeleteKeys(s, teamId, keys))
  {
  }

  /** SMEMBERS never fails on a sorted store, and returns names of that team only. */
  lemma CollectsOwnKeys(s: Store, now: nat, teamId: Int64)
    requires Sorted(s)
    ensures SMembers(s, now, TeamSetKey(teamId)) == Ok(Tracked(s, now, teamId))
    ensures forall m | m in Tracked(s, now, teamId) :: TeamIDFromKey(m) == teamId
  {
    if TeamSetKey(teamId) in s { SetKeysHoldSets(s, teamId); }
    var f := TaskFilter(teamId, None, None, 1, 0);
    TeamRoundTrip(f, teamId);
  }
}
