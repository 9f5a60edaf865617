/** The status "all" prints the key of the unfiltered list: what a list request that uses it does to the cache. */
module StatusAll {
  import opened Wrappers
  import opened Domain
  import opened Redis
  import opened KeyCodec
  import opened CacheCommands
  import opened TaskStore
  import opened ServiceSpec
  import opened AuditRuns

  /** No stored row has the status "all". */
  lemma {:induction false} NoRowHasAll(tasks: map<Int64, Task>, f: TaskFilter, hi: Int64)
    requires f.status == Some(ALL) && forall id | id in tasks :: ValidStatus(tasks[id].status)
    ensures Select(tasks, f, hi) == []
    decreases if hi < 0 then 0 else hi
  {
    if hi > 0 {
      NoRowHasAll(tasks, f, hi - 1);
      assert !ValidStatus(ALL);
    }
  }

  /** After a miss the rows of `first` are stored and served to any filter that prints the same key. */
  lemma ServedToBoth(w: World, store: Store, ttl: nat, first: TaskFilter, second: TaskFilter, actor: Int64, env: Env)
    requires ttl > 0 && first.teamId > 0 && TasksKey(Clamp(first)) == TasksKey(Clamp(second))
    requires (first.teamId, actor) in w.roster.members && (second.teamId, actor) in w.roster.members
    requires !env.memberFails && !env.queryFails && !env.cacheGetFails && !env.cacheSetFails
    requires Sorted(store) && !Live(store, env.redisNow, TasksKey(Clamp(first)))
    ensures var (filled, rows) := CachedList(w, store, ttl, first, actor, env);
            rows == List(w.db, Clamp(first)) && CachedList(w, filled, ttl, second, actor, env).1 == rows
  {
    hide TasksKey, TeamSetKey, TeamIDFromKey, Sorted, List;
    assert List(w.db, Clamp(first)).Ok? by { ClampedListOk(w.db, first); }
    SetTasksWrites(store, env.redisNow, ttl, Clamp(first), List(w.db, Clamp(first)).value);
  }

  lemma ClampedListOk(db: Db, f: TaskFilter)
    ensures List(db, Clamp(f)).Ok?
  {
  }

  /**
   * On rows as the service writes them, a list for the status "all" is empty. Stored on a miss it makes the
   * unfiltered list of the same page empty too, and the unfiltered rows stored on a miss are served to a list for
   * "all"; either answer is right exactly when the unfiltered page has no rows.
   */
  lemma AllPoisons(w: World, store: Store, ttl: nat, f: TaskFilter, actor: Int64, env: Env)
    requires ttl > 0 && f.teamId > 0 && f.status == None && (f.teamId, actor) in w.roster.members && RowsOk(w.db)
    requires !env.memberFails && !env.queryFails && !env.cacheGetFails && !env.cacheSetFails
    requires Sorted(store) && !Live(store, env.redisNow, TasksKey(Clamp(f)))
    ensures var all := f.(status := Some(ALL));
            var afterAll, afterPlain :=
              CachedList(w, store, ttl, all, actor, env).0, CachedList(w, store, ttl, f, actor, env).0;
            && CachedList(w, afterAll, ttl, f, actor, env).1 == Ok([])
            && (CachedList(w, afterAll, ttl, f, actor, env).1 == ListTasks(w, f, actor, env)
                <==> List(w.db, Clamp(f)) == Ok([]))
            && (CachedList(w, afterPlain, ttl, all, actor, env).1 == ListTasks(w, all, actor, env)
                <==> List(w.db, Clamp(f)) == Ok([]))
  {
    hide TasksKey, TeamSetKey, TeamIDFromKey, Sorted, CachedList;
    var all := f.(status := Some(ALL));
    AllCollides(Clamp(f));
    assert Clamp(all) == Clamp(f).(status := Some(ALL));
    ServedToBoth(w, store, ttl, all, f, actor, env);
    ServedToBoth(w, store, ttl, f, all, actor, env);
    NoRowHasAll(w.db.tasks, Clamp(all), w.db.lastTask);
  }
}
