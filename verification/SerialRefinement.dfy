/** Over every serial run the cached service answers as the service without a cache would. */
module SerialRefinement {
  import opened Wrappers
  import opened Domain
  import opened Text
  import opened Redis
  import opened KeyCodec
  import opened CacheCommands
  import opened TaskStore
  import opened AuditDiff
  import opened ServiceSpec
  import M = TeamStore

  // ---- runs ----

  datatype Op =
    | CreateOp(create: CreateTaskInput, env: Env)
    | UpdateOp(update: UpdateTaskInput, env: Env)
    | ListOp(filter: TaskFilter, actor: Int64, env: Env)
    | HistoryOp(taskId: Int64, actor: Int64, env: Env)
    | JoinOp(teamId: Int64, userId: Int64, role: Role, env: Env)

  datatype Outcome =
    | TaskOutcome(task: Result<Task, Error>)
    | RowsOutcome(rows: Result<seq<Task>, Error>)
    | LogOutcome(log: Result<seq<TaskHistory>, Error>)
    | Joined

  function Join(r: M.Roster, teamId: Int64, userId: Int64, role: Role): M.Roster {
    var res := M.InsertMember(r, teamId, userId, role);
    if teamId in r.teams && res.Ok? then res.value else r
  }

  function Step(w: World, op: Op): (World, Outcome) {
    match op
    case CreateOp(input, env) => (Create(w, input, env).0, TaskOutcome(Create(w, input, env).1))
    case UpdateOp(input, env) => (Update(w, input, env).0, TaskOutcome(Update(w, input, env).1))
    case ListOp(f, actor, env) => (w, RowsOutcome(ListTasks(w, f, actor, env)))
    case HistoryOp(id, actor, env) => (w, LogOutcome(HistoryOf(w, id, actor, env)))
    case JoinOp(t, u, role, _) => (w.(roster := Join(w.roster, t, u, role)), Joined)
  }

  function CachedStep(w: World, store: Store, ttl: nat, op: Op): (World, Store, Outcome) {
    match op
    case CreateOp(input, env) =>
      (Create(w, input, env).0, CreateStore(w, store, input, env), TaskOutcome(Create(w, input, env).1))
    case UpdateOp(input, env) =>
      (Update(w, input, env).0, UpdateStore(w, store, input, env), TaskOutcome(Update(w, input, env).1))
    case ListOp(f, actor, env) =>
      var (next, rows) := CachedList(w, store, ttl, f, actor, env);
      (w, next, RowsOutcome(rows))
    case HistoryOp(id, actor, env) => (w, store, LogOutcome(HistoryOf(w, id, actor, env)))
    case JoinOp(t, u, role, _) => (w.(roster := Join(w.roster, t, u, role)), store, Joined)
  }

  function Run(w: World, ops: seq<Op>): (World, seq<Outcome>) {
    if ops == [] then (w, [])
    else
      var (before, outs) := Run(w, ops[..|ops| - 1]);
      var (after, out) := Step(before, ops[|ops| - 1]);
      (after, outs + [out])
  }

  function CachedRun(w: World, ttl: nat, ops: seq<Op>): (World, Store, seq<Outcome>) {
    if ops == [] then (w, map[], [])
    else
      var (before, store, outs) := CachedRun(w, ttl, ops[..|ops| - 1]);
      var (after, next, out) := CachedStep(before, store, ttl, ops[|ops| - 1]);
      (after, next, outs + [out])
  }

  /** Redis time does not run backwards. */
  ghost predicate Paced(ops: seq<Op>) {
    forall i, j | 0 <= i < j < |ops| :: ops[i].env.redisNow <= ops[j].env.redisNow
  }

  /** No list asks for the status "all", and no invalidation fails. Everything else may fail. */
  predicate Clean(op: Op) {
    match op
    case CreateOp(_, env) => !env.smembersFails && !env.delFails
    case UpdateOp(_, env) => !env.smembersFails && !env.delFails
    case ListOp(f, _, _) => f.status != Some(ALL)
    case HistoryOp(_, _, _) => true
    case JoinOp(_, _, _, _) => true
  }

  // ---- the invariant ----

  ghost predicate WorldOk(w: World) {
    WellFormed(w.db) && M.WellFormedRoster(w.roster)
  }

  /** The cell under k holds the current answer to f, and the team's key set lists k for at least as long. */
  ghost predicate FreshFor(store: Store, db: Db, now: nat, ttl: nat, k: string, f: TaskFilter)
    requires LiveRows(store, now, k)
  {
    && Request(f) && k == TasksKey(f)
    && List(db, f) == Ok(store[k].value.rows)
    && store[k].expireAt.Some? && store[k].expireAt.value <= now + ttl
    && InSet(store, f.teamId, k, store[k].expireAt.value)
  }

  ghost predicate CacheOk(store: Store, db: Db, now: nat, ttl: nat) {
    && Sorted(store)
    && (forall k | LiveRows(store, now, k) :: exists f :: FreshFor(store, db, now, ttl, k, f))
  }

  lemma TimeKeeps(store: Store, db: Db, now: nat, later: nat, ttl: nat)
    requires CacheOk(store, db, now, ttl) && now <= later
    ensures CacheOk(store, db, later, ttl)
  {
    hide TasksKey, TeamSetKey, TeamIDFromKey, Sorted;
    forall k | LiveRows(store, later, k) ensures exists f :: FreshFor(store, db, later, ttl, k, f) {
      assert LiveRows(store, now, k);
      var f :| FreshFor(store, db, now, ttl, k, f);
      assert FreshFor(store, db, later, ttl, k, f);
    }
  }

  /** A hit is the current answer. */
  lemma HitCorrect(store: Store, db: Db, now: nat, ttl: nat, g: TaskFilter)
    requires CacheOk(store, db, now, ttl) && Request(g) && LiveRows(store, now, TasksKey(g))
    ensures List(db, g) == Ok(store[TasksKey(g)].value.rows)
  {
    var k := TasksKey(g);
    var f :| FreshFor(store, db, now, ttl, k, f);
    KeyInjective(f, g);
  }

  /** Storing the current answer keeps the invariant. */
  lemma FillKeeps(store: Store, db: Db, now: nat, ttl: nat, g: TaskFilter, rows: seq<Task>)
    requires CacheOk(store, db, now, ttl) && ttl > 0 && Request(g) && List(db, g) == Ok(rows)
    ensures CacheOk(SetTasks(store, now, ttl, TasksKey(g), rows), db, now, ttl)
  {
    hide TasksKey, TeamSetKey, TeamIDFromKey, Sorted, List;
    var next, key := SetTasks(store, now, ttl, TasksKey(g), rows), TasksKey(g);
    SetTasksSorted(store, now, ttl, g, rows);
    SetTasksWrites(store, now, ttl, g, rows);
    forall k | LiveRows(next, now, k) ensures exists f :: FreshFor(next, db, now, ttl, k, f) {
      if k == key {
        assert FreshFor(next, db, now, ttl, k, g);
      } else {
        assert LiveRows(store, now, k);
        var f :| FreshFor(store, db, now, ttl, k, f);
        FillOther(store, db, now, ttl, g, rows, k, f);
      }
    }
  }

  lemma FillOther(store: Store, db: Db, now: nat, ttl: nat, g: TaskFilter, rows: seq<Task>, k: string, f: TaskFilter)
    requires Sorted(store) && ttl > 0 && Request(g) && k != TasksKey(g)
    requires LiveRows(store, now, k) && FreshFor(store, db, now, ttl, k, f)
    ensures var next := SetTasks(store, now, ttl, TasksKey(g), rows);
            LiveRows(next, now, k) && FreshFor(next, db, now, ttl, k, f)
  {
    hide TasksKey, TeamSetKey, TeamIDFromKey, Sorted, List;
    SetTasksWrites(store, now, ttl, g, rows);
    KeySpacesDisjoint(f, g.teamId);
    KeySpacesDisjoint(g, f.teamId);
    if TeamSetKey(f.teamId) == TeamSetKey(g.teamId) { SetKeyInjective(f.teamId, g.teamId); }
  }

  /** A write to one team followed by its invalidation keeps the invariant. */
  lemma WriteKeeps(store: Store, db: Db, next: Db, now: nat, ttl: nat, team: Int64)
    requires CacheOk(store, db, now, ttl)
    requires forall f: TaskFilter | f.teamId != team :: List(next, f) == List(db, f)
    ensures CacheOk(InvalidateTeam(store, now, team, false, false).0, next, now, ttl)
  {
    hide TasksKey, TeamSetKey, TeamIDFromKey, Sorted, List;
    CollectsOwnKeys(store, now, team);
    var keys := Tracked(store, now, team);
    var after := DeleteKeys(store, team, keys);
    DeleteKeysLeaves(store, team, keys);
    forall k | LiveRows(after, now, k) ensures exists f :: FreshFor(after, next, now, ttl, k, f) {
      assert LiveRows(store, now, k);
      var f :| FreshFor(store, db, now, ttl, k, f);
      if f.teamId != team {
        TeamRoundTrip(f, f.teamId);
        if TeamSetKey(f.teamId) == TeamSetKey(team) { SetKeyInjective(f.teamId, team); }
        assert FreshFor(after, next, now, ttl, k, f);
      }
    }
  }

  // ---- one step ----

  lemma ClampRequests(w: World, f: TaskFilter, actor: Int64)
    requires WorldOk(w) && (f.teamId, actor) in w.roster.members && f.status != Some(ALL)
    ensures Request(Clamp(f))
  {
  }

  predicate Hits(w: World, store: Store, op: Op) {
    op.ListOp? && RequireMember(w.roster, op.filter.teamId, op.actor, op.env).Ok? && !op.env.cacheGetFails
    && LiveRows(store, op.env.redisNow, TasksKey(Clamp(op.filter)))
  }

  /** A hit does not ask the database, so it answers even while the database is down. */
  function Spared(w: World, store: Store, op: Op): Op {
    if Hits(w, store, op) then ListOp(op.filter, op.actor, op.env.(queryFails := false)) else op
  }

  lemma SparedIsPlain(w: World, store: Store, op: Op)
    ensures !op.ListOp? || !op.env.queryFails ==> Spared(w, store, op) == op
  {
  }

  lemma ListStep(w: World, store: Store, ttl: nat, op: Op)
    requires WorldOk(w) && ttl > 0 && op.ListOp? && Clean(op) && CacheOk(store, w.db, op.env.redisNow, ttl)
    ensures CachedStep(w, store, ttl, op).2 == Step(w, Spared(w, store, op)).1
    ensures CacheOk(CachedStep(w, store, ttl, op).1, w.db, op.env.redisNow, ttl)
  {
    hide TasksKey, TeamSetKey, TeamIDFromKey, Sorted, List, CacheOk, SetTasks;
    var f, env := op.filter, op.env;
    var g := Clamp(f);
    if RequireMember(w.roster, f.teamId, op.actor, env).Ok? {
      ClampRequests(w, f, op.actor);
      if LiveRows(store, env.redisNow, TasksKey(g)) { HitCorrect(store, w.db, env.redisNow, ttl, g); }
      if List(w.db, g).Ok? { FillKeeps(store, w.db, env.redisNow, ttl, g, List(w.db, g).value); }
    }
  }

  lemma CreateStep(w: World, store: Store, ttl: nat, op: Op)
    requires WorldOk(w) && op.CreateOp? && Clean(op) && CacheOk(store, w.db, op.env.redisNow, ttl)
    ensures WorldOk(Step(w, op).0)
    ensures CacheOk(CachedStep(w, store, ttl, op).1, Step(w, op).0.db, op.env.redisNow, ttl)
  {
    hide CacheOk, TrimSpace, List, InvalidateTeam;
    var input, env := op.create, op.env;
    var (next, r) := Create(w, input, env);
    if r.Ok? {
      var t := NewTask(input);
      InsertTaskKeeps(w.db, t, env.dbNow);
      forall f: TaskFilter | f.teamId != input.teamId ensures List(next.db, f) == List(w.db, f) {
        InsertTaskFrame(w.db, t, env.dbNow, f);
        SameRowsSameList(next.db, w.db, f);
      }
      WriteKeeps(store, w.db, next.db, env.redisNow, ttl, input.teamId);
    }
  }

  /** The stored effect of an update that writes: tables well formed, other teams' lists untouched. */
  lemma UpdateWritesFrame(w: World, input: UpdateTaskInput, env: Env)
    requires WorldOk(w)
    ensures WorldOk(Update(w, input, env).0)
    ensures !UpdateWrites(w, input, env) ==> forall f :: List(Update(w, input, env).0.db, f) == List(w.db, f)
    ensures UpdateWrites(w, input, env) ==>
              forall f: TaskFilter | f.teamId != w.db.tasks[input.taskId].teamId :: List(Update(w, input, env).0.db, f) == List(w.db, f)
  {
    hide TrimSpace, List, Diff, S.UpdateWithHistory;
    var next := Update(w, input, env).0;
    if next.db != w.db {
      var t := w.db.tasks[input.taskId];
      var edit := Diff(t, input).value;
      assert Acceptable(input) by { DiffAccepts(t, input); }
      DiffExact(t, input);
      UpdateWithHistoryAtomic(w.db, edit.row, edit.history, env.dbNow, env.fault);
      UpdateRowKeeps(w.db, edit.row, env.dbNow);
      var res := S.UpdateWithHistory(w.db, edit.row, edit.history, env.dbNow, env.fault);
      assert next.db == res.0;
      assert UpdateWrites(w, input, env) <==> res.1.Ok?;
      forall f: TaskFilter ensures !UpdateWrites(w, input, env) || f.teamId != t.teamId ==> List(next.db, f) == List(w.db, f) {
        if !UpdateWrites(w, input, env) {
          SameRowsSameList(next.db, w.db, f);
        } else if f.teamId != t.teamId {
          UpdateRowFrame(w.db, edit.row, env.dbNow, f);
          assert next.db.tasks == UpdateRow(w.db, edit.row, env.dbNow).tasks;
          assert next.db.lastTask == UpdateRow(w.db, edit.row, env.dbNow).lastTask;
          SameRowsSameList(next.db, w.db, f);
        }
      }
    }
  }

  lemma SameListsKeep(store: Store, db: Db, next: Db, now: nat, ttl: nat)
    requires CacheOk(store, db, now, ttl) && forall f :: List(next, f) == List(db, f)
    ensures CacheOk(store, next, now, ttl)
  {
    hide TasksKey, TeamSetKey, TeamIDFromKey, Sorted, List;
    forall k | LiveRows(store, now, k) ensures exists f :: FreshFor(store, next, now, ttl, k, f) {
      var f :| FreshFor(store, db, now, ttl, k, f);
      assert FreshFor(store, next, now, ttl, k, f);
    }
  }

  lemma UpdateStep(w: World, store: Store, ttl: nat, op: Op)
    requires WorldOk(w) && op.UpdateOp? && Clean(op) && CacheOk(store, w.db, op.env.redisNow, ttl)
    ensures WorldOk(Step(w, op).0)
    ensures CacheOk(CachedStep(w, store, ttl, op).1, Step(w, op).0.db, op.env.redisNow, ttl)
  {
    hide CacheOk, List, InvalidateTeam, WorldOk, Diff, S.UpdateWithHistory;
    var input, env := op.update, op.env;
    var next := Update(w, input, env).0;
    UpdateWritesFrame(w, input, env);
    if UpdateWrites(w, input, env) {
      WriteKeeps(store, w.db, next.db, env.redisNow, ttl, w.db.tasks[input.taskId].teamId);
    } else {
      SameListsKeep(store, w.db, next.db, env.redisNow, ttl);
    }
  }

  /** One clean call: the same world, the reference answer to what it asks, and a cache that is still right. */
  lemma CachedStepRefines(w: World, store: Store, ttl: nat, op: Op)
    requires WorldOk(w) && ttl > 0 && Clean(op) && CacheOk(store, w.db, op.env.redisNow, ttl)
    ensures var (next, after, out) := CachedStep(w, store, ttl, op);
            && next == Step(w, op).0 && out == Step(w, Spared(w, store, op)).1
            && WorldOk(next) && CacheOk(after, next.db, op.env.redisNow, ttl)
  {
    hide CacheOk, CreateStore, UpdateStore, CachedList, Create, Update, ListTasks, HistoryOf;
    match op
    case CreateOp(_, _) => CreateStep(w, store, ttl, op);
    case UpdateOp(_, _) => UpdateStep(w, store, ttl, op);
    case ListOp(_, _, _) => ListStep(w, store, ttl, op);
    case _ =>
  }

  // ---- whole runs ----

  /** The world in which call i of a run is answered. */
  function WorldBefore(w: World, ops: seq<Op>, i: nat): World
    requires i <= |ops|
  {
    Run(w, ops[..i]).0
  }

  /** The keyspace in which call i of a cached run is answered. */
  function StoreBefore(w: World, ttl: nat, ops: seq<Op>, i: nat): Store
    requires i <= |ops|
  {
    CachedRun(w, ttl, ops[..i]).1
  }

  /** out is the reference answer to call i, which a hit gives even while the database is down. */
  ghost predicate Right(w: World, ttl: nat, ops: seq<Op>, i: nat, out: Outcome)
    requires i < |ops|
  {
    out == Step(WorldBefore(w, ops, i), Spared(WorldBefore(w, ops, i), StoreBefore(w, ttl, ops, i), ops[i])).1
  }

  lemma RightStays(w: World, ttl: nat, ops: seq<Op>, n: nat, i: nat, out: Outcome)
    requires i < n <= |ops| && Right(w, ttl, ops[..n], i, out)
    ensures Right(w, ttl, ops, i, out)
  {
    assert ops[..n][..i] == ops[..i];
  }

  ghost predicate CleanRun(ops: seq<Op>) {
    Paced(ops) && forall i | 0 <= i < |ops| :: Clean(ops[i])
  }

  lemma {:induction false} CachedRunInvariant(w: World, ttl: nat, ops: seq<Op>, now: nat)
    requires WorldOk(w) && ttl > 0 && CleanRun(ops)
    requires forall i | 0 <= i < |ops| :: ops[i].env.redisNow <= now
    ensures var (after, store, outs) := CachedRun(w, ttl, ops);
            && after == Run(w, ops).0 && WorldOk(after) && CacheOk(store, after.db, now, ttl)
            && |outs| == |ops| && forall i | 0 <= i < |ops| :: Right(w, ttl, ops, i, outs[i])
  {
    hide CacheOk, WorldOk, Clean, Step, CachedStep, Spared;
    if ops == [] {
      assert CacheOk(map[], w.db, now, ttl) by { EmptyCacheOk(w.db, now, ttl); }
    } else {
      var n := |ops| - 1;
      var init, op := ops[..n], ops[n];
      CachedRunInvariant(w, ttl, init, op.env.redisNow);
      var (before, store, outs) := CachedRun(w, ttl, init);
      CachedStepRefines(before, store, ttl, op);
      var (after, next, out) := CachedStep(before, store, ttl, op);
      TimeKeeps(next, after.db, op.env.redisNow, now, ttl);
      assert ops[..n] == init && outs + [out] == CachedRun(w, ttl, ops).2;
      forall i | 0 <= i < |ops| ensures Right(w, ttl, ops, i, (outs + [out])[i]) {
        if i < n { RightStays(w, ttl, ops, n, i, outs[i]); }
      }
    }
  }

  lemma EmptyCacheOk(db: Db, now: nat, ttl: nat)
    ensures CacheOk(map[], db, now, ttl)
  {
  }

  /**
   * Refinement: for every serial run with failing GETs, SETs, lookups and transactions and any passage of time,
   * but no failed invalidation, the cached service leaves the same tables and gives the same answers. The one
   * difference is in its favour: a hit is answered while the database is down.
   */
  lemma CachedRunRefines(w: World, ttl: nat, ops: seq<Op>)
    requires WorldOk(w) && ttl > 0 && CleanRun(ops)
    ensures var (after, _, outs) := CachedRun(w, ttl, ops);
            && after == Run(w, ops).0
            && |outs| == |ops| && forall i | 0 <= i < |ops| :: Right(w, ttl, ops, i, outs[i])
  {
    hide CacheOk, WorldOk, Clean, Step, CachedStep, Spared;
    var now := if ops == [] then 0 else ops[|ops| - 1].env.redisNow;
    CachedRunInvariant(w, ttl, ops, now);
  }

  lemma {:induction false} RunAnswers(w: World, ops: seq<Op>)
    ensures |Run(w, ops).1| == |ops|
    ensures forall i | 0 <= i < |ops| :: Run(w, ops).1[i] == Step(WorldBefore(w, ops, i), ops[i]).1
  {
    hide Step;
    if ops != [] {
      var n := |ops| - 1;
      RunAnswers(w, ops[..n]);
      forall i | 0 <= i < |ops| ensures Run(w, ops).1[i] == Step(WorldBefore(w, ops, i), ops[i]).1 {
        assert ops[..i] == if i < n then ops[..n][..i] else ops[..n];
      }
    }
  }

  /** With the database answering the lists, the two runs are equal, answer by answer. */
  lemma CachedRunEquals(w: World, ttl: nat, ops: seq<Op>)
    requires WorldOk(w) && ttl > 0 && CleanRun(ops)
    requires forall i | 0 <= i < |ops| :: ops[i].ListOp? ==> !ops[i].env.queryFails
    ensures var (after, _, outs) := CachedRun(w, ttl, ops); (after, outs) == Run(w, ops)
  {
    hide CacheOk, WorldOk, Clean, Step, CachedStep, Spared, Run, CachedRun, WorldBefore, StoreBefore;
    CachedRunRefines(w, ttl, ops);
    RunAnswers(w, ops);
    forall i | 0 <= i < |ops| ensures CachedRun(w, ttl, ops).2[i] == Run(w, ops).1[i] {
      assert Right(w, ttl, ops, i, CachedRun(w, ttl, ops).2[i]);
      SparedIsPlain(WorldBefore(w, ops, i), StoreBefore(w, ttl, ops, i), ops[i]);
    }
    assert CachedRun(w, ttl, ops).2 == Run(w, ops).1;
  }

  // ---- the permission gate ----

  /** The team and user a call is checked for, if it names an existing task or a team. */
  function Gate(w: World, op: Op): Option<(Int64, Int64)> {
    match op
    case CreateOp(input, _) => Some((input.teamId, input.actorId))
    case UpdateOp(input, _) => if input.taskId in w.db.tasks then Some((w.db.tasks[input.taskId].teamId, input.actorId)) else None
    case ListOp(f, actor, _) => Some((f.teamId, actor))
    case HistoryOp(id, actor, _) => if id in w.db.tasks then Some((w.db.tasks[id].teamId, actor)) else None
    case JoinOp(_, _, _, _) => None
  }

  predicate Refused(out: Outcome, e: Error) {
    match out
    case TaskOutcome(r) => r == Err(e)
    case RowsOutcome(r) => r == Err(e)
    case LogOutcome(r) => r == Err(e)
    case Joined => false
  }

  /**
   * A caller outside the team is refused by the cached service and changes neither tables nor cache, whatever the
   * cache holds; with the lookups working, the refusal is "forbidden".
   */
  lemma OutsidersRefused(w: World, store: Store, ttl: nat, op: Op)
    requires Gate(w, op).Some? && Gate(w, op).value !in w.roster.members
    ensures var (next, after, out) := CachedStep(w, store, ttl, op);
            && next == w && after == store
            && (Refused(out, Forbidden) || Refused(out, Database))
            && (!op.env.memberFails && !op.env.getFails ==> Refused(out, Forbidden))
  {
  }
}
