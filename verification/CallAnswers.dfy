/**
 * What each call of the services answers and stores, in the words of the request and of the tables: no result here
 * is stated through the functions that compute it.
 */
module CallAnswers {
  import opened Wrappers
  import opened Domain
  import opened Decimal
  import opened Text
  import opened Redis
  import opened KeyCodec
  import opened CacheCommands
  import opened TaskStore
  import opened AuditDiff
  import opened ServiceSpec
  import opened SerialRefinement
  import opened AuditRuns
  import M = TeamStore

  // ---- Create ----

  /** A title that is not blank, and a known status or none. */
  predicate CreateAllowed(input: CreateTaskInput) {
    && !AllSpace(input.title)
    && (input.status == "" || input.status == "todo" || input.status == "in_progress" || input.status == "done")
  }

  /** When a creation succeeds, and with which error it fails otherwise. */
  lemma CreateAnswer(w: World, input: CreateTaskInput, env: Env)
    ensures
      var (next, r) := Create(w, input, env);
      var member := (input.teamId, input.actorId) in w.roster.members;
      && (r == Err(Forbidden) <==> !env.memberFails && !member)
      && (r == Err(Validation) <==> !env.memberFails && member && !CreateAllowed(input))
      && (r.Ok? <==> !env.memberFails && member && CreateAllowed(input) && !env.insertFails && 0 <= w.db.lastTask < MAX_INT64)
      && (r.Err? ==> next == w && (r.error == Forbidden || r.error == Validation || r.error == Database))
  {
    hide TrimSpace;
    BlankTrims(input.title);
  }

  /** What a creation answers and stores: the request, field by field, under the next identifier. */
  lemma CreateStored(w: World, store: Store, input: CreateTaskInput, env: Env)
    requires Create(w, input, env).1.Ok?
    ensures
      var (next, t) := (Create(w, input, env).0, Create(w, input, env).1.value);
      && 0 <= w.db.lastTask < MAX_INT64 && t.id == w.db.lastTask + 1 && t.teamId == input.teamId
      && TrimmedTo(input.title, t.title) && t.description == input.description
      && t.status == (if input.status == "" then "todo" else input.status)
      && t.assignee == input.assignee && t.createdBy == input.actorId
      && t.createdAt == t.updatedAt == -62_135_596_800
      && next.db.tasks == w.db.tasks[t.id := t.(createdAt := env.dbNow, updatedAt := env.dbNow)]
      && next.db.lastTask == t.id && next.db.history == w.db.history && next.roster == w.roster
    ensures CreateStore(w, store, input, env)
            == InvalidateTeam(store, env.redisNow, input.teamId, env.smembersFails, env.delFails).0
  {
    hide TrimSpace, InvalidateTeam;
    TrimSpaceUnique(input.title, TrimSpace(input.title));
  }

  // ---- Update ----

  /** row is t with the four editable columns as requested; unset wins over assign, what is not given stays. */
  ghost predicate AsRequested(t: Task, input: UpdateTaskInput, row: Task) {
    && row == t.(title := row.title, description := row.description, status := row.status, assignee := row.assignee)
    && (if input.title.Some? then TrimmedTo(input.title.value, row.title) else row.title == t.title)
    && row.description == (if input.description.Some? then input.description.value else t.description)
    && row.status == (if input.status.Some? then input.status.value else t.status)
    && row.assignee == (if input.unsetAssign then None else if input.assignee.Some? then input.assignee else t.assignee)
  }

  lemma OneRowAsRequested(t: Task, input: UpdateTaskInput, row: Task)
    ensures AsRequested(t, input, row) <==> row == Target(t, input)
  {
    hide TrimSpace, TrimmedTo;
    if input.title.Some? {
      TrimSpaceUnique(input.title.value, row.title);
      TrimSpaceUnique(input.title.value, TrimSpace(input.title.value));
    }
  }

  function AuditRow(t: Task, actor: Int64, field: string, before: string, after: string): TaskHistory {
    TaskHistory(0, t.id, actor, field, Some(before), Some(after), -62_135_596_800)
  }

  function NameOf(assignee: Option<Int64>): string {
    if assignee.None? then "" else FormatInt(assignee.value)
  }

  /** The audit rows of turning t into row, before they are stamped. */
  function AuditRows(t: Task, row: Task, actor: Int64): seq<TaskHistory> {
    (if row.title != t.title then [AuditRow(t, actor, "title", t.title, row.title)] else [])
    + (if row.description != t.description then [AuditRow(t, actor, "description", t.description, row.description)] else [])
    + (if row.status != t.status then [AuditRow(t, actor, "status", t.status, row.status)] else [])
    + (if row.assignee != t.assignee
       then [AuditRow(t, actor, "assignee_id", NameOf(t.assignee), NameOf(row.assignee))] else [])
  }

  lemma ChangesSpelled(t: Task, row: Task, actor: Int64)
    requires row.id == t.id
    ensures AllChanges(t, row, actor) == AuditRows(t, row, actor)
  {
    hide FormatInt, FieldText, Changes;
    ChangesUnfold(t, row, actor);
    FieldTexts(t);
    FieldTexts(row);
    AssigneeTextsAgree(t, row);
  }

  predicate UpdateAllowed(input: UpdateTaskInput) {
    && (input.title.Some? ==> !AllSpace(input.title.value))
    && (input.status.Some? ==>
          input.status.value == "todo" || input.status.value == "in_progress" || input.status.value == "done")
  }

  lemma AllowedIsAcceptable(input: UpdateTaskInput)
    ensures Acceptable(input) <==> UpdateAllowed(input)
  {
    hide TrimSpace;
    if input.title.Some? { BlankTrims(input.title.value); }
  }

  /** The task is there, and the actor is a member of its team. */
  predicate Reaches(w: World, taskId: Int64, actor: Int64, env: Env) {
    && !env.getFails && taskId in w.db.tasks
    && !env.memberFails && (w.db.tasks[taskId].teamId, actor) in w.roster.members
  }

  /** When an update succeeds, and with which error it fails otherwise. */
  lemma UpdateAnswer(w: World, input: UpdateTaskInput, env: Env)
    requires WorldOk(w)
    ensures
      var (next, r) := Update(w, input, env);
      var id := input.taskId;
      && (r == Err(NotFound) <==> !env.getFails && id !in w.db.tasks)
      && (r == Err(Forbidden) <==>
            !env.getFails && id in w.db.tasks
            && !env.memberFails && (w.db.tasks[id].teamId, input.actorId) !in w.roster.members)
      && (r == Err(Validation) <==> Reaches(w, id, input.actorId, env) && !UpdateAllowed(input))
      && (r.Ok? ==> Reaches(w, id, input.actorId, env) && UpdateAllowed(input))
      && (Reaches(w, id, input.actorId, env) && UpdateAllowed(input) ==>
            forall row | AsRequested(w.db.tasks[id], input, row) ::
              r.Ok? <==> row == w.db.tasks[id] || env.fault.None?
                         || env.fault.value > |AuditRows(w.db.tasks[id], row, input.actorId)| + 2)
      && (r.Err? ==> next.db.tasks == w.db.tasks && next.db.history == w.db.history && next.roster == w.roster)
  {
    hide TrimSpace, UpdateWithHistory, AsRequested, AuditRows, AllSpace, AllChanges;
    AllowedIsAcceptable(input);
    if Reaches(w, input.taskId, input.actorId, env) && UpdateAllowed(input) {
      var t := w.db.tasks[input.taskId];
      var edit := Diff(t, input).value;
      DiffExact(t, input);
      UpdateWithHistoryAtomic(w.db, edit.row, edit.history, env.dbNow, env.fault);
      forall row | AsRequested(t, input, row)
        ensures Update(w, input, env).1.Ok?
                <==> row == t || env.fault.None? || env.fault.value > |AuditRows(t, row, input.actorId)| + 2
      {
        UpdateSucceeds(w, input, env, row);
      }
    }
  }

  lemma UpdateSucceeds(w: World, input: UpdateTaskInput, env: Env, row: Task)
    requires WorldOk(w) && Reaches(w, input.taskId, input.actorId, env) && UpdateAllowed(input)
    requires AsRequested(w.db.tasks[input.taskId], input, row)
    ensures var t := w.db.tasks[input.taskId];
            Update(w, input, env).1.Ok?
            <==> row == t || env.fault.None? || env.fault.value > |AuditRows(t, row, input.actorId)| + 2
  {
    hide TrimSpace, UpdateWithHistory, AsRequested, AuditRows, AllSpace, AllChanges;
    var t := w.db.tasks[input.taskId];
    AllowedIsAcceptable(input);
    OneRowAsRequested(t, input, row);
    var edit := Diff(t, input).value;
    assert edit.row == row;
    ChangesSpelled(t, row, input.actorId);
    assert |edit.history| == |AuditRows(t, row, input.actorId)|;
    NoChangeNoHistory(t, input);
    DiffExact(t, input);
    UpdateWithHistoryAtomic(w.db, edit.row, edit.history, env.dbNow, env.fault);
    var res := UpdateWithHistory(w.db, edit.row, edit.history, env.dbNow, env.fault);
    assert edit.history == [] ==> Update(w, input, env).1 == Ok(t);
    assert edit.history != [] ==> Update(w, input, env).0.db == res.0 && (Update(w, input, env).1.Ok? <==> res.1.Ok?);
  }

  /** What an update answers and stores: the row as requested, its audit rows, and the invalidation, if it changed. */
  lemma UpdateStored(w: World, store: Store, input: UpdateTaskInput, env: Env)
    requires WorldOk(w) && Update(w, input, env).1.Ok?
    ensures input.taskId in w.db.tasks
    ensures
      var t, (next, r) := w.db.tasks[input.taskId], Update(w, input, env);
      var row, after := r.value, UpdateStore(w, store, input, env);
      && AsRequested(t, input, row)
      && (row == t ==> next == w && after == store)
      && (row != t ==>
            && next.db.tasks == w.db.tasks[t.id := row.(updatedAt := env.dbNow)]
            && next.db.history == w.db.history + Stamped(AuditRows(t, row, input.actorId), w.db.lastHistory, env.dbNow)
            && next.db.lastTask == w.db.lastTask && next.roster == w.roster
            && after == InvalidateTeam(store, env.redisNow, t.teamId, env.smembersFails, env.delFails).0)
  {
    hide TrimSpace, UpdateWithHistory, FormatInt, AsRequested, AuditRows, InvalidateTeam, Changes, AllChanges;
    var t := w.db.tasks[input.taskId];
    DiffAccepts(t, input);
    var edit := Diff(t, input).value;
    NoChangeNoHistory(t, input);
    OneRowAsRequested(t, input, edit.row);
    ChangesSpelled(t, edit.row, input.actorId);
    if UpdateWrites(w, input, env) {
      UpdateStores(w, input, env);
      UpdateKeepsCounters(w, input, env);
    }
  }

  lemma UpdateKeepsCounters(w: World, input: UpdateTaskInput, env: Env)
    requires WorldOk(w) && UpdateWrites(w, input, env)
    ensures Update(w, input, env).0.db.lastTask == w.db.lastTask && Update(w, input, env).0.roster == w.roster
  {
    hide TrimSpace, Diff, UpdateWithHistory;
    var t := w.db.tasks[input.taskId];
    DiffAccepts(t, input);
    DiffExact(t, input);
    var edit := Diff(t, input).value;
    UpdateWithHistoryAtomic(w.db, edit.row, edit.history, env.dbNow, env.fault);
    UpdateRoster(w, input, env);
    assert Update(w, input, env).0.db == UpdateWithHistory(w.db, edit.row, edit.history, env.dbNow, env.fault).0;
  }

  // ---- List ----

  /** The page of all that was asked for: 20 rows unless a limit is given, never more than 100. */
  ghost predicate IsPage(rows: seq<Task>, all: seq<Task>, limit: int, offset: int) {
    var size := if limit <= 0 then 20 else if limit > 100 then 100 else limit;
    var from := if offset < 0 then 0 else offset;
    && |rows| == (if from >= |all| then 0 else if |all| - from < size then |all| - from else size)
    && forall i | 0 <= i < |rows| :: rows[i] == all[from + i]
  }

  lemma ClampedPage(db: Db, f: TaskFilter) returns (all: seq<Task>)
    requires WellFormed(db)
    ensures IsSelection(all, db.tasks, f)
    ensures List(db, Clamp(f)).Ok? && IsPage(List(db, Clamp(f)).value, all, f.limit, f.offset)
  {
    all := AllRows(db, Clamp(f));
    AllRowsMeans(db, Clamp(f));
  }

  /** When a list is answered, with which error not, and that the answer is the page of what the filter asks for. */
  lemma ListAnswer(w: World, f: TaskFilter, actor: Int64, env: Env) returns (all: seq<Task>)
    requires WorldOk(w)
    ensures IsSelection(all, w.db.tasks, f)
    ensures
      var r, member := ListTasks(w, f, actor, env), (f.teamId, actor) in w.roster.members;
      && (r == Err(Forbidden) <==> !env.memberFails && !member)
      && (r.Ok? <==> !env.memberFails && member && !env.queryFails)
      && (r.Err? ==> r.error == Forbidden || r.error == Database)
      && (r.Ok? ==> IsPage(r.value, all, f.limit, f.offset))
  {
    hide List, IsSelection, IsPage;
    all := ClampedPage(w.db, f);
  }

  /** The same of the cached service in every state a clean run reaches, whether it hits or misses. */
  lemma CachedListAnswer(w: World, store: Store, ttl: nat, f: TaskFilter, actor: Int64, env: Env) returns (all: seq<Task>)
    requires WorldOk(w) && ttl > 0 && f.status != Some("all") && CacheOk(store, w.db, env.redisNow, ttl)
    ensures IsSelection(all, w.db.tasks, f)
    ensures
      var r, member := CachedList(w, store, ttl, f, actor, env).1, (f.teamId, actor) in w.roster.members;
      && (r == Err(Forbidden) <==> !env.memberFails && !member)
      && (!env.memberFails && member && !env.queryFails ==> r.Ok?)
      && (r.Ok? ==> IsPage(r.value, all, f.limit, f.offset))
  {
    hide WorldOk, CacheOk, IsSelection, IsPage, ListTasks, CachedList, Hits;
    var op := ListOp(f, actor, env);
    CachedStepRefines(w, store, ttl, op);
    var spared := Spared(w, store, op);
    all := ListAnswer(w, f, actor, env);
    var same := ListAnswer(w, f, actor, spared.env);
    SameSelection(all, same, w.db.tasks, f);
  }

  /** In every clean run of the cached service each list that is answered is the page of what it asked for. */
  lemma RunListAnswer(w: World, ttl: nat, ops: seq<Op>, i: nat) returns (all: seq<Task>)
    requires WorldOk(w) && ttl > 0 && CleanRun(ops) && i < |ops| && ops[i].ListOp?
    ensures IsSelection(all, WorldBefore(w, ops, i).db.tasks, ops[i].filter)
    ensures var outs := CachedRun(w, ttl, ops).2;
            && |outs| == |ops| && outs[i].RowsOutcome?
            && (outs[i].rows.Ok? ==> IsPage(outs[i].rows.value, all, ops[i].filter.limit, ops[i].filter.offset))
  {
    hide WorldOk, CleanRun, IsSelection, IsPage, ListTasks, Hits, CachedRun, Run;
    CachedRunRefines(w, ttl, ops);
    RunGrows(w, ops, i);
    var before, store := WorldBefore(w, ops, i), StoreBefore(w, ttl, ops, i);
    assert Right(w, ttl, ops, i, CachedRun(w, ttl, ops).2[i]);
    all := ListAnswer(before, ops[i].filter, ops[i].actor, Spared(before, store, ops[i]).env);
  }

  lemma SameSelection(a: seq<Task>, b: seq<Task>, tasks: map<Int64, Task>, f: TaskFilter)
    requires IsSelection(a, tasks, f) && IsSelection(b, tasks, f)
    ensures a == b
  {
    SelectionUnique(a, b);
  }

  // ---- History ----

  /** When a history is answered, with which error not, and that the answer is the history of that task. */
  lemma HistoryAnswer(w: World, taskId: Int64, actor: Int64, env: Env)
    ensures
      var r := HistoryOf(w, taskId, actor, env);
      && (r == Err(NotFound) <==> !env.getFails && taskId !in w.db.tasks)
      && (r == Err(Forbidden) <==>
            !env.getFails && taskId in w.db.tasks
            && !env.memberFails && (w.db.tasks[taskId].teamId, actor) !in w.roster.members)
      && (r.Ok? <==> Reaches(w, taskId, actor, env) && !env.queryFails)
      && (r.Err? ==> r.error == NotFound || r.error == Forbidden || r.error == Database)
      && (r.Ok? ==> IsHistory(r.value, w.db, taskId))
  {
    hide IsHistory;
    HistoryMeans(w.db, taskId);
  }

  /**
   * In every run, a history asked for by call j of a task created by call i is the task's log newest first; read
   * backwards it replays the row as created into the row of that moment, and rewinds that row to the created one.
   */
  lemma HistoryReplays(w: World, ops: seq<Op>, i: nat, j: nat, start: int)
    requires WorldOk(w) && i < j < |ops| && ops[i].CreateOp? && ops[j].HistoryOp?
    requires Timed(w.db.history, start) && DbPaced(ops, start)
    requires Create(WorldBefore(w, ops, i), ops[i].create, ops[i].env).1.Ok?
    requires ops[j].taskId == Create(WorldBefore(w, ops, i), ops[i].create, ops[i].env).1.value.id
    requires |Run(w, ops).1| == |ops| && Run(w, ops).1[j].LogOutcome? && Run(w, ops).1[j].log.Ok?
    ensures Replays(WorldBefore(w, ops, i + 1), WorldBefore(w, ops, j), ops[j].taskId, Run(w, ops).1[j].log.value)
  {
    hide TrimSpace, Create, WorldOk, Timed, Step, Run, Replays;
    RunAnswers(w, ops);
    assert Run(w, ops).1[j] == Step(WorldBefore(w, ops, j), ops[j]).1;
    HistoryOpAnswer(WorldBefore(w, ops, j), ops[j]);
    assert ops[..j][..i] == ops[..i] && ops[..j][..i + 1] == ops[..i + 1];
    CreatedReplays(w, ops[..j], i, start);
  }

  /** The rows, oldest first, are a chained patch from the created row to the current one. */
  ghost predicate Replays(creation: World, now: World, id: Int64, rows: seq<TaskHistory>) {
    && id in creation.db.tasks && id in now.db.tasks
    && Chained(creation.db.tasks[id], Reverse(rows))
    && SameContent(Replay(creation.db.tasks[id], Reverse(rows)), now.db.tasks[id])
    && SameContent(Rewind(now.db.tasks[id], Reverse(rows)), creation.db.tasks[id])
  }

  lemma HistoryOpAnswer(w: World, op: Op)
    requires op.HistoryOp? && Step(w, op).1.LogOutcome? && Step(w, op).1.log.Ok?
    ensures Step(w, op).1.log.value == History(w.db, op.taskId)
  {
  }

  lemma CreatedReplays(w: World, ops: seq<Op>, i: nat, start: int)
    requires WorldOk(w) && i < |ops| && ops[i].CreateOp? && Timed(w.db.history, start) && DbPaced(ops, start)
    requires Create(WorldBefore(w, ops, i), ops[i].create, ops[i].env).1.Ok?
    ensures var id := Create(WorldBefore(w, ops, i), ops[i].create, ops[i].env).1.value.id;
            Replays(WorldBefore(w, ops, i + 1), Run(w, ops).0, id, History(Run(w, ops).0.db, id))
  {
    hide TrimSpace, Create, WorldOk, Timed, Step, Chained, Replay, Rewind, LogOf, History, SameContent;
    ReplayFromCreation(w, ops, i, start);
    ReverseTwice(LogOf(Run(w, ops).0.db.history, Create(WorldBefore(w, ops, i), ops[i].create, ops[i].env).1.value.id));
  }

  lemma ReverseTwice(log: seq<TaskHistory>)
    ensures Reverse(Reverse(log)) == log
  {
  }

  // ---- Invite ----

  predicate Invitable(role: Role) {
    role == "" || role == "member" || role == "admin"
  }

  predicate Manages(r: M.Roster, team: Int64, user: Int64) {
    && (team, user) in r.members
    && (r.members[(team, user)].role == "owner" || r.members[(team, user)].role == "admin")
  }

  /**
   * The roster changes only by an invitation of an owner or admin to somebody new, and then by exactly the invitee
   * with the role given, or "member" without one; each error comes exactly when its guard is the first to fail.
   */
  lemma InviteAnswer(r: M.Roster, input: InviteInput, memberFails: bool, invitee: Result<Int64, Error>,
                     insertFails: bool, emailFails: bool)
    ensures
      var (next, res) := Invite(r, input, memberFails, invitee, insertFails, emailFails);
      var asked := Invitable(input.role) && !memberFails && Manages(r, input.teamId, input.inviterId);
      var added := asked && invitee.Ok? && !insertFails && (input.teamId, invitee.value) !in r.members;
      && (!Invitable(input.role) ==> res == Err(Validation))
      && (Invitable(input.role) && memberFails ==> res == Err(Database))
      && (Invitable(input.role) && !memberFails && !asked ==> res == Err(Forbidden))
      && (asked && invitee == Err(NotFound) ==> res == Err(Validation))
      && (asked && invitee.Err? && invitee.error != NotFound ==> res == Err(invitee.error))
      && (asked && invitee.Ok? && insertFails ==> res == Err(Database))
      && (asked && invitee.Ok? && !insertFails && !added ==> res == Err(Conflict))
      && (added ==> res == if emailFails then Err(EmailFailed) else Ok(()))
      && (res.Ok? <==> added && !emailFails)
      && next == if !added then r
                 else r.(members := r.members[(input.teamId, invitee.value) :=
                   TeamMember(input.teamId, invitee.value, if input.role == "" then "member" else input.role)])
  {
  }

  // ---- creating a team ----

  /** When a team is created, and that it is stored with its creator as its one member and owner. */
  lemma CreateTeamAnswer(r: M.Roster, name: string, owner: Int64, fault: Option<nat>)
    requires M.WellFormedRoster(r)
    ensures
      var (next, res) := CreateTeam(r, name, owner, fault);
      && (res == Err(Validation) <==> AllSpace(name))
      && (res.Ok? <==> !AllSpace(name) && r.lastTeam < MAX_INT64 && (fault.None? || fault.value > 3))
      && (res.Err? ==> next.teams == r.teams && next.members == r.members && (res.error == Validation || res.error == Database))
      && (res.Ok? ==>
            var t := res.value;
            && t.id == r.lastTeam + 1 && TrimmedTo(name, t.name) && t.createdBy == owner
            && next.teams == r.teams[t.id := t]
            && next.members == r.members[(t.id, owner) := TeamMember(t.id, owner, "owner")])
  {
    hide TrimSpace;
    BlankTrims(name);
    TrimSpaceUnique(name, TrimSpace(name));
    M.CreateWithOwnerAtomic(r, TrimSpace(name), owner, fault);
  }
}
