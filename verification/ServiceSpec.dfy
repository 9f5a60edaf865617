/**
 * What TaskService and TeamService do, as functions of the stored state: once without any cache (the reference),
 * and once with the keyspace threaded through. Clocks and failures of the outside world are inputs.
 */
module ServiceSpec {
  import opened Wrappers
  import opened Domain
  import opened Text
  import opened Redis
  import opened KeyCodec
  import opened AuditDiff
  import S = TaskStore
  import M = TeamStore
  import C = CacheCommands

  /** One call's surroundings: both clocks and which round trips fail, that is, have no effect and report an error. */
  datatype Env = Env(
    redisNow: nat,
    dbNow: int,
    memberFails: bool,
    getFails: bool,
    queryFails: bool,
    insertFails: bool,
    fault: S.Fault,
    cacheGetFails: bool,
    cacheSetFails: bool,
    smembersFails: bool,
    delFails: bool)

  datatype World = World(db: S.Db, roster: M.Roster)

  datatype CreateTaskInput = CreateTaskInput(
    teamId: Int64,
    title: string,
    description: string,
    status: TaskStatus,
    assignee: Option<Int64>,
    actorId: Int64)

  const DEFAULT_LIMIT := 20
  const MAX_LIMIT := 100

  function Clamp(f: TaskFilter): TaskFilter {
    f.(limit := if f.limit <= 0 then DEFAULT_LIMIT else if f.limit > MAX_LIMIT then MAX_LIMIT else f.limit,
       offset := if f.offset < 0 then 0 else f.offset)
  }

  function RequireMember(r: M.Roster, teamId: Int64, userId: Int64, env: Env): Result<(), Error> {
    if env.memberFails then Err(Database)
    else if (teamId, userId) in r.members then Ok(())
    else Err(Forbidden)
  }

  // ---- without a cache ----

  /** The status of a new task: todo unless given. */
  function StatusOf(input: CreateTaskInput): TaskStatus {
    if input.status == "" then STATUS_TODO else input.status
  }

  function NewTask(input: CreateTaskInput): Task {
    Task(0, input.teamId, TrimSpace(input.title), input.description, StatusOf(input), input.assignee, input.actorId,
         ZERO_TIME, ZERO_TIME)
  }

  function Create(w: World, input: CreateTaskInput, env: Env): (World, Result<Task, Error>) {
    var member := RequireMember(w.roster, input.teamId, input.actorId, env);
    if member.Err? then (w, Err(member.error))
    else if TrimSpace(input.title) == "" || !ValidStatus(StatusOf(input)) then (w, Err(Validation))
    else
      var res := S.InsertTask(w.db, NewTask(input), env.dbNow);
      if env.insertFails || res.Err? then (w, Err(Database))
      else (w.(db := res.value), Ok(NewTask(input).(id := res.value.lastTask)))
  }

  function GetByID(db: S.Db, id: Int64, env: Env): Result<Task, Error> {
    if env.getFails then Err(Database) else S.GetByID(db, id)
  }

  function Update(w: World, input: UpdateTaskInput, env: Env): (World, Result<Task, Error>) {
    var current := GetByID(w.db, input.taskId, env);
    if current.Err? then (w, Err(current.error))
    else
      var member := RequireMember(w.roster, current.value.teamId, input.actorId, env);
      if member.Err? then (w, Err(member.error))
      else
        match Diff(current.value, input)
        case Err(e) => (w, Err(e))
        case Ok(edit) =>
          if edit.history == [] then (w, Ok(current.value))
          else
            var (db, res) := S.UpdateWithHistory(w.db, edit.row, edit.history, env.dbNow, env.fault);
            (w.(db := db), if res.Err? then Err(res.error) else Ok(edit.row))
  }

  function ListTasks(w: World, f: TaskFilter, actor: Int64, env: Env): Result<seq<Task>, Error> {
    var member := RequireMember(w.roster, f.teamId, actor, env);
    if member.Err? then Err(member.error)
    else if env.queryFails then Err(Database)
    else S.List(w.db, Clamp(f))
  }

  function HistoryOf(w: World, taskId: Int64, actor: Int64, env: Env): Result<seq<TaskHistory>, Error> {
    var t := GetByID(w.db, taskId, env);
    if t.Err? then Err(t.error)
    else
      var member := RequireMember(w.roster, t.value.teamId, actor, env);
      if member.Err? then Err(member.error)
      else if env.queryFails then Err(Database)
      else Ok(S.History(w.db, taskId))
  }

  // ---- with the cache ----

  /** A failed invalidation is only logged. */
  function Invalidate(store: Store, teamId: Int64, env: Env): Store {
    C.InvalidateTeam(store, env.redisNow, teamId, env.smembersFails, env.delFails).0
  }

  function CreateStore(w: World, store: Store, input: CreateTaskInput, env: Env): Store {
    if Create(w, input, env).1.Ok? then Invalidate(store, input.teamId, env) else store
  }

  /** An update invalidates only when it wrote something. */
  predicate UpdateWrites(w: World, input: UpdateTaskInput, env: Env) {
    Update(w, input, env).1.Ok? && Diff(w.db.tasks[input.taskId], input).value.history != []
  }

  function UpdateStore(w: World, store: Store, input: UpdateTaskInput, env: Env): Store {
    if UpdateWrites(w, input, env) then Invalidate(store, w.db.tasks[input.taskId].teamId, env) else store
  }

  /** GET; on anything but rows, the database, and a SET whose failure is only logged. */
  function CachedList(w: World, store: Store, ttl: nat, f: TaskFilter, actor: Int64, env: Env): (Store, Result<seq<Task>, Error>) {
    var member := RequireMember(w.roster, f.teamId, actor, env);
    if member.Err? then (store, Err(member.error))
    else
      var g := Clamp(f);
      var cached := if env.cacheGetFails then Err(Database) else Get(store, env.redisNow, TasksKey(g));
      if cached.Ok? && cached.value.Some? then (store, Ok(cached.value.value))
      else
        var rows := if env.queryFails then Err(Database) else S.List(w.db, g);
        if rows.Err? then (store, rows)
        else (if env.cacheSetFails then store else C.SetTasks(store, env.redisNow, ttl, TasksKey(g), rows.value), rows)
  }

  // ---- teams ----

  datatype InviteInput = InviteInput(teamId: Int64, inviterId: Int64, role: Role)

  function RoleOf(input: InviteInput): Role {
    if input.role == "" then ROLE_MEMBER else input.role
  }

  function CreateTeam(r: M.Roster, name: string, ownerId: Int64, fault: Option<nat>): (M.Roster, Result<Team, Error>) {
    if TrimSpace(name) == "" then (r, Err(Validation))
    else
      var (next, id) := M.CreateWithOwner(r, TrimSpace(name), ownerId, fault);
      (next, if id.Err? then Err(id.error) else Ok(Team(id.value, TrimSpace(name), ownerId)))
  }

  /** The permission checks that come before the insert; invitee is the answer of the user lookup. */
  function MayInvite(r: M.Roster, input: InviteInput, memberFails: bool, invitee: Result<Int64, Error>): Result<Int64, Error> {
    if !ValidRole(RoleOf(input)) || RoleOf(input) == ROLE_OWNER then Err(Validation)
    else if memberFails then Err(Database)
    else if (input.teamId, input.inviterId) !in r.members then Err(Forbidden)
    else if !CanManageMembers(r.members[(input.teamId, input.inviterId)].role) then Err(Forbidden)
    else if invitee == Err(NotFound) then Err(Validation)
    else invitee
  }

  function Invite(r: M.Roster, input: InviteInput, memberFails: bool, invitee: Result<Int64, Error>,
                  insertFails: bool, emailFails: bool): (M.Roster, Result<(), Error>) {
    match MayInvite(r, input, memberFails, invitee)
    case Err(e) => (r, Err(e))
    case Ok(id) =>
      if insertFails then (r, Err(Database))
      else
        match M.InsertMember(r, input.teamId, id, RoleOf(input))
        case Err(e) => (r, Err(Conflict))
        case Ok(next) => (next, if emailFails then Err(EmailFailed) else Ok(()))
  }
}
