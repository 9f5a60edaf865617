/** TaskService and TeamService (internal/service) as objects over their repositories and the cache. */
module Services {
  import opened Wrappers
  import opened Domain
  import opened Text
  import opened KeyCodec
  import opened AuditDiff
  import opened Repositories
  import opened Cache
  import Spec = ServiceSpec
  import S = TaskStore
  import M = TeamStore

  /** normalizeFilter: the filter rewritten in place. */
  method NormalizeFilter(f: TaskFilter) returns (g: TaskFilter)
    ensures g == Spec.Clamp(f)
    ensures 1 <= g.limit <= 100 && g.offset >= 0 && g == f.(limit := g.limit, offset := g.offset)
    ensures 1 <= f.limit <= 100 ==> g.limit == f.limit
    ensures f.limit <= 0 ==> g.limit == 20
    ensures f.limit > 100 ==> g.limit == 100
    ensures g.offset == if f.offset >= 0 then f.offset else 0
  {
    g := f;
    if g.limit <= 0 {
      g := g.(limit := Spec.DEFAULT_LIMIT);
    }
    if g.limit > Spec.MAX_LIMIT {
      g := g.(limit := Spec.MAX_LIMIT);
    }
    if g.offset < 0 {
      g := g.(offset := 0);
    }
  }

  class TaskService {
    const tasks: TaskRepo
    const teams: TeamRepo
    const cache: RedisCache

    constructor (tasks: TaskRepo, teams: TeamRepo, cache: RedisCache)
      ensures this.tasks == tasks && this.teams == teams && this.cache == cache
    {
      this.tasks, this.teams, this.cache := tasks, teams, cache;
    }

    ghost function World(): Spec.World
      reads tasks, teams
    {
      Spec.World(tasks.db, teams.roster)
    }

    method RequireMember(teamId: Int64, userId: Int64, env: Spec.Env) returns (r: Result<(), Error>)
      ensures r == Spec.RequireMember(teams.roster, teamId, userId, env)
    {
      var m := teams.GetMember(teamId, userId, env.memberFails);
      if m.Err? {
        return Err(if m.error == NotFound then Forbidden else m.error);
      }
      return Ok(());
    }

    method Invalidate(teamId: Int64, env: Spec.Env)
      modifies cache
      ensures cache.store == Spec.Invalidate(old(cache.store), teamId, env)
    {
      var _ := cache.InvalidateTeam(teamId, env.redisNow, env.smembersFails, env.delFails);
    }

    method Create(input: Spec.CreateTaskInput, env: Spec.Env) returns (r: Result<Task, Error>)
      modifies tasks, cache
      ensures (World(), r) == Spec.Create(old(World()), input, env)
      ensures cache.store == Spec.CreateStore(old(World()), old(cache.store), input, env)
      ensures tasks.saved == old(tasks.saved)
    {
      var member := RequireMember(input.teamId, input.actorId, env);
      if member.Err? {
        return Err(member.error);
      }
      var title := TrimSpace(input.title);
      if title == "" {
        return Err(Validation);
      }
      var status := input.status;
      if status == "" {
        status := STATUS_TODO;
      }
      if !ValidStatus(status) {
        return Err(Validation);
      }
      var t := Task(0, input.teamId, title, input.description, status, input.assignee, input.actorId, ZERO_TIME, ZERO_TIME);
      var id := tasks.Create(t, env.dbNow, env.insertFails);
      if id.Err? {
        return Err(id.error);
      }
      t := t.(id := id.value);
      Invalidate(input.teamId, env);
      return Ok(t);
    }

    method List(filter: TaskFilter, actorId: Int64, env: Spec.Env) returns (r: Result<seq<Task>, Error>)
      modifies cache
      ensures (cache.store, r) == Spec.CachedList(World(), old(cache.store), cache.ttl, filter, actorId, env)
    {
      hide TasksKey;
      var member := RequireMember(filter.teamId, actorId, env);
      if member.Err? {
        return Err(member.error);
      }
      var f := NormalizeFilter(filter);
      var key := TasksKey(f);
      var cached := cache.GetTasks(key, env.redisNow, env.cacheGetFails);
      if cached.Ok? && cached.value.Some? {
        return Ok(cached.value.value);
      }
      r := tasks.List(f, env.queryFails);
      if r.Err? {
        return;
      }
      var _ := cache.SetTasks(key, r.value, env.redisNow, env.cacheSetFails);
    }

    method Update(input: UpdateTaskInput, env: Spec.Env) returns (r: Result<Task, Error>)
      requires tasks.Idle()
      modifies tasks, cache
      ensures tasks.Idle()
      ensures (World(), r) == Spec.Update(old(World()), input, env)
      ensures cache.store == Spec.UpdateStore(old(World()), old(cache.store), input, env)
    {
      var current := tasks.GetByID(input.taskId, env.getFails);
      if current.Err? {
        return Err(current.error);
      }
      var member := RequireMember(current.value.teamId, input.actorId, env);
      if member.Err? {
        return Err(member.error);
      }
      var edit := ComputeEdit(current.value, input);
      if edit.Err? {
        return Err(edit.error);
      }
      if |edit.value.history| == 0 {
        return Ok(current.value);
      }
      var done := tasks.UpdateWithHistory(edit.value.row, edit.value.history, env.dbNow, env.fault);
      if done.Err? {
        return Err(done.error);
      }
      Invalidate(current.value.teamId, env);
      return Ok(edit.value.row);
    }

    method History(taskId: Int64, actorId: Int64, env: Spec.Env) returns (r: Result<seq<TaskHistory>, Error>)
      ensures r == Spec.HistoryOf(World(), taskId, actorId, env)
    {
      var t := tasks.GetByID(taskId, env.getFails);
      if t.Err? {
        return Err(t.error);
      }
      var member := RequireMember(t.value.teamId, actorId, env);
      if member.Err? {
        return Err(member.error);
      }
      r := tasks.History(taskId, env.queryFails);
    }
  }

  class TeamService {
    const teams: TeamRepo

    constructor (teams: TeamRepo)
      ensures this.teams == teams
    {
      this.teams := teams;
    }

    method Create(name: string, ownerId: Int64, fault: Option<nat>) returns (r: Result<Team, Error>)
      requires teams.Idle()
      modifies teams
      ensures teams.Idle() && (teams.roster, r) == Spec.CreateTeam(old(teams.roster), name, ownerId, fault)
    {
      var trimmed := TrimSpace(name);
      if trimmed == "" {
        return Err(Validation);
      }
      var id := teams.CreateWithOwner(trimmed, ownerId, fault);
      if id.Err? {
        return Err(id.error);
      }
      return Ok(Team(id.value, trimmed, ownerId));
    }

    /** user is the answer of the lookup by e-mail address. */
    method Invite(input: Spec.InviteInput, memberFails: bool, user: Result<Int64, Error>, insertFails: bool, emailFails: bool)
      returns (r: Result<(), Error>)
      modifies teams
      ensures (teams.roster, r) == Spec.Invite(old(teams.roster), input, memberFails, user, insertFails, emailFails)
      ensures teams.saved == old(teams.saved)
    {
      var role := input.role;
      if role == "" {
        role := ROLE_MEMBER;
      }
      if !ValidRole(role) || role == ROLE_OWNER {
        return Err(Validation);
      }
      var inviter := teams.GetMember(input.teamId, input.inviterId, memberFails);
      if inviter.Err? {
        return Err(if inviter.error == NotFound then Forbidden else inviter.error);
      }
      if !CanManageMembers(inviter.value.role) {
        return Err(Forbidden);
      }
      if user.Err? {
        return Err(if user.error == NotFound then Validation else user.error);
      }
      var added := teams.AddMember(input.teamId, user.value, role, insertFails);
      if added.Err? {
        return Err(added.error);
      }
      if emailFails {
        return Err(EmailFailed);
      }
      return Ok(());
    }
  }
}
