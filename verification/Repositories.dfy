/** TaskRepo and TeamRepo (internal/repository): tables changed in place, statement by statement, with rollback. */
module Repositories {
  import opened Wrappers
  import opened Domain
  import S = TaskStore
  import M = TeamStore

  class TaskRepo {
    var db: S.Db
    /** The image to restore while a transaction is open. */
    var saved: Option<S.Db>

    ghost predicate Idle()
      reads this
    {
      saved == None
    }

    constructor ()
      ensures db == S.EMPTY_DB && Idle()
    {
      db, saved := S.EMPTY_DB, None;
    }

    method Create(t: Task, now: int, fails: bool) returns (r: Result<Int64, Error>)
      modifies this`db
      ensures var res := S.InsertTask(old(db), t, now);
              if fails || res.Err? then db == old(db) && r == Err(Database)
              else db == res.value && r == Ok(db.lastTask)
    {
      var res := S.InsertTask(db, t, now);
      if fails || res.Err? {
        return Err(Database);
      }
      db := res.value;
      return Ok(db.lastTask);
    }

    method GetByID(id: Int64, fails: bool) returns (r: Result<Task, Error>)
      ensures r == if fails then Err(Database) else S.GetByID(db, id)
    {
      if fails {
        return Err(Database);
      }
      if id !in db.tasks {
        return Err(NotFound);
      }
      return Ok(db.tasks[id]);
    }

    method List(f: TaskFilter, fails: bool) returns (r: Result<seq<Task>, Error>)
      ensures r == if fails then Err(Database) else S.List(db, f)
      ensures r.Ok? ==> forall t | t in r.value ::
                && t.teamId == f.teamId && (f.status.Some? ==> t.status == f.status.value)
                && (f.assignee.Some? ==> t.assignee == Some(f.assignee.value))
    {
      var where := [S.TeamIs(f.teamId)];
      S.AndAlso([], S.TeamIs(f.teamId));
      assert [] + where == where;
      if f.status.Some? {
        S.AndAlso(where, S.StatusIs(f.status.value));
        where := where + [S.StatusIs(f.status.value)];
      }
      if f.assignee.Some? {
        S.AndAlso(where, S.AssigneeIs(f.assignee.value));
        where := where + [S.AssigneeIs(f.assignee.value)];
      }
      S.WhereMeans(db.tasks, f, where, db.lastTask);
      S.SelectMeets(db.tasks, f, db.lastTask);
      r := if fails then Err(Database) else S.RunSelect(db, where, f.limit, f.offset);
    }

    method History(taskId: Int64, fails: bool) returns (r: Result<seq<TaskHistory>, Error>)
      ensures fails ==> r == Err(Database)
      ensures !fails ==> r == Ok(S.History(db, taskId)) && S.IsHistory(r.value, db, taskId)
    {
      if fails {
        return Err(Database);
      }
      var items: seq<TaskHistory> := [];
      for i := 0 to |db.history|
        invariant items == S.NewestFirst(S.LogOf(db.history[..i], taskId))
      {
        assert db.history[..i + 1][..i] == db.history[..i];
        if db.history[i].taskId == taskId {
          items := S.InsertNewest(db.history[i], items);
        }
      }
      assert db.history[..|db.history|] == db.history;
      S.HistoryMeans(db, taskId);
      return Ok(items);
    }

    // ---- transactions ----

    method Begin()
      requires Idle()
      modifies this`saved
      ensures saved == Some(db)
    {
      saved := Some(db);
    }

    /** Undoes the open transaction, if any; AUTO_INCREMENT counters keep what they handed out. */
    method Rollback()
      modifies this
      ensures Idle()
      ensures db == if old(saved).Some? then old(saved).value.(lastHistory := old(db).lastHistory) else old(db)
    {
      if saved.Some? {
        db := saved.value.(lastHistory := db.lastHistory);
        saved := None;
      }
    }

    method Commit()
      modifies this`saved
      ensures Idle()
    {
      saved := None;
    }

    /** The row and its audit rows in one transaction, with the deferred rollback on every way out. */
    method UpdateWithHistory(t: Task, history: seq<TaskHistory>, now: int, fault: S.Fault) returns (r: Result<(), Error>)
      requires Idle()
      modifies this
      ensures Idle() && (db, r) == S.UpdateWithHistory(old(db), t, history, now, fault)
    {
      if fault == Some(0) {
        return Err(Database);
      }
      Begin();
      if fault == Some(1) {
        Rollback();
        return Err(Database);
      }
      db := S.UpdateRow(db, t, now);
      for i := 0 to |history|
        invariant saved == Some(old(db)) && db == S.InsertAll(S.UpdateRow(old(db), t, now), history[..i], now)
        invariant fault.Some? ==> fault.value >= 2 + i
      {
        if fault == Some(2 + i) {
          CountInserts(S.UpdateRow(old(db), t, now), history[..i], now);
          Rollback();
          return Err(Database);
        }
        assert history[..i + 1][..i] == history[..i];
        db := S.InsertHistory(db, history[i], now);
      }
      assert history[..|history|] == history;
      if fault == Some(2 + |history|) {
        CountInserts(S.UpdateRow(old(db), t, now), history, now);
        Rollback();
        return Err(Database);
      }
      Commit();
      Rollback();
      return Ok(());
    }
  }

  lemma {:induction false} CountInserts(db: S.Db, hs: seq<TaskHistory>, now: int)
    ensures S.InsertAll(db, hs, now).lastHistory == db.lastHistory + |hs|
  {
    if hs != [] { CountInserts(db, hs[..|hs| - 1], now); }
  }

  class TeamRepo {
    var roster: M.Roster
    var saved: Option<M.Roster>

    ghost predicate Idle()
      reads this
    {
      saved == None
    }

    constructor ()
      ensures roster == M.Roster(map[], 0, map[]) && Idle()
    {
      roster, saved := M.Roster(map[], 0, map[]), None;
    }

    method GetMember(teamId: Int64, userId: Int64, fails: bool) returns (r: Result<TeamMember, Error>)
      ensures r == if fails then Err(Database) else M.GetMember(roster, teamId, userId)
    {
      if fails {
        return Err(Database);
      }
      if (teamId, userId) !in roster.members {
        return Err(NotFound);
      }
      return Ok(roster.members[(teamId, userId)]);
    }

    method AddMember(teamId: Int64, userId: Int64, role: Role, fails: bool) returns (r: Result<(), Error>)
      modifies this`roster
      ensures var res := M.InsertMember(old(roster), teamId, userId, role);
              if fails then roster == old(roster) && r == Err(Database)
              else if res.Err? then roster == old(roster) && r == Err(Conflict)
              else roster == res.value && r == Ok(())
    {
      if fails {
        return Err(Database);
      }
      var res := M.InsertMember(roster, teamId, userId, role);
      if res.Err? {
        return Err(Conflict);
      }
      roster := res.value;
      return Ok(());
    }

    method Rollback()
      requires saved.Some?
      modifies this
      ensures Idle() && roster == old(saved).value.(lastTeam := old(roster).lastTeam)
    {
      roster := saved.value.(lastTeam := roster.lastTeam);
      saved := None;
    }

    /** The callback of CreateWithOwner, run inside withTx. */
    method InsertTeamAndOwner(name: string, ownerId: Int64, fault: Option<nat>) returns (r: Result<Int64, Error>)
      modifies this`roster
      ensures
        var t := M.InsertTeam(old(roster), name, ownerId);
        if fault == Some(1) || t.Err? then roster == old(roster) && r.Err? && r.error == Database
        else if fault == Some(2) || M.InsertMember(t.value, t.value.lastTeam, ownerId, ROLE_OWNER).Err?
        then roster == t.value && r == Err(Database)
        else roster == M.InsertMember(t.value, t.value.lastTeam, ownerId, ROLE_OWNER).value && r == Ok(t.value.lastTeam)
    {
      if fault == Some(1) {
        return Err(Database);
      }
      var t := M.InsertTeam(roster, name, ownerId);
      if t.Err? {
        return Err(Database);
      }
      roster := t.value;
      var teamId := roster.lastTeam;
      if fault == Some(2) {
        return Err(Database);
      }
      var m := M.InsertMember(roster, teamId, ownerId, ROLE_OWNER);
      if m.Err? {
        return Err(Database);
      }
      roster := m.value;
      return Ok(teamId);
    }

    /** withTx around the callback: rollback when it fails, commit otherwise. */
    method CreateWithOwner(name: string, ownerId: Int64, fault: Option<nat>) returns (r: Result<Int64, Error>)
      requires Idle()
      modifies this
      ensures Idle() && (roster, r) == M.CreateWithOwner(old(roster), name, ownerId, fault)
    {
      if fault == Some(0) {
        return Err(Database);
      }
      saved := Some(roster);
      r := InsertTeamAndOwner(name, ownerId, fault);
      if r.Err? {
        Rollback();
        return;
      }
      if fault == Some(3) {
        Rollback();
        return Err(Database);
      }
      saved := None;
    }
  }
}
