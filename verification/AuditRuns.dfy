/** What the audit trail says about whole runs of the service. */
module AuditRuns {
  import opened Wrappers
  import opened Domain
  import opened Text
  import opened TaskStore
  import opened AuditDiff
  import opened ServiceSpec
  import opened SerialRefinement

  // ---- one update, as stored ----

  /** a and b agree on everything but the time of the last change. */
  predicate SameContent(a: Task, b: Task) {
    a.(updatedAt := b.updatedAt) == b
  }

  /** What an update that writes leaves behind: the edited row stamped with the time, and its audit rows ending the log. */
  lemma UpdateStores(w: World, input: UpdateTaskInput, env: Env)
    requires WorldOk(w) && UpdateWrites(w, input, env)
    ensures Acceptable(input) && input.taskId in w.db.tasks && Diff(w.db.tasks[input.taskId], input).Ok?
    ensures
      var t := w.db.tasks[input.taskId];
      var edit := Diff(t, input).value;
      var next := Update(w, input, env).0.db;
      && next.tasks.Keys == w.db.tasks.Keys && edit.row.id == t.id
      && (forall id | id in w.db.tasks && id != t.id :: next.tasks[id] == w.db.tasks[id])
      && next.tasks[t.id] == edit.row.(updatedAt := env.dbNow)
      && next.history == w.db.history + Stamped(edit.history, w.db.lastHistory, env.dbNow)
      && Update(w, input, env).1 == Ok(edit.row)
      && WellFormed(next)
  {
    hide TrimSpace, Diff, UpdateWithHistory;
    var t := w.db.tasks[input.taskId];
    DiffAccepts(t, input);
    DiffExact(t, input);
    var edit := Diff(t, input).value;
    NoChangeNoHistory(t, input);
    UpdateWithHistoryAtomic(w.db, edit.row, edit.history, env.dbNow, env.fault);
    UpdateRowKeeps(w.db, edit.row, env.dbNow);
    var res := UpdateWithHistory(w.db, edit.row, edit.history, env.dbNow, env.fault);
    assert Update(w, input, env) == (w.(db := res.0), Ok(edit.row));
    assert res.1.Ok?;
  }

  /** Every other outcome of an update leaves both tables as they were. */
  lemma UpdateLeaves(w: World, input: UpdateTaskInput, env: Env)
    requires WorldOk(w) && !UpdateWrites(w, input, env)
    ensures var next := Update(w, input, env).0.db;
            next.tasks == w.db.tasks && next.history == w.db.history && next.lastTask == w.db.lastTask && WellFormed(next)
  {
    hide TrimSpace, Diff, UpdateWithHistory;
    if Update(w, input, env).0.db != w.db {
      var t := w.db.tasks[input.taskId];
      DiffAccepts(t, input);
      DiffExact(t, input);
      var edit := Diff(t, input).value;
      UpdateWithHistoryAtomic(w.db, edit.row, edit.history, env.dbNow, env.fault);
      var res := UpdateWithHistory(w.db, edit.row, edit.history, env.dbNow, env.fault);
      assert Update(w, input, env).0.db == res.0;
    }
  }

  /** Repeating an update changes nothing more: same content, no audit row, no invalidation. */
  lemma UpdateIdempotent(w: World, input: UpdateTaskInput, env: Env, again: Env)
    requires WorldOk(w) && Update(w, input, env).1.Ok? && !again.getFails && !again.memberFails
    ensures
      var (w1, first) := Update(w, input, env);
      var (w2, second) := Update(w1, input, again);
      && w2 == w1 && second.Ok? && SameContent(first.value, second.value)
      && second.value == w1.db.tasks[input.taskId] && !UpdateWrites(w1, input, again)
      && forall store :: UpdateStore(w1, store, input, again) == store
  {
    hide TrimSpace, UpdateWithHistory;
    var t := w.db.tasks[input.taskId];
    DiffAccepts(t, input);
    DiffIdempotent(t, input);
    NoChangeNoHistory(t, input);
    if UpdateWrites(w, input, env) {
      UpdateStores(w, input, env);
      var stored := Update(w, input, env).0.db.tasks[input.taskId];
      TargetIgnoresTime(Target(t, input), stored, input);
      NoChangeNoHistory(stored, input);
    }
  }

  lemma TargetIgnoresTime(a: Task, b: Task, input: UpdateTaskInput)
    requires SameContent(a, b) && Target(a, input) == a
    ensures Target(b, input) == b
  {
  }

  // ---- replay ignores stamps and times ----

  lemma {:induction false} ReplayIgnoresTime(a: Task, b: Task, log: seq<TaskHistory>)
    requires SameContent(a, b)
    ensures SameContent(Replay(a, log), Replay(b, log)) && (Chained(a, log) <==> Chained(b, log))
    decreases |log|
  {
    if log != [] {
      ReplayIgnoresTime(SetField(a, log[0].field, TextOf(log[0].newValue)),
                        SetField(b, log[0].field, TextOf(log[0].newValue)), log[1..]);
    }
  }

  lemma {:induction false} RewindIgnoresTime(a: Task, b: Task, log: seq<TaskHistory>)
    requires SameContent(a, b)
    ensures SameContent(Rewind(a, log), Rewind(b, log))
    decreases |log|
  {
    if log != [] {
      var h := log[|log| - 1];
      RewindIgnoresTime(SetField(a, h.field, TextOf(h.oldValue)), SetField(b, h.field, TextOf(h.oldValue)), log[..|log| - 1]);
    }
  }

  /** a and b are the same changes, stamped differently. */
  ghost predicate SameChanges(a: seq<TaskHistory>, b: seq<TaskHistory>) {
    |a| == |b| && forall i | 0 <= i < |a| ::
      a[i].field == b[i].field && a[i].oldValue == b[i].oldValue && a[i].newValue == b[i].newValue
  }

  lemma {:induction false} ReplayIgnoresStamps(t: Task, a: seq<TaskHistory>, b: seq<TaskHistory>)
    requires SameChanges(a, b)
    ensures Replay(t, a) == Replay(t, b) && (Chained(t, a) <==> Chained(t, b))
    decreases |a|
  {
    if a != [] {
      ReplayIgnoresStamps(SetField(t, a[0].field, TextOf(a[0].newValue)), a[1..], b[1..]);
    }
  }

  // ---- the log of a run ----

  /** Audit rows of one task written between two worlds of a run. */
  function Since(before: World, after: World, id: Int64): seq<TaskHistory>
    requires |before.db.history| <= |after.db.history|
  {
    LogOf(after.db.history[|before.db.history|..], id)
  }

  lemma {:induction false} LogOfOne(hs: seq<TaskHistory>, taskId: Int64, id: Int64)
    requires forall h | h in hs :: h.taskId == taskId
    ensures LogOf(hs, id) == if id == taskId then hs else []
  {
    if hs != [] {
      LogOfOne(hs[..|hs| - 1], taskId, id);
      assert hs[..|hs| - 1] + [hs[|hs| - 1]] == hs;
    }
  }

  /** One call: tables stay well formed, the log only grows, rows keep their identity. */
  ghost predicate Grows(a: World, b: World) {
    && WorldOk(b)
    && a.db.history <= b.db.history
    && (forall id | id in a.db.tasks ::
          id in b.db.tasks && SameRow(a.db.tasks[id], b.db.tasks[id]))
  }

  lemma StepGrows(w: World, op: Op)
    requires WorldOk(w)
    ensures Grows(w, Step(w, op).0)
  {
    hide TrimSpace, Diff, UpdateWithHistory, Update;
    match op
    case CreateOp(input, env) =>
      if Create(w, input, env).1.Ok? { InsertTaskKeeps(w.db, NewTask(input), env.dbNow); }
    case UpdateOp(input, env) =>
      UpdateRoster(w, input, env);
      if UpdateWrites(w, input, env) {
        UpdateStores(w, input, env);
        UpdateKeepsIdentity(w, input, env);
      } else {
        UpdateLeaves(w, input, env);
      }
    case _ =>
  }

  lemma UpdateRoster(w: World, input: UpdateTaskInput, env: Env)
    ensures Update(w, input, env).0.roster == w.roster
  {
  }

  lemma UpdateKeepsIdentity(w: World, input: UpdateTaskInput, env: Env)
    requires WorldOk(w) && UpdateWrites(w, input, env)
    ensures var a, b := w.db.tasks[input.taskId], Update(w, input, env).0.db.tasks;
            input.taskId in b && SameRow(a, b[input.taskId])
  {
    hide TrimSpace, UpdateWithHistory, Update;
    UpdateStores(w, input, env);
  }

  /** One call's audit rows about a task are a chained patch from its old row to its new row. */
  ghost predicate Patches(before: World, after: World, id: Int64)
    requires |before.db.history| <= |after.db.history| && id in before.db.tasks && id in after.db.tasks
  {
    var log := Since(before, after, id);
    Chained(before.db.tasks[id], log) && SameContent(Replay(before.db.tasks[id], log), after.db.tasks[id])
  }

  lemma StepPatches(w: World, op: Op, id: Int64)
    requires WorldOk(w) && id in w.db.tasks && Grows(w, Step(w, op).0)
    ensures Patches(w, Step(w, op).0, id)
  {
    hide TrimSpace, Diff, UpdateWithHistory, Update;
    var next := Step(w, op).0;
    assert next.db.history == w.db.history ==> next.db.history[|w.db.history|..] == [];
    if op.UpdateOp? {
      if UpdateWrites(w, op.update, op.env) {
        UpdateWritePatches(w, op.update, op.env, id);
      } else {
        UpdateLeaves(w, op.update, op.env);
      }
    }
  }

  lemma StampedTask(hs: seq<TaskHistory>, last: nat, now: int, taskId: Int64)
    requires forall h | h in hs :: h.taskId == taskId
    ensures forall h | h in Stamped(hs, last, now) :: h.taskId == taskId
    ensures SameChanges(hs, Stamped(hs, last, now))
  {
  }

  lemma UpdateWritePatches(w: World, input: UpdateTaskInput, env: Env, id: Int64)
    requires WorldOk(w) && id in w.db.tasks && UpdateWrites(w, input, env)
    ensures var next := Update(w, input, env).0;
            |w.db.history| <= |next.db.history| && id in next.db.tasks && Patches(w, next, id)
  {
    hide TrimSpace, Diff, UpdateWithHistory, Update;
    UpdateStores(w, input, env);
    var t, next := w.db.tasks[input.taskId], Update(w, input, env).0;
    var edit := Diff(t, input).value;
    var stamped := Stamped(edit.history, w.db.lastHistory, env.dbNow);
    assert next.db.history[|w.db.history|..] == stamped;
    DiffExact(t, input);
    StampedTask(edit.history, w.db.lastHistory, env.dbNow, t.id);
    LogOfOne(stamped, t.id, id);
    DiffInvertible(t, input);
    ReplayIgnoresStamps(t, edit.history, stamped);
  }

  lemma {:induction false} RunGrows(w: World, ops: seq<Op>, i: nat)
    requires WorldOk(w) && i <= |ops|
    ensures WorldOk(WorldBefore(w, ops, i)) && Grows(WorldBefore(w, ops, i), Run(w, ops).0)
    decreases |ops|
  {
    hide Step;
    if i == |ops| {
      assert ops[..i] == ops;
      if ops != [] {
        RunGrows(w, ops[..|ops| - 1], 0);
        StepGrows(Run(w, ops[..|ops| - 1]).0, ops[|ops| - 1]);
      }
    } else {
      var init := ops[..|ops| - 1];
      assert init[..i] == ops[..i];
      RunGrows(w, init, i);
      StepGrows(Run(w, init).0, ops[|ops| - 1]);
    }
  }

  lemma PatchesCompose(a: World, b: World, c: World, id: Int64)
    requires a.db.history <= b.db.history <= c.db.history
    requires id in a.db.tasks && id in b.db.tasks && id in c.db.tasks
    requires Patches(a, b, id) && Patches(b, c, id)
    ensures Patches(a, c, id)
  {
    var t, ab, bc := a.db.tasks[id], Since(a, b, id), Since(b, c, id);
    assert c.db.history[|a.db.history|..] == b.db.history[|a.db.history|..] + c.db.history[|b.db.history|..];
    LogOfAppend(b.db.history[|a.db.history|..], c.db.history[|b.db.history|..], id);
    assert Since(a, c, id) == ab + bc;
    ReplayIgnoresTime(Replay(t, ab), b.db.tasks[id], bc);
    ReplayAppend(t, ab, bc);
    ChainedAppend(t, ab, bc);
  }

  /** Between any two points of a run, the audit rows of a task are a chained patch from one row to the other. */
  lemma {:induction false} RunPatches(w: World, ops: seq<Op>, i: nat, id: Int64)
    requires WorldOk(w) && i <= |ops| && id in WorldBefore(w, ops, i).db.tasks
    ensures var a, b := WorldBefore(w, ops, i), Run(w, ops).0;
            |a.db.history| <= |b.db.history| && id in b.db.tasks && Patches(a, b, id)
    decreases |ops|
  {
    hide Step, Patches, Grows;
    assert WorldOk(WorldBefore(w, ops, i)) && Grows(WorldBefore(w, ops, i), Run(w, ops).0) by { RunGrows(w, ops, i); }
    GrowsFacts(WorldBefore(w, ops, i), Run(w, ops).0, id);
    if i == |ops| {
      assert ops[..i] == ops;
      PatchesSelf(Run(w, ops).0, id);
    } else {
      var init, op := ops[..|ops| - 1], ops[|ops| - 1];
      var a, b, c := WorldBefore(w, ops, i), Run(w, init).0, Run(w, ops).0;
      assert init[..i] == ops[..i];
      RunGrows(w, init, i);
      GrowsFacts(a, b, id);
      RunPatches(w, init, i, id);
      assert WorldOk(b) by { WorldOkOf(a, b); }
      StepGrows(b, op);
      GrowsFacts(b, c, id);
      StepPatches(b, op, id);
      PatchesCompose(a, b, c, id);
    }
  }

  lemma PatchesSelf(w: World, id: Int64)
    requires id in w.db.tasks
    ensures Patches(w, w, id)
  {
  }

  lemma WorldOkOf(a: World, b: World)
    requires Grows(a, b)
    ensures WorldOk(b)
  {
  }

  lemma GrowsFacts(a: World, b: World, id: Int64)
    requires Grows(a, b) && id in a.db.tasks
    ensures a.db.history <= b.db.history && id in b.db.tasks
  {
  }

  // ---- from creation on ----

  /** MySQL's clock does not run backwards, starting from `start`. */
  ghost predicate DbPaced(ops: seq<Op>, start: int) {
    && (forall i | 0 <= i < |ops| :: start <= ops[i].env.dbNow)
    && (forall i, j | 0 <= i < j < |ops| :: ops[i].env.dbNow <= ops[j].env.dbNow)
  }

  lemma StampedTimed(history: seq<TaskHistory>, hs: seq<TaskHistory>, last: nat, now: int)
    requires Timed(history, now) && forall h | h in history :: h.id <= last
    ensures Timed(history + Stamped(hs, last, now), now)
  {
  }

  lemma StepTimed(w: World, op: Op)
    requires WorldOk(w) && Timed(w.db.history, op.env.dbNow)
    ensures Timed(Step(w, op).0.db.history, op.env.dbNow)
  {
    hide TrimSpace, Diff, UpdateWithHistory, Update;
    if op.UpdateOp? {
      if UpdateWrites(w, op.update, op.env) {
        UpdateStores(w, op.update, op.env);
        StampedTimed(w.db.history, Diff(w.db.tasks[op.update.taskId], op.update).value.history, w.db.lastHistory, op.env.dbNow);
      } else {
        UpdateLeaves(w, op.update, op.env);
      }
    }
  }

  lemma {:induction false} RunTimed(w: World, ops: seq<Op>, start: int, now: int)
    requires WorldOk(w) && Timed(w.db.history, start) && DbPaced(ops, start) && start <= now
    requires forall i | 0 <= i < |ops| :: ops[i].env.dbNow <= now
    ensures Timed(Run(w, ops).0.db.history, now)
    decreases |ops|
  {
    hide Step;
    if ops != [] {
      var init, op := ops[..|ops| - 1], ops[|ops| - 1];
      RunTimed(w, init, start, op.env.dbNow);
      RunGrows(w, init, 0);
      StepTimed(Run(w, init).0, op);
    }
  }

  lemma {:induction false} NoRowsNoLog(history: seq<TaskHistory>, id: Int64)
    requires forall h | h in history :: h.taskId != id
    ensures LogOf(history, id) == []
  {
    if history != [] {
      assert history[|history| - 1] in history;
      NoRowsNoLog(history[..|history| - 1], id);
    }
  }

  lemma NoLogYet(db: Db, id: Int64)
    requires WellFormed(db) && id !in db.tasks
    ensures LogOf(db.history, id) == []
  {
    NoRowsNoLog(db.history, id);
  }

  /**
   * For every task created in a run: replaying its whole log over the row as created gives its current row,
   * rewinding gives the created row back, every row's old value is what the previous ones left, and History
   * returns that log newest first.
   */
  lemma ReplayFromCreation(w: World, ops: seq<Op>, i: nat, start: int)
    requires WorldOk(w) && i < |ops| && ops[i].CreateOp? && Timed(w.db.history, start) && DbPaced(ops, start)
    requires Create(WorldBefore(w, ops, i), ops[i].create, ops[i].env).1.Ok?
    ensures
      var id := Create(WorldBefore(w, ops, i), ops[i].create, ops[i].env).1.value.id;
      var created, current := WorldBefore(w, ops, i + 1).db.tasks, Run(w, ops).0.db;
      var log := LogOf(current.history, id);
      && id in created && id in current.tasks
      && created[id] == NewTask(ops[i].create).(id := id, createdAt := ops[i].env.dbNow, updatedAt := ops[i].env.dbNow)
      && Chained(created[id], log)
      && SameContent(Replay(created[id], log), current.tasks[id])
      && SameContent(Rewind(current.tasks[id], log), created[id])
      && History(current, id) == Reverse(log)
  {
    hide TrimSpace, Step, Create, WorldOk;
    var before, a, b := WorldBefore(w, ops, i), WorldBefore(w, ops, i + 1), Run(w, ops).0;
    var id := Create(before, ops[i].create, ops[i].env).1.value.id;
    assert ops[..i + 1][..i] == ops[..i];
    assert WorldOk(before) by { RunGrows(w, ops, i); }
    CreationRow(before, ops[i]);
    assert a == Step(before, ops[i]).0;
    RunPatches(w, ops, i + 1, id);
    assert Grows(a, b) by { RunGrows(w, ops, i + 1); }
    WholeLog(a, b, id);
    var log := LogOf(b.db.history, id);
    RewindUndoesReplay(a.db.tasks[id], log);
    RewindIgnoresTime(Replay(a.db.tasks[id], log), b.db.tasks[id], log);
    var now := ops[|ops| - 1].env.dbNow;
    RunTimed(w, ops, start, now);
    HistoryIsReversedLog(b.db, id, now);
  }

  /** A created row is stored as asked, under a new identifier with an empty log. */
  lemma CreationRow(w: World, op: Op)
    requires WorldOk(w) && op.CreateOp? && Create(w, op.create, op.env).1.Ok?
    ensures var id, next := Create(w, op.create, op.env).1.value.id, Step(w, op).0.db;
            && id !in w.db.tasks && id in next.tasks && LogOf(next.history, id) == []
            && next.tasks[id] == NewTask(op.create).(id := id, createdAt := op.env.dbNow, updatedAt := op.env.dbNow)
  {
    hide TrimSpace;
    NoLogYet(w.db, Create(w, op.create, op.env).1.value.id);
  }

  /** With an empty log to start from, what was written since is the whole log. */
  lemma WholeLog(a: World, b: World, id: Int64)
    requires a.db.history <= b.db.history && LogOf(a.db.history, id) == []
    ensures LogOf(b.db.history, id) == Since(a, b, id)
  {
    assert b.db.history == a.db.history + b.db.history[|a.db.history|..];
    LogOfAppend(a.db.history, b.db.history[|a.db.history|..], id);
  }

  // ---- rows ----

  /** What the service promises of every stored row. */
  predicate RowOk(t: Task) {
    t.title != "" && Trimmed(t.title) && (t.status == "todo" || t.status == "in_progress" || t.status == "done")
  }

  ghost predicate RowsOk(db: Db) {
    forall id | id in db.tasks :: RowOk(db.tasks[id])
  }

  lemma StepRowsOk(w: World, op: Op)
    requires WorldOk(w) && RowsOk(w.db)
    ensures RowsOk(Step(w, op).0.db)
  {
    hide TrimSpace, UpdateWithHistory, Update;
    match op
    case CreateOp(input, env) =>
      TrimSpaceEnds(input.title);
    case UpdateOp(input, env) =>
      if UpdateWrites(w, input, env) {
        UpdateStores(w, input, env);
        if input.title.Some? { TrimSpaceEnds(input.title.value); }
      } else {
        UpdateLeaves(w, input, env);
      }
    case _ =>
  }

  /** In every world of every run titles are trimmed and non-empty, statuses valid, teams and creators unchanged. */
  lemma {:induction false} RunRowsOk(w: World, ops: seq<Op>)
    requires WorldOk(w) && RowsOk(w.db)
    ensures RowsOk(Run(w, ops).0.db) && Grows(w, Run(w, ops).0)
    decreases |ops|
  {
    hide Step, RowsOk;
    assert ops[..0] == [];
    RunGrows(w, ops, 0);
    if ops != [] {
      RunRowsOk(w, ops[..|ops| - 1]);
      StepRowsOk(Run(w, ops[..|ops| - 1]).0, ops[|ops| - 1]);
    }
  }

  // ---- done ----

  /** An audit row that says a task was moved to done, at or after cutoff. */
  predicate DoneRow(h: TaskHistory, cutoff: int) {
    h.field == STATUS && h.newValue == Some(STATUS_DONE) && h.changedAt >= cutoff
  }

  ghost predicate CountedDone(history: seq<TaskHistory>, id: Int64, cutoff: int) {
    exists h :: h in history && h.taskId == id && DoneRow(h, cutoff)
  }

  /** Call op moved the task from another status to done. */
  predicate MovesToDone(w: World, op: Op, id: Int64) {
    op.UpdateOp? && id in w.db.tasks && w.db.tasks[id].status != "done"
    && id in Step(w, op).0.db.tasks && Step(w, op).0.db.tasks[id].status == "done"
  }

  lemma EditCountsDone(t: Task, input: UpdateTaskInput, last: nat, now: int, id: Int64, cutoff: int)
    requires Acceptable(input)
    ensures Diff(t, input).Ok?
    ensures var e := Diff(t, input).value;
            CountedDone(Stamped(e.history, last, now), id, cutoff)
            <==> id == t.id && now >= cutoff && t.status != STATUS_DONE && e.row.status == STATUS_DONE
  {
    hide TrimSpace, Diff;
    DiffAccepts(t, input);
    DiffExact(t, input);
    var e := Diff(t, input).value;
    FieldTexts(t);
    FieldTexts(e.row);
    RecordsCountDone(t, e.row, e.history, input.actorId, last, now, id, cutoff);
  }

  lemma RecordsCountDone(t: Task, row: Task, hs: seq<TaskHistory>, actor: Int64, last: nat, now: int, id: Int64, cutoff: int)
    requires forall h | h in hs :: Records(h, t, row, actor)
    requires Mentions(hs, STATUS) <==> t.status != row.status
    requires FieldText(t, STATUS) == t.status && FieldText(row, STATUS) == row.status
    ensures CountedDone(Stamped(hs, last, now), id, cutoff)
            <==> id == t.id && now >= cutoff && t.status != STATUS_DONE && row.status == STATUS_DONE
  {
    hide FieldText;
    var stamped := Stamped(hs, last, now);
    if id == t.id && now >= cutoff && t.status != STATUS_DONE && row.status == STATUS_DONE {
      var i :| 0 <= i < |hs| && hs[i].field == STATUS;
      assert hs[i] in hs;
      assert stamped[i] in stamped && DoneRow(stamped[i], cutoff);
    }
    if CountedDone(stamped, id, cutoff) {
      var h :| h in stamped && h.taskId == id && DoneRow(h, cutoff);
      var i :| 0 <= i < |stamped| && stamped[i] == h;
      assert Records(hs[i], t, row, actor);
    }
  }

  lemma CountedAppend(a: seq<TaskHistory>, b: seq<TaskHistory>, id: Int64, cutoff: int)
    ensures CountedDone(a + b, id, cutoff) <==> CountedDone(a, id, cutoff) || CountedDone(b, id, cutoff)
  {
  }

  lemma StepCountsDone(w: World, op: Op, id: Int64, cutoff: int)
    requires WorldOk(w)
    ensures CountedDone(Step(w, op).0.db.history, id, cutoff)
            <==> CountedDone(w.db.history, id, cutoff) || (MovesToDone(w, op, id) && op.env.dbNow >= cutoff)
  {
    hide TrimSpace, Diff, UpdateWithHistory, Update, CountedDone;
    match op
    case UpdateOp(input, env) =>
      if UpdateWrites(w, input, env) {
        UpdateStores(w, input, env);
        var t := w.db.tasks[input.taskId];
        var stamped := Stamped(Diff(t, input).value.history, w.db.lastHistory, env.dbNow);
        EditCountsDone(t, input, w.db.lastHistory, env.dbNow, id, cutoff);
        CountedAppend(w.db.history, stamped, id, cutoff);
      } else {
        UpdateLeaves(w, input, env);
      }
    case _ =>
  }

  /**
   * Over every run, a task counts as done since cutoff exactly when it did at the start or some update since then
   * moved it from another status to done. Being created as done does not count, and no later call takes it back.
   */
  lemma {:induction false} RunCountsDone(w: World, ops: seq<Op>, id: Int64, cutoff: int)
    requires WorldOk(w)
    ensures CountedDone(Run(w, ops).0.db.history, id, cutoff)
            <==> CountedDone(w.db.history, id, cutoff)
                 || exists i :: 0 <= i < |ops| && MovesToDone(WorldBefore(w, ops, i), ops[i], id) && ops[i].env.dbNow >= cutoff
    decreases |ops|
  {
    hide Step, CountedDone, MovesToDone;
    if ops != [] {
      var n := |ops| - 1;
      var init, op := ops[..n], ops[n];
      RunCountsDone(w, init, id, cutoff);
      assert WorldOk(Run(w, init).0) by { RunGrows(w, init, 0); }
      StepCountsDone(Run(w, init).0, op, id, cutoff);
      assert forall i | 0 <= i < n :: init[..i] == ops[..i] && init[i] == ops[i];
      assert WorldBefore(w, ops, n) == Run(w, init).0;
      assert forall i | 0 <= i < n :: WorldBefore(w, ops, i) == WorldBefore(w, init, i);
    }
  }
}
