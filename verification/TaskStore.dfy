/** The tasks and task_history tables and the statements task_repo.go runs on them. */
module TaskStore {
  import opened Wrappers
  import opened Domain

  /** lastTask and lastHistory are the AUTO_INCREMENT counters. */
  datatype Db = Db(tasks: map<Int64, Task>, lastTask: Int64, history: seq<TaskHistory>, lastHistory: nat)

  const EMPTY_DB := Db(map[], 0, [], 0)

  ghost predicate WellFormed(db: Db) {
    && db.lastTask >= 0
    && (forall id | id in db.tasks :: 1 <= id <= db.lastTask && db.tasks[id].id == id)
    && (forall i | 0 <= i < |db.history| ::
          db.history[i].id <= db.lastHistory && db.history[i].taskId in db.tasks)
    && (forall i, j | 0 <= i < j < |db.history| :: db.history[i].id < db.history[j].id)
  }

  // ---- SELECT ----

  predicate Matches(t: Task, f: TaskFilter) {
    && t.teamId == f.teamId
    && (f.status.Some? ==> t.status == f.status.value)
    && (f.assignee.Some? ==> t.assignee == f.assignee)
  }

  /** Rows with 1 <= id <= hi that the filter asks for, highest id first. */
  function Select(tasks: map<Int64, Task>, f: TaskFilter, hi: Int64): seq<Task>
    decreases if hi < 0 then 0 else hi
  {
    if hi <= 0 then []
    else
      var rest := Select(tasks, f, hi - 1);
      if hi in tasks && Matches(tasks[hi], f) then [tasks[hi]] + rest else rest
  }

  /** All rows of a filter, before LIMIT and OFFSET. */
  function AllRows(db: Db, f: TaskFilter): seq<Task> {
    Select(db.tasks, f, db.lastTask)
  }

  /** LIMIT and OFFSET. */
  function Page(rows: seq<Task>, limit: nat, offset: nat): seq<Task> {
    if offset >= |rows| then []
    else if offset + limit >= |rows| then rows[offset..]
    else rows[offset..offset + limit]
  }

  /** A negative LIMIT or OFFSET is a syntax error to MySQL. */
  function List(db: Db, f: TaskFilter): Result<seq<Task>, Error> {
    if f.limit < 0 || f.offset < 0 then Err(Database)
    else Ok(Page(AllRows(db, f), f.limit, f.offset))
  }

  /** The conditions a list can put on a row; an assignee that is NULL equals nothing. */
  datatype Condition = TeamIs(teamId: Int64) | StatusIs(status: TaskStatus) | AssigneeIs(assignee: Int64)

  predicate Holds(t: Task, c: Condition) {
    match c
    case TeamIs(id) => t.teamId == id
    case StatusIs(status) => t.status == status
    case AssigneeIs(id) => t.assignee == Some(id)
  }

  predicate AllHold(t: Task, where: seq<Condition>) {
    forall i | 0 <= i < |where| :: Holds(t, where[i])
  }

  lemma AndAlso(where: seq<Condition>, c: Condition)
    ensures forall t :: AllHold(t, where + [c]) <==> AllHold(t, where) && Holds(t, c)
  {
    forall t ensures AllHold(t, where + [c]) <==> AllHold(t, where) && Holds(t, c) {
      var both := where + [c];
      assert both[|where|] == c;
      assert forall i | 0 <= i < |where| :: both[i] == where[i];
    }
  }

  /** Rows with 1 <= id <= hi that meet every condition, highest id first. */
  function SelectWhere(tasks: map<Int64, Task>, where: seq<Condition>, hi: Int64): seq<Task>
    decreases if hi < 0 then 0 else hi
  {
    if hi <= 0 then []
    else
      var rest := SelectWhere(tasks, where, hi - 1);
      if hi in tasks && AllHold(tasks[hi], where) then [tasks[hi]] + rest else rest
  }

  /** The statement with its page. */
  function RunSelect(db: Db, where: seq<Condition>, limit: int, offset: int): Result<seq<Task>, Error> {
    if limit < 0 || offset < 0 then Err(Database)
    else Ok(Page(SelectWhere(db.tasks, where, db.lastTask), limit, offset))
  }

  /** A WHERE clause that says what the filter says selects what the filter selects. */
  lemma {:induction false} WhereMeans(tasks: map<Int64, Task>, f: TaskFilter, where: seq<Condition>, hi: Int64)
    requires forall t :: AllHold(t, where) <==> Matches(t, f)
    ensures SelectWhere(tasks, where, hi) == Select(tasks, f, hi)
    decreases if hi < 0 then 0 else hi
  {
    if hi > 0 {
      WhereMeans(tasks, f, where, hi - 1);
    }
  }

  function GetByID(db: Db, id: Int64): Result<Task, Error> {
    if id in db.tasks then Ok(db.tasks[id]) else Err(NotFound)
  }

  predicate Newer(a: TaskHistory, b: TaskHistory) {
    a.changedAt > b.changedAt || (a.changedAt == b.changedAt && a.id > b.id)
  }

  function InsertNewest(h: TaskHistory, rows: seq<TaskHistory>): seq<TaskHistory> {
    if rows == [] || Newer(h, rows[0]) then [h] + rows
    else [rows[0]] + InsertNewest(h, rows[1..])
  }

  /** Latest change first, ties by falling identifier. */
  function NewestFirst(rows: seq<TaskHistory>): seq<TaskHistory> {
    if rows == [] then [] else InsertNewest(rows[|rows| - 1], NewestFirst(rows[..|rows| - 1]))
  }

  /** The audit log of one task in the order it was written. */
  function LogOf(history: seq<TaskHistory>, taskId: Int64): seq<TaskHistory> {
    if history == [] then []
    else
      var rest := LogOf(history[..|history| - 1], taskId);
      var h := history[|history| - 1];
      if h.taskId == taskId then rest + [h] else rest
  }

  function History(db: Db, taskId: Int64): seq<TaskHistory> {
    NewestFirst(LogOf(db.history, taskId))
  }

  // ---- INSERT and UPDATE ----

  /** The insert of a task; fails only when the identifier counter is exhausted. */
  function InsertTask(db: Db, t: Task, now: int): Result<Db, Error> {
    if db.lastTask < 0 || db.lastTask == MAX_INT64 then Err(Database)
    else
      var id: Int64 := db.lastTask + 1;
      Ok(db.(tasks := db.tasks[id := t.(id := id, createdAt := now, updatedAt := now)], lastTask := id))
  }

  /** The update of the four editable columns; the time of change moves only when the row changes. */
  function UpdateRow(db: Db, t: Task, now: int): Db {
    if t.id !in db.tasks then db
    else
      var before := db.tasks[t.id];
      var after := before.(title := t.title, description := t.description, status := t.status, assignee := t.assignee);
      db.(tasks := db.tasks[t.id := if after == before then before else after.(updatedAt := now)])
  }

  function InsertHistory(db: Db, h: TaskHistory, now: int): Db {
    db.(history := db.history + [h.(id := db.lastHistory + 1, changedAt := now)], lastHistory := db.lastHistory + 1)
  }

  function InsertAll(db: Db, hs: seq<TaskHistory>, now: int): Db {
    if hs == [] then db else InsertHistory(InsertAll(db, hs[..|hs| - 1], now), hs[|hs| - 1], now)
  }

  /** Statement numbers at which a transaction can fail: 0 BEGIN, 1 UPDATE, 2 + i the i-th INSERT, last COMMIT. */
  type Fault = Option<nat>

  predicate Fails(fault: Fault, history: seq<TaskHistory>) {
    fault.Some? && fault.value <= |history| + 2
  }

  /** History rows inserted before the fault. */
  function InsertedBefore(fault: Fault, history: seq<TaskHistory>): nat {
    if fault.None? || fault.value > |history| + 2 then |history|
    else if fault.value <= 2 then 0 else fault.value - 2
  }

  /** The row and its audit rows together, or nothing but burnt history identifiers. */
  function UpdateWithHistory(db: Db, t: Task, history: seq<TaskHistory>, now: int, fault: Fault): (Db, Result<(), Error>) {
    if Fails(fault, history)
    then (db.(lastHistory := db.lastHistory + InsertedBefore(fault, history)), Err(Database))
    else (InsertAll(UpdateRow(db, t, now), history, now), Ok(()))
  }

  // ---- what List means ----

  ghost predicate StrictlyDescending(rows: seq<Task>) {
    forall i, j | 0 <= i < j < |rows| :: rows[i].id > rows[j].id
  }

  /** rows are exactly the matching rows of the table, highest identifier first. */
  ghost predicate IsSelection(rows: seq<Task>, tasks: map<Int64, Task>, f: TaskFilter) {
    && StrictlyDescending(rows)
    && (forall t :: t in rows <==>
          && t.id in tasks && tasks[t.id] == t && t.teamId == f.teamId
          && (f.status.Some? ==> t.status == f.status.value)
          && (f.assignee.Some? ==> t.assignee == Some(f.assignee.value)))
  }

  lemma {:induction false} SelectMeans(tasks: map<Int64, Task>, f: TaskFilter, hi: Int64)
    requires forall id | id in tasks :: tasks[id].id == id
    ensures StrictlyDescending(Select(tasks, f, hi))
    ensures forall t :: t in Select(tasks, f, hi) <==>
              1 <= t.id <= hi && t.id in tasks && tasks[t.id] == t && Matches(t, f)
    decreases if hi < 0 then 0 else hi
  {
    if hi > 0 {
      SelectMeans(tasks, f, hi - 1);
    }
  }

  lemma AllRowsMeans(db: Db, f: TaskFilter)
    requires WellFormed(db)
    ensures IsSelection(AllRows(db, f), db.tasks, f)
  {
    SelectMeans(db.tasks, f, db.lastTask);
  }

  /** Every row of a list has what the filter asks for. */
  lemma {:induction false} SelectMeets(tasks: map<Int64, Task>, f: TaskFilter, hi: Int64)
    ensures forall t | t in Select(tasks, f, hi) ::
              && t.teamId == f.teamId && (f.status.Some? ==> t.status == f.status.value)
              && (f.assignee.Some? ==> t.assignee == Some(f.assignee.value))
    decreases if hi < 0 then 0 else hi
  {
    if hi > 0 {
      SelectMeets(tasks, f, hi - 1);
    }
  }

  /** A selection is unique: order and contents determine it. */
  lemma {:induction false} SelectionUnique(a: seq<Task>, b: seq<Task>)
    requires StrictlyDescending(a) && StrictlyDescending(b)
    requires forall t :: t in a <==> t in b
    ensures a == b
    decreases |a|
  {
    assert b != [] ==> b[0] in b;
    if a != [] {
      assert a[0] in b;
      assert b[0] in a;
      assert a[0] == b[0];
      forall t ensures t in a[1..] <==> t in b[1..] {
        if t in a[1..] { assert t in b; }
        if t in b[1..] { assert t in a; }
      }
      SelectionUnique(a[1..], b[1..]);
    }
  }

  // ---- pages ----

  lemma {:induction false} SelectIgnoresPaging(tasks: map<Int64, Task>, f: TaskFilter, offset: int, hi: Int64)
    ensures Select(tasks, f.(offset := offset), hi) == Select(tasks, f, hi)
    decreases if hi < 0 then 0 else hi
  {
    if hi > 0 {
      SelectIgnoresPaging(tasks, f, offset, hi - 1);
    }
  }

  /** The pages a client sees asking for offset, offset + limit, ... until one comes back empty. */
  function Walk(db: Db, f: TaskFilter): seq<seq<Task>>
    requires f.limit > 0 && f.offset >= 0
    decreases |AllRows(db, f)| - f.offset
  {
    var page := List(db, f).value;
    if page == [] then []
    else
      SelectIgnoresPaging(db.tasks, f, f.offset + f.limit, db.lastTask);
      [page] + Walk(db, f.(offset := f.offset + f.limit))
  }

  function Concat(pages: seq<seq<Task>>): seq<Task> {
    if pages == [] then [] else pages[0] + Concat(pages[1..])
  }

  /** The pages concatenate to everything from the offset on: no gap, no repeat, no reordering. */
  lemma {:induction false} PagesTile(db: Db, f: TaskFilter)
    requires f.limit > 0 && 0 <= f.offset <= |AllRows(db, f)|
    ensures Concat(Walk(db, f)) == AllRows(db, f)[f.offset..]
    decreases |AllRows(db, f)| - f.offset
  {
    var rows, g := AllRows(db, f), f.(offset := f.offset + f.limit);
    var page := List(db, f).value;
    if page != [] {
      SelectIgnoresPaging(db.tasks, f, g.offset, db.lastTask);
      assert ([page] + Walk(db, g))[1..] == Walk(db, g);
      if g.offset <= |rows| {
        PagesTile(db, g);
        assert page + rows[g.offset..] == rows[f.offset..];
      } else {
        assert Walk(db, g) == [];
      }
    }
  }

  /** The walk stops after exactly ceil(left / limit) pages. */
  lemma {:induction false} WalkLength(db: Db, f: TaskFilter)
    requires f.limit > 0 && 0 <= f.offset <= |AllRows(db, f)|
    ensures |AllRows(db, f)| - f.offset <= |Walk(db, f)| * f.limit < |AllRows(db, f)| - f.offset + f.limit
    decreases |AllRows(db, f)| - f.offset
  {
    var rows, g := AllRows(db, f), f.(offset := f.offset + f.limit);
    var page := List(db, f).value;
    if page != [] {
      SelectIgnoresPaging(db.tasks, f, g.offset, db.lastTask);
      var n := |Walk(db, g)|;
      assert |Walk(db, f)| == 1 + n;
      assert (1 + n) * f.limit == f.limit + n * f.limit;
      if g.offset <= |rows| {
        WalkLength(db, g);
      } else {
        assert n == 0;
      }
    }
  }

  // ---- what the writes keep ----

  /** A statement on rows of other teams changes no list of this one. */
  lemma {:induction false} SelectFrame(a: map<Int64, Task>, b: map<Int64, Task>, f: TaskFilter, hi: Int64)
    requires forall id: Int64 | 1 <= id <= hi ::
               (id in a && Matches(a[id], f) <==> id in b && Matches(b[id], f))
               && (id in a && Matches(a[id], f) ==> a[id] == b[id])
    ensures Select(a, f, hi) == Select(b, f, hi)
    decreases if hi < 0 then 0 else hi
  {
    if hi > 0 {
      SelectFrame(a, b, f, hi - 1);
    }
  }

  lemma SameRowsSameList(a: Db, b: Db, f: TaskFilter)
    requires AllRows(a, f) == AllRows(b, f)
    ensures List(a, f) == List(b, f)
  {
  }

  lemma InsertTaskKeeps(db: Db, t: Task, now: int)
    requires WellFormed(db) && InsertTask(db, t, now).Ok?
    ensures WellFormed(InsertTask(db, t, now).value)
    ensures InsertTask(db, t, now).value.history == db.history
  {
  }

  lemma InsertTaskFrame(db: Db, t: Task, now: int, f: TaskFilter)
    requires WellFormed(db) && InsertTask(db, t, now).Ok? && t.teamId != f.teamId
    ensures AllRows(InsertTask(db, t, now).value, f) == AllRows(db, f)
  {
    var next := InsertTask(db, t, now).value;
    SelectFrame(next.tasks, db.tasks, f, db.lastTask);
  }

  /** a and b are versions of one row: what no statement changes is the same. */
  predicate SameRow(a: Task, b: Task) {
    b.id == a.id && b.teamId == a.teamId && b.createdBy == a.createdBy && b.createdAt == a.createdAt
  }

  lemma UpdateRowKeeps(db: Db, t: Task, now: int)
    requires WellFormed(db)
    ensures WellFormed(UpdateRow(db, t, now))
    ensures UpdateRow(db, t, now).tasks.Keys == db.tasks.Keys
    ensures forall id | id in db.tasks :: SameRow(db.tasks[id], UpdateRow(db, t, now).tasks[id])
    ensures forall id | id in db.tasks && id != t.id :: UpdateRow(db, t, now).tasks[id] == db.tasks[id]
  {
  }

  lemma UpdateRowFrame(db: Db, t: Task, now: int, f: TaskFilter)
    requires WellFormed(db) && t.id in db.tasks && db.tasks[t.id].teamId != f.teamId
    ensures AllRows(UpdateRow(db, t, now), f) == AllRows(db, f)
  {
    SelectFrame(UpdateRow(db, t, now).tasks, db.tasks, f, db.lastTask);
  }

  /** Audit inserts append, in order, stamped with the time and fresh identifiers. */
  lemma {:induction false} InsertAllKeeps(db: Db, hs: seq<TaskHistory>, now: int)
    requires WellFormed(db) && forall h | h in hs :: h.taskId in db.tasks
    ensures WellFormed(InsertAll(db, hs, now))
    ensures InsertAll(db, hs, now).tasks == db.tasks && InsertAll(db, hs, now).lastTask == db.lastTask
    ensures InsertAll(db, hs, now).lastHistory == db.lastHistory + |hs|
    ensures InsertAll(db, hs, now).history == db.history + Stamped(hs, db.lastHistory, now)
  {
    if hs != [] {
      var init := hs[..|hs| - 1];
      InsertAllKeeps(db, init, now);
      assert Stamped(hs, db.lastHistory, now)[..|init|] == Stamped(init, db.lastHistory, now);
    }
  }

  /** The audit rows as stored. */
  function Stamped(hs: seq<TaskHistory>, last: nat, now: int): (r: seq<TaskHistory>)
    ensures |r| == |hs|
    ensures forall i | 0 <= i < |hs| :: r[i] == hs[i].(id := last + 1 + i, changedAt := now)
  {
    if hs == [] then []
    else Stamped(hs[..|hs| - 1], last, now) + [hs[|hs| - 1].(id := last + |hs|, changedAt := now)]
  }

  /** All-or-nothing: at every failure point the two tables are untouched, and without one both are written. */
  lemma UpdateWithHistoryAtomic(db: Db, t: Task, hs: seq<TaskHistory>, now: int, fault: Fault)
    requires WellFormed(db) && t.id in db.tasks && forall h | h in hs :: h.taskId in db.tasks
    ensures
      var (next, r) := UpdateWithHistory(db, t, hs, now, fault);
      && WellFormed(next)
      && (r.Ok? <==> fault.None? || fault.value > |hs| + 2) && next.lastHistory >= db.lastHistory
      && (r.Err? ==> r.error == Database && next.tasks == db.tasks && next.history == db.history && next.lastTask == db.lastTask)
      && (r.Ok? ==> next.tasks == UpdateRow(db, t, now).tasks
                    && next.history == db.history + Stamped(hs, db.lastHistory, now) && next.lastTask == db.lastTask)
  {
    UpdateRowKeeps(db, t, now);
    if !Fails(fault, hs) {
      InsertAllKeeps(UpdateRow(db, t, now), hs, now);
    }
  }

  // ---- what History means ----

  /** No row comes before a newer one. */
  ghost predicate NewestAhead(rows: seq<TaskHistory>) {
    forall i, j | 0 <= i < j < |rows| :: !Newer(rows[j], rows[i])
  }

  lemma {:induction false} InsertNewestKeeps(h: TaskHistory, rows: seq<TaskHistory>)
    ensures multiset(InsertNewest(h, rows)) == multiset(rows) + multiset{h}
  {
    hide Newer;
    if rows != [] && !Newer(h, rows[0]) {
      InsertNewestKeeps(h, rows[1..]);
      assert rows == [rows[0]] + rows[1..];
    }
  }

  lemma NewerThanAll(h: TaskHistory, rows: seq<TaskHistory>)
    requires rows != [] && NewestAhead(rows) && Newer(h, rows[0])
    ensures NewestAhead([h] + rows)
  {
    assert forall i | 0 < i < |rows| :: !Newer(rows[i], rows[0]);
  }

  lemma OlderThanFirst(first: TaskHistory, rest: seq<TaskHistory>)
    requires NewestAhead(rest) && forall i | 0 <= i < |rest| :: !Newer(rest[i], first)
    ensures NewestAhead([first] + rest)
  {
    hide Newer;
  }

  lemma {:induction false} InsertNewestSorts(h: TaskHistory, rows: seq<TaskHistory>)
    requires NewestAhead(rows)
    ensures NewestAhead(InsertNewest(h, rows))
  {
    hide Newer;
    if rows == [] {
    } else if Newer(h, rows[0]) {
      NewerThanAll(h, rows);
    } else {
      var rest := InsertNewest(h, rows[1..]);
      InsertNewestSorts(h, rows[1..]);
      InsertNewestKeeps(h, rows[1..]);
      forall i | 0 <= i < |rest| ensures !Newer(rest[i], rows[0]) {
        assert rest[i] in multiset(rest);
        assert rest[i] == h || rest[i] in rows[1..];
      }
      OlderThanFirst(rows[0], rest);
    }
  }

  lemma {:induction false} NewestFirstSorts(log: seq<TaskHistory>)
    ensures NewestAhead(NewestFirst(log)) && multiset(NewestFirst(log)) == multiset(log)
  {
    if log != [] {
      NewestFirstSorts(log[..|log| - 1]);
      InsertNewestSorts(log[|log| - 1], NewestFirst(log[..|log| - 1]));
      InsertNewestKeeps(log[|log| - 1], NewestFirst(log[..|log| - 1]));
      assert log == log[..|log| - 1] + [log[|log| - 1]];
    }
  }

  /** The audit rows of the task and no others, each once, no row before a newer one. */
  ghost predicate IsHistory(rows: seq<TaskHistory>, db: Db, taskId: Int64) {
    && NewestAhead(rows)
    && multiset(rows) == multiset(LogOf(db.history, taskId))
    && (forall h :: h in rows <==> h in db.history && h.taskId == taskId)
  }

  lemma HistoryMeans(db: Db, taskId: Int64)
    ensures IsHistory(History(db, taskId), db, taskId)
  {
    var log := LogOf(db.history, taskId);
    NewestFirstSorts(log);
    LogOfMembers(db.history, taskId);
    forall h ensures h in History(db, taskId) <==> h in log {
      assert h in multiset(History(db, taskId)) <==> h in multiset(log);
    }
  }

  // ---- audit order ----

  /** Time stamps do not run backwards along the log and are not in the future. */
  ghost predicate Timed(history: seq<TaskHistory>, now: int) {
    && (forall i, j | 0 <= i < j < |history| :: history[i].changedAt <= history[j].changedAt && history[i].id < history[j].id)
    && (forall i | 0 <= i < |history| :: history[i].changedAt <= now)
  }

  function Reverse(log: seq<TaskHistory>): (r: seq<TaskHistory>)
    ensures |r| == |log|
    ensures forall i | 0 <= i < |log| :: r[i] == log[|log| - 1 - i]
  {
    if log == [] then [] else [log[|log| - 1]] + Reverse(log[..|log| - 1])
  }

  lemma {:induction false} LogOfMembers(history: seq<TaskHistory>, taskId: Int64)
    ensures forall h :: h in LogOf(history, taskId) <==> h in history && h.taskId == taskId
  {
    if history != [] {
      var init := history[..|history| - 1];
      LogOfMembers(init, taskId);
      assert history == init + [history[|history| - 1]];
    }
  }

  lemma {:induction false} LogOfTimed(history: seq<TaskHistory>, taskId: Int64, now: int)
    requires Timed(history, now)
    ensures Timed(LogOf(history, taskId), now)
  {
    if history != [] {
      var init, last := history[..|history| - 1], history[|history| - 1];
      LogOfTimed(init, taskId, now);
      LogOfMembers(init, taskId);
      forall h | h in LogOf(init, taskId) ensures h.changedAt <= last.changedAt && h.id < last.id {
        var i :| 0 <= i < |init| && init[i] == h;
        assert history[i] == h;
      }
      TimedSnoc(LogOf(init, taskId), last, now);
    }
  }

  lemma TimedSnoc(log: seq<TaskHistory>, h: TaskHistory, now: int)
    requires Timed(log, now) && h.changedAt <= now
    requires forall g | g in log :: g.changedAt <= h.changedAt && g.id < h.id
    ensures Timed(log + [h], now)
  {
  }

  lemma {:induction false} NewestFirstReverses(log: seq<TaskHistory>, now: int)
    requires Timed(log, now)
    ensures NewestFirst(log) == Reverse(log)
  {
    if log != [] {
      NewestFirstReverses(log[..|log| - 1], now);
    }
  }

  /** Newest first is the write order reversed, even when one second holds many rows. */
  lemma HistoryIsReversedLog(db: Db, taskId: Int64, now: int)
    requires Timed(db.history, now)
    ensures History(db, taskId) == Reverse(LogOf(db.history, taskId))
  {
    LogOfTimed(db.history, taskId, now);
    NewestFirstReverses(LogOf(db.history, taskId), now);
  }

  lemma {:induction false} LogOfAppend(a: seq<TaskHistory>, b: seq<TaskHistory>, taskId: Int64)
    ensures LogOf(a + b, taskId) == LogOf(a, taskId) + LogOf(b, taskId)
  {
    if b == [] {
      assert a + b == a;
    } else {
      assert (a + b)[..|a + b| - 1] == a + b[..|b| - 1];
      LogOfAppend(a, b[..|b| - 1], taskId);
    }
  }
}
