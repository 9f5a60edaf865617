/**
 * List, Create and Update as concurrent requests, cut at their round trips to Redis and MySQL.
 * A lister runs GET, SELECT, SET; a writer runs (SELECT), COMMIT, SMEMBERS, DEL. Any Redis command may fail,
 * any request may stop for ever, and the clock moves at will.
 */
module Protocol {
  import opened Wrappers
  import opened Domain
  import opened Redis
  import opened KeyCodec
  import opened CacheCommands
  import opened TaskStore
  import opened AuditDiff

  /** A request to List. The times are numbers of events: readAt is the state that was read. */
  datatype Lister =
    | Missed(filter: TaskFilter)
    | HasRead(filter: TaskFilter, rows: seq<Task>, readAt: nat)
    | Stored(filter: TaskFilter, rows: seq<Task>, readAt: nat, setAt: nat, storedTime: nat)
    | NotStored(filter: TaskFilter, rows: seq<Task>, readAt: nat)
    | Hit(filter: TaskFilter, rows: seq<Task>, source: nat, servedTime: nat)

  /** A request to Create or Update. */
  datatype Writer =
    | Snapshotted(row: Task)
    | Committed(team: Int64, commitAt: nat)
    | Collected(team: Int64, commitAt: nat, smembersAt: nat, keys: set<string>)
    | Invalidated(team: Int64, commitAt: nat, smembersAt: nat, delAt: nat)
    | NotInvalidated(team: Int64, commitAt: nat)

  /**
   * step counts the events so far; listers and writers keep a record of every request; setBy names the lister
   * that last wrote each list. These three only record, no event is guarded by them.
   */
  datatype State = State(
    step: nat,
    db: Db,
    store: Store,
    now: nat,
    listers: map<nat, Lister>,
    writers: map<nat, Writer>,
    setBy: map<string, nat>)

  datatype Event =
    | GetHit(l: nat, filter: TaskFilter)
    | GetMiss(l: nat, filter: TaskFilter)            // absent, expired, or the GET failed
    | DbRead(l: nat)
    | SetEntry(l: nat)
    | SetFails(l: nat)
    | CommitCreate(w: nat, row: Task, dbNow: int)
    | Snapshot(w: nat, id: Int64)
    | CommitUpdate(w: nat, input: UpdateTaskInput, dbNow: int)
    | Collect(w: nat)
    | CollectFails(w: nat)
    | Delete(w: nat)
    | DeleteFails(w: nat)
    | Tick(d: nat)

  predicate Enabled(s: State, e: Event) {
    match e
    case GetHit(l, f) => l !in s.listers && Request(f) && (var r := Get(s.store, s.now, TasksKey(f)); r.Ok? && r.value.Some?)
    case GetMiss(l, f) => l !in s.listers && Request(f)
    case DbRead(l) => l in s.listers && s.listers[l].Missed? && List(s.db, s.listers[l].filter).Ok?
    case SetEntry(l) => l in s.listers && s.listers[l].HasRead?
    case SetFails(l) => l in s.listers && s.listers[l].HasRead?
    case CommitCreate(w, row, dbNow) => w !in s.writers && InsertTask(s.db, row, dbNow).Ok?
    case Snapshot(w, id) => w !in s.writers && id in s.db.tasks
    case CommitUpdate(w, input, dbNow) =>
      w in s.writers && s.writers[w].Snapshotted?
      && (var r := Diff(s.writers[w].row, input); r.Ok? && r.value.history != [])
    case Collect(w) =>
      w in s.writers && s.writers[w].Committed? && SMembers(s.store, s.now, TeamSetKey(s.writers[w].team)).Ok?
    case CollectFails(w) => w in s.writers && s.writers[w].Committed?
    case Delete(w) => w in s.writers && s.writers[w].Collected?
    case DeleteFails(w) => w in s.writers && s.writers[w].Collected?
    case Tick(d) => true
  }

  function Apply(s: State, ttl: nat, e: Event): (t: State)
    requires Enabled(s, e)
    ensures t.step == s.step + 1
  {
    var at := s.step + 1;
    match e
    case GetHit(l, f) =>
      var k := TasksKey(f);
      var rows := Get(s.store, s.now, k).value.value;
      s.(step := at, listers := s.listers[l := Hit(f, rows, if k in s.setBy then s.setBy[k] else l, s.now)])
    case GetMiss(l, f) =>
      s.(step := at, listers := s.listers[l := Missed(f)])
    case DbRead(l) =>
      var f := s.listers[l].filter;
      s.(step := at, listers := s.listers[l := HasRead(f, List(s.db, f).value, at)])
    case SetEntry(l) =>
      var r := s.listers[l];
      var k := TasksKey(r.filter);
      s.(step := at,
         store := SetTasks(s.store, s.now, ttl, k, r.rows),
         listers := s.listers[l := Stored(r.filter, r.rows, r.readAt, at, s.now)],
         setBy := s.setBy[k := l])
    case SetFails(l) =>
      var r := s.listers[l];
      s.(step := at, listers := s.listers[l := NotStored(r.filter, r.rows, r.readAt)])
    case CommitCreate(w, row, dbNow) =>
      s.(step := at, db := InsertTask(s.db, row, dbNow).value, writers := s.writers[w := Committed(row.teamId, at)])
    case Snapshot(w, id) =>
      s.(step := at, writers := s.writers[w := Snapshotted(s.db.tasks[id])])
    case CommitUpdate(w, input, dbNow) =>
      var snap := s.writers[w].row;
      var edit := Diff(snap, input).value;
      s.(step := at,
         db := UpdateWithHistory(s.db, edit.row, edit.history, dbNow, None).0,
         writers := s.writers[w := Committed(snap.teamId, at)])
    case Collect(w) =>
      var r := s.writers[w];
      var keys := SMembers(s.store, s.now, TeamSetKey(r.team)).value;
      s.(step := at, writers := s.writers[w := Collected(r.team, r.commitAt, at, keys)])
    case CollectFails(w) =>
      var r := s.writers[w];
      s.(step := at, writers := s.writers[w := NotInvalidated(r.team, r.commitAt)])
    case Delete(w) =>
      var r := s.writers[w];
      s.(step := at,
         store := DeleteKeys(s.store, r.team, r.keys),
         writers := s.writers[w := Invalidated(r.team, r.commitAt, r.smembersAt, at)])
    case DeleteFails(w) =>
      var r := s.writers[w];
      s.(step := at, writers := s.writers[w := NotInvalidated(r.team, r.commitAt)])
    case Tick(d) =>
      s.(step := at, now := s.now + d)
  }

  ghost predicate Initial(s: State) {
    s.step == 0 && WellFormed(s.db) && s.store == map[] && s.listers == map[] && s.writers == map[] && s.setBy == map[]
  }

  /** The state after a run; None when some event was not possible. */
  function Exec(s0: State, ttl: nat, es: seq<Event>): Option<State> {
    if es == [] then Some(s0)
    else
      match Exec(s0, ttl, es[..|es| - 1])
      case None => None
      case Some(s) => if Enabled(s, es[|es| - 1]) then Some(Apply(s, ttl, es[|es| - 1])) else None
  }

  /** es is a run from s0 that ends in s. */
  ghost predicate Runs(s0: State, ttl: nat, es: seq<Event>, s: State) {
    Initial(s0) && ttl > 0 && Exec(s0, ttl, es) == Some(s)
  }
}
