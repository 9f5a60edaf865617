/** No cause of staleness can be dropped from the classification: each one alone leaves a stale list in some run. */
module ProtocolWitnesses {
  import opened Wrappers
  import opened Domain
  import opened Redis
  import opened KeyCodec
  import opened CacheCommands
  import opened TaskStore
  import opened Protocol
  import opened ProtocolInvariant
  import opened ProtocolTheorems

  const TEAM: Int64 := 1
  const FILTER := TaskFilter(TEAM, None, None, 20, 0)
  const ROW := Task(0, TEAM, "t", "", STATUS_TODO, None, 1, 0, 0)
  const FIRST := ROW.(id := 1)
  const SECOND := ROW.(id := 2)
  const DB1 := Db(map[1 := FIRST], 1, [], 0)
  const DB2 := Db(map[1 := FIRST, 2 := SECOND], 2, [], 0)
  const START := State(0, EMPTY_DB, map[], 0, map[], map[], map[])

  lemma Inserts()
    ensures InsertTask(EMPTY_DB, ROW, 0) == Ok(DB1) && InsertTask(DB1, ROW, 0) == Ok(DB2)
  {
  }

  lemma Answers()
    ensures List(EMPTY_DB, FILTER) == Ok([]) && List(DB1, FILTER) == Ok([FIRST])
    ensures List(DB2, FILTER) == Ok([SECOND, FIRST])
  {
    assert Select(DB1.tasks, FILTER, 0) == [] && Select(DB2.tasks, FILTER, 0) == [];
    assert AllRows(DB1, FILTER) == [FIRST];
    assert Select(DB2.tasks, FILTER, 1) == [FIRST];
    assert AllRows(DB2, FILTER) == [SECOND, FIRST];
    assert [FIRST][0..] == [FIRST] && [SECOND, FIRST][0..] == [SECOND, FIRST];
  }

  lemma Extend(es: seq<Event>, s: State, e: Event)
    requires Runs(START, 1, es, s) && Enabled(s, e)
    ensures Runs(START, 1, es + [e], Apply(s, 1, e))
  {
  }

  /** The list cell and the key set that one SET leaves in an empty store. */
  function Cached(rows: seq<Task>): Store {
    map[TasksKey(FILTER) := Cell(Rows(rows), Some(1)), TeamSetKey(TEAM) := Cell(Members({TasksKey(FILTER)}), Some(1))]
  }

  lemma SetOnEmpty(rows: seq<Task>)
    ensures SetTasks(map[], 0, 1, TasksKey(FILTER), rows) == Cached(rows)
    ensures TasksKey(FILTER) != TeamSetKey(TEAM)
  {
    hide TasksKey, TeamSetKey, TeamIDFromKey;
    SetTasksWrites(map[], 0, 1, FILTER, rows);
    assert {} + {TasksKey(FILTER)} == {TasksKey(FILTER)};
  }

  // ---- stretches of a run ----

  lemma ReadList(es: seq<Event>, s: State, rows: seq<Task>) returns (es': seq<Event>, s': State)
    requires Runs(START, 1, es, s) && s.listers == map[] && List(s.db, FILTER) == Ok(rows)
    ensures Runs(START, 1, es', s')
    ensures s' == s.(step := s.step + 2, listers := map[0 := HasRead(FILTER, rows, s.step + 2)])
  {
    hide TasksKey, List;
    Extend(es, s, GetMiss(0, FILTER));
    es', s' := es + [GetMiss(0, FILTER)], Apply(s, 1, GetMiss(0, FILTER));
    Extend(es', s', DbRead(0));
    es', s' := es' + [DbRead(0)], Apply(s', 1, DbRead(0));
  }

  lemma StoreList(es: seq<Event>, s: State, rows: seq<Task>, at: nat) returns (es': seq<Event>, s': State)
    requires Runs(START, 1, es, s) && s.listers == map[0 := HasRead(FILTER, rows, at)]
    requires s.store == map[] && s.now == 0 && s.setBy == map[]
    ensures Runs(START, 1, es', s')
    ensures s' == s.(step := s.step + 1, store := Cached(rows), setBy := map[TasksKey(FILTER) := 0],
                     listers := map[0 := Stored(FILTER, rows, at, s.step + 1, 0)])
  {
    hide TasksKey, TeamSetKey, SetTasks;
    SetOnEmpty(rows);
    Extend(es, s, SetEntry(0));
    es', s' := es + [SetEntry(0)], Apply(s, 1, SetEntry(0));
  }

  lemma CommitRow(es: seq<Event>, s: State, w: nat, next: Db) returns (es': seq<Event>, s': State)
    requires Runs(START, 1, es, s) && w !in s.writers && InsertTask(s.db, ROW, 0) == Ok(next)
    ensures Runs(START, 1, es', s')
    ensures s' == s.(step := s.step + 1, db := next, writers := s.writers[w := Committed(TEAM, s.step + 1)])
  {
    hide InsertTask;
    Extend(es, s, CommitCreate(w, ROW, 0));
    es', s' := es + [CommitCreate(w, ROW, 0)], Apply(s, 1, CommitCreate(w, ROW, 0));
  }

  lemma CollectNothing(es: seq<Event>, s: State, w: nat, c: nat) returns (es': seq<Event>, s': State)
    requires Runs(START, 1, es, s) && w in s.writers && s.writers[w] == Committed(TEAM, c) && TeamSetKey(TEAM) !in s.store
    ensures Runs(START, 1, es', s')
    ensures s' == s.(step := s.step + 1, writers := s.writers[w := Collected(TEAM, c, s.step + 1, {})])
  {
    hide TeamSetKey;
    Extend(es, s, Collect(w));
    es', s' := es + [Collect(w)], Apply(s, 1, Collect(w));
  }

  lemma DeleteSet(es: seq<Event>, s: State, w: nat, c: nat, m: nat) returns (es': seq<Event>, s': State)
    requires Runs(START, 1, es, s) && w in s.writers && s.writers[w] == Collected(TEAM, c, m, {})
    ensures Runs(START, 1, es', s')
    ensures s' == s.(step := s.step + 1, store := s.store - {TeamSetKey(TEAM)},
                     writers := s.writers[w := Invalidated(TEAM, c, m, s.step + 1)])
  {
    hide TeamSetKey;
    Extend(es, s, Delete(w));
    assert s.store - {} == s.store;
    es', s' := es + [Delete(w)], Apply(s, 1, Delete(w));
  }

  // ---- one run for each cause ----

  /** Cache the answer, then commit: the writer is still on its way to Redis, or its SMEMBERS fails. */
  lemma CommitAfterFill(fails: bool) returns (es: seq<Event>, s: State)
    ensures Runs(START, 1, es, s)
    ensures s == State(if fails then 5 else 4, DB1, Cached([]), 0, map[0 := Stored(FILTER, [], 2, 3, 0)],
                       map[1 := if fails then NotInvalidated(TEAM, 4) else Committed(TEAM, 4)], map[TasksKey(FILTER) := 0])
  {
    hide TasksKey, TeamSetKey, List, InsertTask;
    Answers();
    Inserts();
    es, s := ReadList([], START, []);
    es, s := StoreList(es, s, [], 2);
    es, s := CommitRow(es, s, 1, DB1);
    if fails {
      Extend(es, s, CollectFails(1));
      es, s := es + [CollectFails(1)], Apply(s, 1, CollectFails(1));
    }
  }

  /** Read, let a writer commit and invalidate, then set: the old rows go in after the DEL. */
  lemma FillAcross() returns (es: seq<Event>, s: State)
    ensures Runs(START, 1, es, s)
    ensures s == State(6, DB1, Cached([]), 0, map[0 := Stored(FILTER, [], 2, 6, 0)],
                       map[1 := Invalidated(TEAM, 3, 4, 5)], map[TasksKey(FILTER) := 0])
  {
    hide TasksKey, TeamSetKey, List, InsertTask;
    Answers();
    Inserts();
    es, s := ReadList([], START, []);
    es, s := CommitRow(es, s, 1, DB1);
    es, s := CollectNothing(es, s, 1, 3);
    es, s := DeleteSet(es, s, 1, 3, 4);
    es, s := StoreList(es, s, [], 2);
  }

  const LEFT_OVER := map[TasksKey(FILTER) := Cell(Rows([FIRST]), Some(1))]

  /** Set a fresh list between one writer's SMEMBERS and DEL: the DEL drops the key set but not the list. */
  lemma SetInside() returns (es: seq<Event>, s: State)
    ensures Runs(START, 1, es, s)
    ensures s == State(6, DB1, LEFT_OVER, 0, map[0 := Stored(FILTER, [FIRST], 4, 5, 0)],
                       map[1 := Invalidated(TEAM, 1, 2, 6)], map[TasksKey(FILTER) := 0])
  {
    hide TasksKey, TeamSetKey, List, InsertTask, Runs;
    Answers();
    Inserts();
    SetOnEmpty([FIRST]);
    assert Runs(START, 1, [], START) by { StartRuns(); }
    es, s := CommitRow([], START, 1, DB1);
    es, s := CollectNothing(es, s, 1, 1);
    es, s := ReadList(es, s, [FIRST]);
    es, s := StoreList(es, s, [FIRST], 4);
    es, s := DeleteSet(es, s, 1, 1, 2);
  }

  lemma StartRuns()
    ensures Runs(START, 1, [], START)
  {
  }

  /** The next writer then finds no key set and leaves the list behind. */
  lemma DropThenMiss() returns (es: seq<Event>, s: State)
    ensures Runs(START, 1, es, s)
    ensures s == State(9, DB2, LEFT_OVER, 0, map[0 := Stored(FILTER, [FIRST], 4, 5, 0)],
                       map[1 := Invalidated(TEAM, 1, 2, 6), 2 := Invalidated(TEAM, 7, 8, 9)], map[TasksKey(FILTER) := 0])
  {
    hide TasksKey, TeamSetKey, List, InsertTask, Runs;
    Inserts();
    SetOnEmpty([FIRST]);
    es, s := SetInside();
    es, s := CommitRow(es, s, 2, DB2);
    es, s := CollectNothing(es, s, 2, 7);
    es, s := DeleteSet(es, s, 2, 7, 8);
    assert s.store == LEFT_OVER;
  }

  /** The list of FILTER is stale in s, and c is the one cause of the one commit it missed. */
  ghost predicate StaleOnlyBy(s: State, c: Cause) {
    var k := TasksKey(FILTER);
    && LiveEntry(s, k) && EntryOf(s, k).filter == FILTER && Stale(s, FILTER, EntryOf(s, k).rows)
    && (exists w :: w in s.writers && MissedBy(EntryOf(s, k), s.writers[w]))
    && (forall w, c' | w in s.writers && MissedBy(EntryOf(s, k), s.writers[w]) ::
          HasCause(s, EntryOf(s, k), s.writers[w], c') <==> c' == c)
  }

  /** One writer missed, for one cause, makes the list stale by that cause only. */
  lemma StaleBy(es: seq<Event>, s: State, w: nat, rows: seq<Task>, c: Cause)
    requires Runs(START, 1, es, s) && s.now == 0 && s.setBy == map[TasksKey(FILTER) := 0]
    requires 0 in s.listers && s.listers[0].Stored? && s.listers[0].filter == FILTER && s.listers[0].rows == rows
    requires TasksKey(FILTER) in s.store && s.store[TasksKey(FILTER)] == Cell(Rows(rows), Some(1))
    requires List(s.db, FILTER) != Ok(rows)
    requires w in s.writers && MissedBy(s.listers[0], s.writers[w])
    requires forall v | v in s.writers && MissedBy(s.listers[0], s.writers[v]) :: v == w
    requires forall c' :: HasCause(s, s.listers[0], s.writers[w], c') <==> c' == c
    ensures StaleOnlyBy(s, c)
  {
    hide TasksKey, List;
  }

  /** For every cause there is a run that ends with a stale list owed to that cause alone. */
  lemma EveryCauseOccurs(c: Cause) returns (es: seq<Event>, s: State)
    ensures Runs(START, 1, es, s) && StaleOnlyBy(s, c)
  {
    hide TasksKey, TeamSetKey, TeamIDFromKey, List, Runs, StaleOnlyBy;
    Answers();
    SetOnEmpty([]);
    match c
    case Pending =>
      es, s := CommitAfterFill(false);
      StaleBy(es, s, 1, [], c);
    case Failed =>
      es, s := CommitAfterFill(true);
      StaleBy(es, s, 1, [], c);
    case FilledAcross =>
      es, s := FillAcross();
      StaleBy(es, s, 1, [], c);
    case Untracked =>
      es, s := DropThenMiss();
      assert DropsAt(s.writers[1], TEAM, 5, 8);
      StaleBy(es, s, 2, [FIRST], c);
  }
}
