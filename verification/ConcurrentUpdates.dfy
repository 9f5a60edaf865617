/**
 * The audit trail under concurrency. An update is computed from a row read outside its transaction, so between the
 * read and the commit another update of the same task may be stored.
 */
module ConcurrentUpdates {
  import opened Wrappers
  import opened Domain
  import opened Decimal
  import opened Text
  import opened TaskStore
  import opened AuditDiff
  import opened AuditRuns
  import opened Protocol
  import opened ProtocolInvariant
  import opened ProtocolWitnesses

  /** The log is a chained patch from one row to the other. */
  ghost predicate PatchOf(before: Task, log: seq<TaskHistory>, after: Task) {
    Chained(before, log) && SameContent(Replay(before, log), after)
  }

  lemma SameContentFields(a: Task, b: Task)
    requires SameRow(a, b)
    ensures SameContent(a, b) <==> FieldText(a, TITLE) == FieldText(b, TITLE) && FieldText(a, DESCRIPTION) == FieldText(b, DESCRIPTION)
                                   && FieldText(a, STATUS) == FieldText(b, STATUS) && FieldText(a, ASSIGNEE) == FieldText(b, ASSIGNEE)
  {
    FieldTexts(a);
    FieldTexts(b);
    AssigneeTextsAgree(a, b);
  }

  /** In a patch, a column keeps its text unless the log mentions it. */
  lemma {:induction false} UnmentionedKept(t: Task, log: seq<TaskHistory>, field: string)
    requires Chained(t, log) && field in FIELDS && !Mentions(log, field)
    ensures FieldText(Replay(t, log), field) == FieldText(t, field)
    decreases |log|
  {
    if log != [] {
      var next := SetField(t, log[0].field, TextOf(log[0].newValue));
      assert log == [log[0]] + log[1..];
      MentionsAppend([log[0]], log[1..], field);
      assert log[0].field != field;
      UnmentionedKept(next, log[1..], field);
      SetFieldFrame(t, log[0].field, field, TextOf(log[0].newValue));
    }
  }

  /** If the edit of snap is also a patch from cur to the stored row, every column of cur was as in snap. */
  lemma PatchForcesField(snap: Task, cur: Task, input: UpdateTaskInput, field: string)
    requires Acceptable(input) && field in FIELDS
    requires PatchOf(cur, Diff(snap, input).value.history, Diff(snap, input).value.row)
    ensures FieldText(cur, field) == FieldText(snap, field)
  {
    hide TrimSpace, FieldText, Replay, SetField;
    var e := Diff(snap, input).value;
    ChangesMention(snap, e.row, input.actorId, FIELDS, field);
    if Mentions(e.history, field) {
      ChangesRecord(snap, e.row, input.actorId, FIELDS);
      ChangesOrdered(snap, e.row, input.actorId);
      var i :| 0 <= i < |e.history| && e.history[i].field == field;
      assert e.history[i] in e.history;
      assert Records(e.history[i], snap, e.row, input.actorId);
      FirstOfField(cur, e.history, i);
    } else {
      UnmentionedKept(cur, e.history, field);
      SameContentText(Replay(cur, e.history), e.row, field);
    }
  }

  lemma SameContentText(a: Task, b: Task, field: string)
    requires SameContent(a, b)
    ensures FieldText(a, field) == FieldText(b, field)
  {
  }

  /**
   * The audit rows of an edit computed from snap, committed over cur, are a patch from cur to the stored row exactly
   * when cur still has the content of snap.
   */
  lemma StaleEditPatches(snap: Task, cur: Task, input: UpdateTaskInput)
    requires Acceptable(input) && SameRow(snap, cur)
    ensures Diff(snap, input).Ok?
    ensures PatchOf(cur, Diff(snap, input).value.history, Diff(snap, input).value.row) <==> SameContent(snap, cur)
  {
    hide TrimSpace, Diff, FieldText;
    DiffAccepts(snap, input);
    var e := Diff(snap, input).value;
    if PatchOf(cur, e.history, e.row) {
      FieldNames();
      PatchForcesField(snap, cur, input, TITLE);
      PatchForcesField(snap, cur, input, DESCRIPTION);
      PatchForcesField(snap, cur, input, STATUS);
      PatchForcesField(snap, cur, input, ASSIGNEE);
      SameContentFields(snap, cur);
    }
    if SameContent(snap, cur) {
      DiffInvertible(snap, input);
      ReplayIgnoresTime(snap, cur, e.history);
    }
  }

  /**
   * In every run, a commit of an update extends the log by a patch from the row it overwrites to the row it stores
   * exactly when nobody changed that row's content since the snapshot. (Otherwise columns the caller did not name
   * fall back to the snapshot with no audit row.)
   */
  lemma CommitPatches(s0: State, ttl: nat, es: seq<Event>, s: State, w: nat, input: UpdateTaskInput, dbNow: int)
    requires Runs(s0, ttl, es, s) && Enabled(s, CommitUpdate(w, input, dbNow))
    ensures
      var snap, t := s.writers[w].row, Apply(s, ttl, CommitUpdate(w, input, dbNow));
      && snap.id in s.db.tasks && snap.id in t.db.tasks && s.db.history <= t.db.history
      && (PatchOf(s.db.tasks[snap.id], t.db.history[|s.db.history|..], t.db.tasks[snap.id])
          <==> SameContent(snap, s.db.tasks[snap.id]))
  {
    hide TrimSpace, Diff, PatchOf;
    InvHolds(s0, ttl, es, s);
    var snap := s.writers[w].row;
    assert WriterOk(s, s.writers[w]);
    var cur := s.db.tasks[snap.id];
    CommitStores(s, ttl, w, input, dbNow);
    StaleEditPatches(snap, cur, input);
  }

  /** What the commit stores: the edit's row content, and its audit rows stamped. */
  lemma CommitStores(s: State, ttl: nat, w: nat, input: UpdateTaskInput, dbNow: int)
    requires Enabled(s, CommitUpdate(w, input, dbNow)) && WellFormed(s.db) && WriterOk(s, s.writers[w])
    ensures
      var snap, t := s.writers[w].row, Apply(s, ttl, CommitUpdate(w, input, dbNow));
      var e := Diff(snap, input).value;
      && Acceptable(input) && snap.id in t.db.tasks && s.db.history <= t.db.history
      && (PatchOf(s.db.tasks[snap.id], t.db.history[|s.db.history|..], t.db.tasks[snap.id])
          <==> PatchOf(s.db.tasks[snap.id], e.history, e.row))
  {
    hide TrimSpace, Replay, Chained, UpdateWithHistory;
    var snap, t := s.writers[w].row, Apply(s, ttl, CommitUpdate(w, input, dbNow));
    var e := Diff(snap, input).value;
    DiffExact(snap, input);
    UpdateWithHistoryAtomic(s.db, e.row, e.history, dbNow, None);
    var stamped := Stamped(e.history, s.db.lastHistory, dbNow);
    assert t.db.history == s.db.history + stamped;
    assert t.db.history[|s.db.history|..] == stamped;
    StampedTask(e.history, s.db.lastHistory, dbNow, snap.id);
    ReplayIgnoresStamps(s.db.tasks[snap.id], e.history, stamped);
    assert SameContent(e.row, t.db.tasks[snap.id]);
  }

  // ---- it does happen ----

  const RENAME := UpdateTaskInput(1, Some("u"), None, None, None, false, 1)
  const DESCRIBE := UpdateTaskInput(1, None, Some("d"), None, None, false, 1)

  /** Two updates of one task, both read before either commits: the second commit breaks the audit trail. */
  lemma LostUpdate() returns (es: seq<Event>, s: State)
    ensures Runs(START, 1, es, s) && Enabled(s, CommitUpdate(2, RENAME, 0))
    ensures s.writers[2].row == FIRST && 1 in s.db.tasks && s.db.tasks[1].description == "d"
    ensures !SameContent(FIRST, s.db.tasks[1])
    ensures var t := Apply(s, 1, CommitUpdate(2, RENAME, 0));
            && 1 in t.db.tasks && s.db.history <= t.db.history
            && !PatchOf(s.db.tasks[1], t.db.history[|s.db.history|..], t.db.tasks[1])
  {
    hide TrimSpace, Diff, UpdateWithHistory, Runs;
    Inserts();
    StartRuns();
    es, s := CommitRow([], START, 1, DB1);
    Extend(es, s, Snapshot(2, 1));
    es, s := es + [Snapshot(2, 1)], Apply(s, 1, Snapshot(2, 1));
    Extend(es, s, Snapshot(3, 1));
    es, s := es + [Snapshot(3, 1)], Apply(s, 1, Snapshot(3, 1));
    Edits();
    Extend(es, s, CommitUpdate(3, DESCRIBE, 0));
    es, s := es + [CommitUpdate(3, DESCRIBE, 0)], Apply(s, 1, CommitUpdate(3, DESCRIBE, 0));
    CommitPatches(START, 1, es, s, 2, RENAME, 0);
  }

  /** Both requests are real edits of the first row, and the described row is stored. */
  lemma Edits()
    ensures Diff(FIRST, RENAME).Ok? && Diff(FIRST, RENAME).value.history != []
    ensures Diff(FIRST, DESCRIBE).Ok? && Diff(FIRST, DESCRIBE).value.history != []
    ensures var e := Diff(FIRST, DESCRIBE).value;
            var next := UpdateWithHistory(DB1, e.row, e.history, 0, None).0;
            1 in next.tasks && next.tasks[1].description == "d"
  {
    assert TrimSpace("u") == "u" by { TrimSpaceEnds("u"); }
    DiffAccepts(FIRST, RENAME);
    DiffAccepts(FIRST, DESCRIBE);
    NoChangeNoHistory(FIRST, RENAME);
    NoChangeNoHistory(FIRST, DESCRIBE);
    assert Target(FIRST, RENAME).title == "u" && FIRST.title == "t";
    assert Target(FIRST, DESCRIBE).description == "d" && FIRST.description == "";
    var e := Diff(FIRST, DESCRIBE).value;
    DiffExact(FIRST, DESCRIBE);
    UpdateWithHistoryAtomic(DB1, e.row, e.history, 0, None);
  }
}
