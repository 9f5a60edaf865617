/** The partial update of TaskService.Update and the audit rows it writes (internal/service/task.go). */
module AuditDiff {
  import opened Wrappers
  import opened Domain
  import opened Decimal
  import opened Text

  datatype UpdateTaskInput = UpdateTaskInput(
    taskId: Int64,
    title: Option<string>,
    description: Option<string>,
    status: Option<TaskStatus>,
    assignee: Option<Int64>,
    unsetAssign: bool,
    actorId: Int64)

  /** The new row and its audit rows. */
  datatype Edit = Edit(row: Task, history: seq<TaskHistory>)

  const TITLE := "title"
  const DESCRIPTION := "description"
  const STATUS := "status"
  const ASSIGNEE := "assignee_id"

  /** The audited columns in the order they are compared. */
  const FIELDS: seq<string> := [TITLE, DESCRIPTION, STATUS, ASSIGNEE]

  // ---- what an update should do ----

  predicate Acceptable(input: UpdateTaskInput) {
    && (input.title.Some? ==> TrimSpace(input.title.value) != "")
    && (input.status.Some? ==> ValidStatus(input.status.value))
  }

  /** The row the caller asked for; unset wins over assign. */
  function Target(t: Task, input: UpdateTaskInput): Task {
    t.(title := if input.title.Some? then TrimSpace(input.title.value) else t.title,
       description := if input.description.Some? then input.description.value else t.description,
       status := if input.status.Some? then input.status.value else t.status,
       assignee := if input.unsetAssign then None else if input.assignee.Some? then input.assignee else t.assignee)
  }

  /** An audited column as the text stored in task_history. */
  function FieldText(t: Task, field: string): string {
    if field == TITLE then t.title
    else if field == DESCRIPTION then t.description
    else if field == STATUS then t.status
    else if t.assignee.None? then ""
    else FormatInt(t.assignee.value)
  }

  lemma FieldNames()
    ensures TITLE != DESCRIPTION && TITLE != STATUS && TITLE != ASSIGNEE
    ensures DESCRIPTION != STATUS && DESCRIPTION != ASSIGNEE && STATUS != ASSIGNEE
    ensures TITLE in FIELDS && DESCRIPTION in FIELDS && STATUS in FIELDS && ASSIGNEE in FIELDS
  {
  }

  lemma FieldTexts(t: Task)
    ensures FieldText(t, TITLE) == t.title && FieldText(t, DESCRIPTION) == t.description
    ensures FieldText(t, STATUS) == t.status
    ensures FieldText(t, ASSIGNEE) == if t.assignee.None? then "" else FormatInt(t.assignee.value)
  {
  }

  function Entry(before: Task, after: Task, actor: Int64, field: string): TaskHistory {
    TaskHistory(0, before.id, actor, field, Some(FieldText(before, field)), Some(FieldText(after, field)), ZERO_TIME)
  }

  /** The audit row of one column, if its text differs. */
  function Change(before: Task, after: Task, actor: Int64, field: string): seq<TaskHistory> {
    if FieldText(before, field) != FieldText(after, field) then [Entry(before, after, actor, field)] else []
  }

  /** One audit row for each listed column whose text differs. */
  function Changes(before: Task, after: Task, actor: Int64, fields: seq<string>): seq<TaskHistory> {
    if fields == [] then []
    else
      Change(before, after, actor, fields[0]) + Changes(before, after, actor, fields[1..])
  }

  function AllChanges(before: Task, after: Task, actor: Int64): seq<TaskHistory> {
    Changes(before, after, actor, FIELDS)
  }

  function Diff(t: Task, input: UpdateTaskInput): Result<Edit, Error> {
    if Acceptable(input) then Ok(Edit(Target(t, input), AllChanges(t, Target(t, input), input.actorId)))
    else Err(Validation)
  }

  lemma DiffAccepts(t: Task, input: UpdateTaskInput)
    ensures Diff(t, input).Ok? <==> Acceptable(input)
  {
  }

  // ---- how the service computes it ----

  /** The middle of TaskService.Update: compare field by field, collecting audit rows and assigning the copy. */
  method ComputeEdit(current: Task, input: UpdateTaskInput) returns (r: Result<Edit, Error>)
    ensures r == Diff(current, input)
  {
    hide TrimSpace, FormatInt, FieldText, Changes;
    ghost var after, actor := Target(current, input), input.actorId;
    ChangesUnfold(current, after, actor);
    FieldTexts(current);
    FieldTexts(after);
    var updated := current;
    var history: seq<TaskHistory> := [];

    if input.title.Some? {
      var nt := TrimSpace(input.title.value);
      if nt == "" {
        return Err(Validation);
      }
      if nt != current.title {
        history := Add(history, current.id, input.actorId, TITLE, current.title, nt);
        updated := updated.(title := nt);
      }
    }
    assert history == Change(current, after, actor, TITLE);
    if input.description.Some? && input.description.value != current.description {
      history := Add(history, current.id, input.actorId, DESCRIPTION, current.description, input.description.value);
      updated := updated.(description := input.description.value);
    }
    assert history == Change(current, after, actor, TITLE) + Change(current, after, actor, DESCRIPTION);
    if input.status.Some? {
      if !ValidStatus(input.status.value) {
        return Err(Validation);
      }
      if input.status.value != current.status {
        history := Add(history, current.id, input.actorId, STATUS, current.status, input.status.value);
        updated := updated.(status := input.status.value);
      }
    }
    assert history == Change(current, after, actor, TITLE) + Change(current, after, actor, DESCRIPTION)
                      + Change(current, after, actor, STATUS);
    AssigneeTextsAgree(current, after);
    if input.unsetAssign {
      if current.assignee.Some? {
        history := Add(history, current.id, input.actorId, ASSIGNEE, FormatInt(current.assignee.value), "");
        updated := updated.(assignee := None);
      }
    } else if input.assignee.Some? {
      if current.assignee.None? || current.assignee.value != input.assignee.value {
        var oldV := "";
        if current.assignee.Some? {
          oldV := FormatInt(current.assignee.value);
        }
        history := Add(history, current.id, input.actorId, ASSIGNEE, oldV, FormatInt(input.assignee.value));
        updated := updated.(assignee := input.assignee);
      }
    }
    assert updated == after;
    assert history == Change(current, after, actor, TITLE) + Change(current, after, actor, DESCRIPTION)
                      + Change(current, after, actor, STATUS) + Change(current, after, actor, ASSIGNEE);
    return Ok(Edit(updated, history));
  }

  /** The closure that appends one audit row. */
  function Add(history: seq<TaskHistory>, taskId: Int64, actor: Int64, field: string, oldV: string, newV: string): seq<TaskHistory> {
    history + [TaskHistory(0, taskId, actor, field, Some(oldV), Some(newV), ZERO_TIME)]
  }

  lemma ChangesStep(before: Task, after: Task, actor: Int64, field: string, rest: seq<string>)
    ensures Changes(before, after, actor, [field] + rest) == Change(before, after, actor, field) + Changes(before, after, actor, rest)
  {
  }

  lemma ChangesUnfold(before: Task, after: Task, actor: Int64)
    ensures AllChanges(before, after, actor) ==
            Change(before, after, actor, TITLE) + Change(before, after, actor, DESCRIPTION)
            + Change(before, after, actor, STATUS) + Change(before, after, actor, ASSIGNEE)
  {
    assert FIELDS == [TITLE] + ([DESCRIPTION] + ([STATUS] + ([ASSIGNEE] + [])));
    ChangesStep(before, after, actor, TITLE, [DESCRIPTION] + ([STATUS] + ([ASSIGNEE] + [])));
    ChangesStep(before, after, actor, DESCRIPTION, [STATUS] + ([ASSIGNEE] + []));
    ChangesStep(before, after, actor, STATUS, [ASSIGNEE] + []);
    ChangesStep(before, after, actor, ASSIGNEE, []);
  }

  /** Comparing stored texts is comparing assignees: "" is nobody and numbers print injectively. */
  lemma AssigneeTextsAgree(a: Task, b: Task)
    ensures FieldText(a, ASSIGNEE) == FieldText(b, ASSIGNEE) <==> a.assignee == b.assignee
  {
    if a.assignee.Some? { FormatChars(a.assignee.value); }
    if b.assignee.Some? { FormatChars(b.assignee.value); }
    if a.assignee.Some? && b.assignee.Some? && FieldText(a, ASSIGNEE) == FieldText(b, ASSIGNEE) {
      FormatInjective(a.assignee.value, b.assignee.value);
    }
  }

  // ---- the audit rows are exact ----

  function Rank(field: string): nat {
    if field == TITLE then 0 else if field == DESCRIPTION then 1 else if field == STATUS then 2 else 3
  }

  /** h records the change of one column from `before` to `after`, and it is a real change. */
  ghost predicate Records(h: TaskHistory, before: Task, after: Task, actor: Int64) {
    && h.field in FIELDS && h.taskId == before.id && h.changedBy == actor
    && h.oldValue == Some(FieldText(before, h.field)) && h.newValue == Some(FieldText(after, h.field))
    && h.oldValue != h.newValue
  }

  ghost predicate Mentions(log: seq<TaskHistory>, field: string) {
    exists i :: 0 <= i < |log| && log[i].field == field
  }

  lemma MentionsAppend(one: seq<TaskHistory>, rest: seq<TaskHistory>, field: string)
    ensures Mentions(one + rest, field) <==> Mentions(one, field) || Mentions(rest, field)
  {
    var log := one + rest;
    if Mentions(log, field) {
      var i :| 0 <= i < |log| && log[i].field == field;
      assert if i < |one| then one[i].field == field else rest[i - |one|].field == field;
    }
    if Mentions(one, field) {
      var i :| 0 <= i < |one| && one[i].field == field;
      assert log[i].field == field;
    }
    if Mentions(rest, field) {
      var i :| 0 <= i < |rest| && rest[i].field == field;
      assert log[|one| + i].field == field;
    }
  }

  lemma ChangeRecords(before: Task, after: Task, actor: Int64, field: string, other: string)
    requires field in FIELDS
    ensures var one := Change(before, after, actor, field);
            && (forall h | h in one :: Records(h, before, after, actor))
            && (Mentions(one, other) <==> other == field && FieldText(before, field) != FieldText(after, field))
  {
    var one := Change(before, after, actor, field);
    if one != [] { assert one[0].field == field; }
  }

  /** The rows written are real changes of listed columns. */
  lemma {:induction false} ChangesRecord(before: Task, after: Task, actor: Int64, fields: seq<string>)
    requires forall i | 0 <= i < |fields| :: fields[i] in FIELDS
    ensures forall h | h in Changes(before, after, actor, fields) :: Records(h, before, after, actor)
  {
    if fields != [] {
      ChangesRecord(before, after, actor, fields[1..]);
      ChangeRecords(before, after, actor, fields[0], fields[0]);
    }
  }

  /** A column is mentioned exactly when it is listed and changed. */
  lemma {:induction false} ChangesMention(before: Task, after: Task, actor: Int64, fields: seq<string>, field: string)
    requires forall i | 0 <= i < |fields| :: fields[i] in FIELDS
    ensures Mentions(Changes(before, after, actor, fields), field)
            <==> field in fields && FieldText(before, field) != FieldText(after, field)
  {
    if fields != [] {
      var f, rest := fields[0], fields[1..];
      ChangesMention(before, after, actor, rest, field);
      ChangeRecords(before, after, actor, f, field);
      MentionsAppend(Change(before, after, actor, f), Changes(before, after, actor, rest), field);
      assert field in fields <==> field == f || field in rest;
    }
  }

  ghost predicate InFieldOrder(log: seq<TaskHistory>) {
    forall i, j | 0 <= i < j < |log| :: Rank(log[i].field) < Rank(log[j].field)
  }

  /** The audit rows of one update: in column order, at most one per column, exactly for the columns that changed. */
  lemma DiffExact(t: Task, input: UpdateTaskInput)
    requires Acceptable(input)
    ensures
      var e := Diff(t, input).value;
      && InFieldOrder(e.history)
      && (forall h | h in e.history :: Records(h, t, e.row, input.actorId))
      && (Mentions(e.history, TITLE) <==> t.title != e.row.title)
      && (Mentions(e.history, DESCRIPTION) <==> t.description != e.row.description)
      && (Mentions(e.history, STATUS) <==> t.status != e.row.status)
      && (Mentions(e.history, ASSIGNEE) <==> t.assignee != e.row.assignee)
      && SameBut(t, e.row)
  {
    var after, actor := Target(t, input), input.actorId;
    ChangesRecord(t, after, actor, FIELDS);
    FieldNames();
    ChangesMention(t, after, actor, FIELDS, TITLE);
    ChangesMention(t, after, actor, FIELDS, DESCRIPTION);
    ChangesMention(t, after, actor, FIELDS, STATUS);
    ChangesMention(t, after, actor, FIELDS, ASSIGNEE);
    FieldTexts(t);
    FieldTexts(after);
    AssigneeTextsAgree(t, after);
    ChangesOrdered(t, after, actor);
  }

  lemma ChangesOrdered(before: Task, after: Task, actor: Int64)
    ensures InFieldOrder(AllChanges(before, after, actor))
  {
    ChangesUnfold(before, after, actor);
    FieldNames();
    var a, b := Change(before, after, actor, TITLE), Change(before, after, actor, DESCRIPTION);
    var c, d := Change(before, after, actor, STATUS), Change(before, after, actor, ASSIGNEE);
    OrderedFour(a, b, c, d);
  }

  lemma OrderedFour(a: seq<TaskHistory>, b: seq<TaskHistory>, c: seq<TaskHistory>, d: seq<TaskHistory>)
    requires |a| <= 1 && |b| <= 1 && |c| <= 1 && |d| <= 1
    requires (forall h | h in a :: Rank(h.field) == 0) && (forall h | h in b :: Rank(h.field) == 1)
    requires (forall h | h in c :: Rank(h.field) == 2) && (forall h | h in d :: Rank(h.field) == 3)
    ensures InFieldOrder(a + b + c + d)
  {
  }

  // ---- replaying and rewinding ----

  /** Reads a stored text back into its column. */
  function SetField(t: Task, field: string, text: string): Task {
    if field == TITLE then t.(title := text)
    else if field == DESCRIPTION then t.(description := text)
    else if field == STATUS then t.(status := text)
    else if text == "" then t.(assignee := None)
    else t.(assignee := ParseInt(text))
  }

  function TextOf(v: Option<string>): string {
    if v.Some? then v.value else ""
  }

  /** Applies new values, oldest row first. */
  function Replay(t: Task, log: seq<TaskHistory>): Task
    decreases |log|
  {
    if log == [] then t else Replay(SetField(t, log[0].field, TextOf(log[0].newValue)), log[1..])
  }

  /** Restores old values, newest row first. */
  function Rewind(t: Task, log: seq<TaskHistory>): Task
    decreases |log|
  {
    if log == [] then t
    else Rewind(SetField(t, log[|log| - 1].field, TextOf(log[|log| - 1].oldValue)), log[..|log| - 1])
  }

  /** Each row's old value is what the row before it left behind. */
  ghost predicate Chained(t: Task, log: seq<TaskHistory>)
    decreases |log|
  {
    log == [] ||
    (&& log[0].field in FIELDS
     && TextOf(log[0].oldValue) == FieldText(t, log[0].field)
     && TextOf(log[0].newValue) == FieldText(SetField(t, log[0].field, TextOf(log[0].newValue)), log[0].field)
     && Chained(SetField(t, log[0].field, TextOf(log[0].newValue)), log[1..]))
  }

  /** b is a up to the audited columns. */
  predicate SameBut(a: Task, b: Task) {
    b == a.(title := b.title, description := b.description, status := b.status, assignee := b.assignee)
  }

  lemma SetFieldText(a: Task, b: Task, field: string)
    requires field in FIELDS
    ensures SetField(a, field, FieldText(b, field)) ==
            (if field == TITLE then a.(title := b.title)
             else if field == DESCRIPTION then a.(description := b.description)
             else if field == STATUS then a.(status := b.status)
             else a.(assignee := b.assignee))
    ensures FieldText(SetField(a, field, FieldText(b, field)), field) == FieldText(b, field)
  {
    if b.assignee.Some? {
      FormatChars(b.assignee.value);
      FormatParse(b.assignee.value);
    }
  }

  /** Setting one column leaves the others alone, and setting it back undoes it. */
  lemma SetFieldFrame(t: Task, field: string, other: string, text: string)
    requires field in FIELDS && other in FIELDS && field != other
    ensures FieldText(SetField(t, field, text), other) == FieldText(t, other)
  {
  }

  lemma SetFieldUndo(t: Task, field: string, text: string)
    requires field in FIELDS
    ensures SetField(SetField(t, field, text), field, FieldText(t, field)) == t
    ensures SetField(t, field, FieldText(t, field)) == t
  {
    SetFieldText(SetField(t, field, text), t, field);
    SetFieldText(t, t, field);
  }

  lemma {:induction false} ReplayAppend(t: Task, a: seq<TaskHistory>, b: seq<TaskHistory>)
    ensures Replay(t, a + b) == Replay(Replay(t, a), b)
    decreases |a|
  {
    hide FieldText, SetField;
    if a == [] {
      assert a + b == b;
    } else {
      assert (a + b)[1..] == a[1..] + b;
      ReplayAppend(SetField(t, a[0].field, TextOf(a[0].newValue)), a[1..], b);
    }
  }

  lemma {:induction false} ChainedAppend(t: Task, a: seq<TaskHistory>, b: seq<TaskHistory>)
    requires Chained(t, a) && Chained(Replay(t, a), b)
    ensures Chained(t, a + b)
    decreases |a|
  {
    hide FieldText, SetField;
    if a == [] {
      assert a + b == b;
    } else {
      assert (a + b)[1..] == a[1..] + b;
      ChainedAppend(SetField(t, a[0].field, TextOf(a[0].newValue)), a[1..], b);
    }
  }

  lemma {:induction false} RewindPrepend(t: Task, h: TaskHistory, log: seq<TaskHistory>)
    ensures Rewind(t, [h] + log) == SetField(Rewind(t, log), h.field, TextOf(h.oldValue))
    decreases |log|
  {
    var all := [h] + log;
    if log == [] {
      assert all[..0] == [];
    } else {
      var n := |log| - 1;
      assert all[|all| - 1] == log[n] && all[..|all| - 1] == [h] + log[..n];
      RewindPrepend(SetField(t, log[n].field, TextOf(log[n].oldValue)), h, log[..n]);
    }
  }

  /** Rewinding a chained log undoes replaying it. */
  lemma {:induction false} RewindUndoesReplay(t: Task, log: seq<TaskHistory>)
    requires Chained(t, log)
    ensures Rewind(Replay(t, log), log) == t
    decreases |log|
  {
    if log != [] {
      var next := SetField(t, log[0].field, TextOf(log[0].newValue));
      RewindUndoesReplay(next, log[1..]);
      assert log == [log[0]] + log[1..];
      RewindPrepend(Replay(t, log), log[0], log[1..]);
      SetFieldUndo(t, log[0].field, TextOf(log[0].newValue));
    }
  }

  /** In a chained log the first row about a column starts from the row it is replayed over. */
  lemma {:induction false} FirstOfField(t: Task, log: seq<TaskHistory>, j: nat)
    requires Chained(t, log) && j < |log|
    requires forall k | 0 <= k < j :: log[k].field != log[j].field
    ensures TextOf(log[j].oldValue) == FieldText(t, log[j].field)
    ensures log[j].field in FIELDS
    decreases |log|
  {
    if j > 0 {
      var next := SetField(t, log[0].field, TextOf(log[0].newValue));
      FirstOfField(next, log[1..], j - 1);
      SetFieldFrame(t, log[0].field, log[j].field, TextOf(log[0].newValue));
    }
  }

  /** Consecutive rows about one column chain: the new value of one is the old value of the next. */
  lemma {:induction false} FieldChains(t: Task, log: seq<TaskHistory>, i: nat, j: nat)
    requires Chained(t, log) && i < j < |log| && log[i].field == log[j].field
    requires forall k | i < k < j :: log[k].field != log[i].field
    ensures TextOf(log[j].oldValue) == TextOf(log[i].newValue)
    decreases i
  {
    var next := SetField(t, log[0].field, TextOf(log[0].newValue));
    if i == 0 {
      FirstOfField(next, log[1..], j - 1);
    } else {
      FieldChains(next, log[1..], i - 1, j - 1);
    }
  }

  /** The listed columns of `after` written over t. */
  function Put(t: Task, after: Task, fields: seq<string>): Task
    decreases |fields|
  {
    if fields == [] then t else Put(SetField(t, fields[0], FieldText(after, fields[0])), after, fields[1..])
  }

  ghost predicate DistinctFields(fields: seq<string>) {
    && (forall i | 0 <= i < |fields| :: fields[i] in FIELDS)
    && (forall i, j | 0 <= i < j < |fields| :: fields[i] != fields[j])
  }

  lemma {:induction false} ChangesReplay(t: Task, before: Task, after: Task, actor: Int64, fields: seq<string>)
    requires DistinctFields(fields)
    requires forall field | field in fields :: FieldText(t, field) == FieldText(before, field)
    ensures Chained(t, Changes(before, after, actor, fields))
    ensures Replay(t, Changes(before, after, actor, fields)) == Put(t, after, fields)
    decreases |fields|
  {
    if fields != [] {
      var f := fields[0];
      var next := SetField(t, f, FieldText(after, f));
      SetFieldText(t, after, f);
      SetFieldUndo(t, f, "");
      forall field | field in fields[1..] ensures FieldText(next, field) == FieldText(before, field) {
        SetFieldFrame(t, f, field, FieldText(after, f));
      }
      var rest := Changes(before, after, actor, fields[1..]);
      ChangesReplay(next, before, after, actor, fields[1..]);
      if FieldText(before, f) != FieldText(after, f) {
        var log := [Entry(before, after, actor, f)] + rest;
        assert log[1..] == rest;
      } else {
        assert [] + rest == rest;
      }
    }
  }

  lemma PutAll(before: Task, after: Task)
    requires SameBut(before, after)
    ensures Put(before, after, FIELDS) == after
  {
    var a := SetField(before, TITLE, FieldText(after, TITLE));
    var b := SetField(a, DESCRIPTION, FieldText(after, DESCRIPTION));
    var c := SetField(b, STATUS, FieldText(after, STATUS));
    SetFieldText(c, after, ASSIGNEE);
    assert FIELDS[1..] == [DESCRIPTION, STATUS, ASSIGNEE];
    assert FIELDS[1..][1..] == [STATUS, ASSIGNEE];
    assert FIELDS[1..][1..][1..] == [ASSIGNEE];
    assert Put(c, after, [ASSIGNEE]) == after;
    assert Put(b, after, [STATUS, ASSIGNEE]) == after;
  }

  /** The audit rows of one update are a patch: forwards they give the stored row, backwards the snapshot. */
  lemma DiffInvertible(t: Task, input: UpdateTaskInput)
    requires Acceptable(input)
    ensures
      var e := Diff(t, input).value;
      Chained(t, e.history) && Replay(t, e.history) == e.row && Rewind(e.row, e.history) == t
  {
    var after := Target(t, input);
    ChangesReplay(t, t, after, input.actorId, FIELDS);
    PutAll(t, after);
    RewindUndoesReplay(t, AllChanges(t, after, input.actorId));
  }

  /** Applying the same request to its own result changes nothing and writes no audit row. */
  lemma DiffIdempotent(t: Task, input: UpdateTaskInput)
    requires Acceptable(input)
    ensures Diff(Target(t, input), input) == Ok(Edit(Target(t, input), []))
  {
    var after := Target(t, input);
    if input.title.Some? { TrimSpaceEnds(input.title.value); TrimSpaceEnds(TrimSpace(input.title.value)); }
    assert Target(after, input) == after;
    ChangesUnfold(after, after, input.actorId);
  }

  /** No audit rows means no change, and the other way round. */
  lemma NoChangeNoHistory(t: Task, input: UpdateTaskInput)
    requires Acceptable(input)
    ensures Diff(t, input).value.history == [] <==> Diff(t, input).value.row == t
  {
    ChangesUnfold(t, Target(t, input), input.actorId);
    AssigneeTextsAgree(t, Target(t, input));
  }
}
