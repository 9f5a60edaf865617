/** Provenance, classification of stale lists and coherence, over every run of the protocol. */
module ProtocolTheorems {
  import opened Wrappers
  import opened Domain
  import opened Redis
  import opened KeyCodec
  import opened CacheCommands
  import opened TaskStore
  import opened AuditDiff
  import opened Protocol
  import opened ProtocolInvariant

  // ---- provenance ----

  /** rows are the answer to f in the database after the first `at` events. */
  ghost predicate AnswerAt(s0: State, ttl: nat, es: seq<Event>, f: TaskFilter, rows: seq<Task>, at: nat) {
    at <= |es| && Exec(s0, ttl, es[..at]).Some? && List(Exec(s0, ttl, es[..at]).value.db, f) == Ok(rows)
  }

  /** A hit served what some request for the same filter stored, less than one time to live earlier. */
  ghost predicate HitOk(s: State, ttl: nat, h: Lister)
    requires h.Hit?
  {
    && h.source in s.listers && s.listers[h.source].Stored?
    && s.listers[h.source].filter == h.filter && s.listers[h.source].rows == h.rows
    && s.listers[h.source].storedTime <= h.servedTime < s.listers[h.source].storedTime + ttl
  }

  ghost predicate Answered(s0: State, ttl: nat, es: seq<Event>, s: State, l: Lister) {
    match l
    case Missed(_) => true
    case Hit(_, _, _, _) => HitOk(s, ttl, l)
    case _ => AnswerAt(s0, ttl, es, l.filter, l.rows, l.readAt)
  }

  lemma RunPrefix(s0: State, ttl: nat, es: seq<Event>, s: State)
    requires Runs(s0, ttl, es, s) && es != []
    ensures var init := es[..|es| - 1];
            && Exec(s0, ttl, init).Some? && Runs(s0, ttl, init, Exec(s0, ttl, init).value)
            && Enabled(Exec(s0, ttl, init).value, es[|es| - 1])
            && s == Apply(Exec(s0, ttl, init).value, ttl, es[|es| - 1])
  {
  }

  lemma AnswerAtExtends(s0: State, ttl: nat, es: seq<Event>, f: TaskFilter, rows: seq<Task>, at: nat)
    requires es != [] && AnswerAt(s0, ttl, es[..|es| - 1], f, rows, at)
    ensures AnswerAt(s0, ttl, es, f, rows, at)
  {
    assert es[..|es| - 1][..at] == es[..at];
  }

  /** What GET returns for a request was stored by a request with the same filter. */
  lemma GetAnswers(s: State, ttl: nat, f: TaskFilter, rows: seq<Task>)
    requires Inv(s, ttl) && Request(f) && Get(s.store, s.now, TasksKey(f)) == Ok(Some(rows))
    ensures var k := TasksKey(f);
            && LiveEntry(s, k) && EntryOf(s, k).filter == f && EntryOf(s, k).rows == rows
            && EntryOf(s, k).storedTime <= s.now < EntryOf(s, k).storedTime + ttl
  {
    var k := TasksKey(f);
    assert RowsCell(s, ttl, k);
    assert ListerOk(s, EntryOf(s, k));
    KeyInjective(EntryOf(s, k).filter, f);
  }

  lemma AnsweredStep(s0: State, ttl: nat, es: seq<Event>, s: State, l: nat)
    requires Runs(s0, ttl, es, s) && es != [] && l in s.listers
    requires var init := es[..|es| - 1]; var p := Exec(s0, ttl, init);
             p.Some? && Inv(p.value, ttl) && (l in p.value.listers ==> Answered(s0, ttl, init, p.value, p.value.listers[l]))
    ensures Answered(s0, ttl, es, s, s.listers[l])
  {
    hide TasksKey, TeamSetKey, TeamIDFromKey;
    var init, e := es[..|es| - 1], es[|es| - 1];
    var p := Exec(s0, ttl, init).value;
    RunPrefix(s0, ttl, es, s);
    EventRemembers(p, ttl, e);
    InvHolds(s0, ttl, init, p);
    if l in p.listers {
      var r := p.listers[l];
      if r.HasRead? || r.Stored? || r.NotStored? {
        AnswerAtExtends(s0, ttl, es, r.filter, r.rows, r.readAt);
      } else if e == DbRead(l) {
        assert es[..|es|] == es;
      }
    } else if e.GetHit? {
      GetAnswers(p, ttl, e.filter, s.listers[l].rows);
    }
  }

  lemma {:induction false} AllAnswered(s0: State, ttl: nat, es: seq<Event>, s: State, l: nat)
    requires Runs(s0, ttl, es, s) && l in s.listers
    ensures Answered(s0, ttl, es, s, s.listers[l])
  {
    if es != [] {
      RunPrefix(s0, ttl, es, s);
      var init := es[..|es| - 1];
      var p := Exec(s0, ttl, init).value;
      InvHolds(s0, ttl, init, p);
      if l in p.listers { AllAnswered(s0, ttl, init, p, l); }
      AnsweredStep(s0, ttl, es, s, l);
    }
  }

  /**
   * Every list handed to a client is the exact answer to its filter in some database state of the run, holds
   * rows of that filter only, and a cached one was stored less than one time to live before it was served.
   */
  lemma Provenance(s0: State, ttl: nat, es: seq<Event>, s: State, l: nat)
    requires Runs(s0, ttl, es, s) && l in s.listers && !s.listers[l].Missed?
    ensures exists at :: AnswerAt(s0, ttl, es, s.listers[l].filter, s.listers[l].rows, at)
    ensures var f := s.listers[l].filter;
            forall t | t in s.listers[l].rows ::
              && t.teamId == f.teamId && (f.status.Some? ==> t.status == f.status.value)
              && (f.assignee.Some? ==> t.assignee == Some(f.assignee.value))
    ensures s.listers[l].Hit? ==> HitOk(s, ttl, s.listers[l])
  {
    hide TasksKey, TeamSetKey, TeamIDFromKey;
    AllAnswered(s0, ttl, es, s, l);
    var r := if s.listers[l].Hit? then s.listers[s.listers[l].source] else s.listers[l];
    if s.listers[l].Hit? { AllAnswered(s0, ttl, es, s, s.listers[l].source); }
    assert AnswerAt(s0, ttl, es, r.filter, r.rows, r.readAt);
    var p := Exec(s0, ttl, es[..r.readAt]).value;
    InvHolds(s0, ttl, es[..r.readAt], p);
    AllRowsMeans(p.db, r.filter);
  }

  // ---- stale lists ----

  /** A writer of the team committed after the first `at` events. */
  ghost predicate CommittedAfter(s: State, team: Int64, at: nat) {
    exists w :: w in s.writers && !s.writers[w].Snapshotted? && s.writers[w].team == team && at < s.writers[w].commitAt
  }

  lemma CreateFrame(s: State, ttl: nat, w: nat, row: Task, dbNow: int, f: TaskFilter)
    requires Enabled(s, CommitCreate(w, row, dbNow)) && WellFormed(s.db) && row.teamId != f.teamId
    ensures AllRows(Apply(s, ttl, CommitCreate(w, row, dbNow)).db, f) == AllRows(s.db, f)
  {
    hide AllRows;
    InsertTaskFrame(s.db, row, dbNow, f);
  }

  lemma UpdateFrame(s: State, ttl: nat, w: nat, input: UpdateTaskInput, dbNow: int, f: TaskFilter)
    requires Enabled(s, CommitUpdate(w, input, dbNow)) && WellFormed(s.db) && WriterOk(s, s.writers[w])
    requires s.writers[w].row.teamId != f.teamId
    ensures AllRows(Apply(s, ttl, CommitUpdate(w, input, dbNow)).db, f) == AllRows(s.db, f)
  {
    hide UpdateWithHistory, UpdateRow;
    var snap := s.writers[w].row;
    var edit := Diff(snap, input).value;
    DiffExact(snap, input);
    UpdateRowFrame(s.db, edit.row, dbNow, f);
    UpdateWithHistoryAtomic(s.db, edit.row, edit.history, dbNow, None);
    UpdateRowKeepsCounter(s.db, edit.row, dbNow);
  }

  lemma UpdateRowKeepsCounter(db: Db, t: Task, now: int)
    ensures UpdateRow(db, t, now).lastTask == db.lastTask
  {
  }

  /** One event changes the answer to f only by committing to the team of f. */
  lemma EventFrame(s: State, ttl: nat, e: Event, f: TaskFilter)
    requires Enabled(s, e) && Inv(s, ttl)
    ensures List(Apply(s, ttl, e).db, f) == List(s.db, f) || CommittedAfter(Apply(s, ttl, e), f.teamId, s.step)
  {
    hide TasksKey, TeamSetKey, TeamIDFromKey, List, AllRows, InsertTask, Diff, UpdateWithHistory;
    var t := Apply(s, ttl, e);
    match e
    case CommitCreate(w, row, dbNow) =>
      if row.teamId != f.teamId {
        CreateFrame(s, ttl, w, row, dbNow, f);
        SameRowsSameList(t.db, s.db, f);
      } else {
        assert t.writers[w].team == f.teamId && s.step < t.writers[w].commitAt;
      }
    case CommitUpdate(w, input, dbNow) =>
      assert WriterOk(s, s.writers[w]);
      if s.writers[w].row.teamId != f.teamId {
        UpdateFrame(s, ttl, w, input, dbNow, f);
        SameRowsSameList(t.db, s.db, f);
      } else {
        assert t.writers[w].team == f.teamId && s.step < t.writers[w].commitAt;
      }
    case _ =>
  }

  lemma CommitsStay(s: State, ttl: nat, e: Event, team: Int64, at: nat)
    requires Enabled(s, e) && CommittedAfter(s, team, at)
    ensures CommittedAfter(Apply(s, ttl, e), team, at)
  {
    var w :| w in s.writers && !s.writers[w].Snapshotted? && s.writers[w].team == team && at < s.writers[w].commitAt;
    var t := Apply(s, ttl, e);
    assert w in t.writers && !t.writers[w].Snapshotted? && t.writers[w].team == team && at < t.writers[w].commitAt;
  }

  /** Between two states of a run the answer to f changes only if its team saw a commit. */
  lemma {:induction false} AnswerChangesByCommit(s0: State, ttl: nat, es: seq<Event>, s: State, f: TaskFilter, at: nat)
    requires Runs(s0, ttl, es, s) && at <= |es| && Exec(s0, ttl, es[..at]).Some?
    ensures List(Exec(s0, ttl, es[..at]).value.db, f) == List(s.db, f) || CommittedAfter(s, f.teamId, at)
    decreases |es|
  {
    if at == |es| {
      assert es[..at] == es;
    } else {
      var init, e := es[..|es| - 1], es[|es| - 1];
      RunPrefix(s0, ttl, es, s);
      var p := Exec(s0, ttl, init).value;
      InvHolds(s0, ttl, init, p);
      assert init[..at] == es[..at];
      AnswerChangesByCommit(s0, ttl, init, p, f, at);
      EventFrame(p, ttl, e, f);
      if CommittedAfter(p, f.teamId, at) {
        CommitsStay(p, ttl, e, f.teamId, at);
      } else if CommittedAfter(s, f.teamId, p.step) {
        var w :| w in s.writers && !s.writers[w].Snapshotted? && s.writers[w].team == f.teamId && p.step < s.writers[w].commitAt;
        assert at < s.writers[w].commitAt;
      }
    }
  }

  /** The cache answers f with rows that are not the current answer. */
  ghost predicate Stale(s: State, f: TaskFilter, rows: seq<Task>) {
    Get(s.store, s.now, TasksKey(f)) == Ok(Some(rows)) && List(s.db, f) != Ok(rows)
  }

  /**
   * Classification: a stale list was read before some commit of its team, and every commit it missed has one of
   * the four causes.
   */
  lemma StaleClassified(s0: State, ttl: nat, es: seq<Event>, s: State, f: TaskFilter, rows: seq<Task>)
    requires Runs(s0, ttl, es, s) && Request(f) && Stale(s, f, rows)
    ensures
      var k := TasksKey(f);
      && LiveEntry(s, k) && EntryOf(s, k).filter == f && EntryOf(s, k).rows == rows
      && (exists w :: w in s.writers && MissedBy(EntryOf(s, k), s.writers[w]))
      && (forall w | w in s.writers && MissedBy(EntryOf(s, k), s.writers[w]) ::
            exists c :: HasCause(s, EntryOf(s, k), s.writers[w], c))
  {
    hide TasksKey, TeamSetKey, TeamIDFromKey;
    var k := TasksKey(f);
    InvHolds(s0, ttl, es, s);
    GetAnswers(s, ttl, f, rows);
    var e := EntryOf(s, k);
    AllAnswered(s0, ttl, es, s, s.setBy[k]);
    AnswerChangesByCommit(s0, ttl, es, s, f, e.readAt);
    var w :| w in s.writers && !s.writers[w].Snapshotted? && s.writers[w].team == f.teamId && e.readAt < s.writers[w].commitAt;
    assert MissedBy(e, s.writers[w]);
    forall w | w in s.writers && MissedBy(e, s.writers[w]) ensures exists c :: HasCause(s, e, s.writers[w], c) {
      assert ExplainedEntry(s, s.writers[w], e);
    }
  }

  // ---- coherence under concurrency ----

  /** The read-to-set window of e meets the commit-to-DEL window of w. */
  predicate Overlap(e: Lister, w: Writer)
    requires e.Stored? && w.Invalidated?
  {
    e.readAt < w.delAt && w.commitAt < e.setAt
  }

  /** Every commit the list missed has been invalidated, and no invalidation of its team overlaps the list. */
  ghost predicate UndisturbedEntry(s: State, e: Lister)
    requires e.Stored?
  {
    && (forall w | w in s.writers && MissedBy(e, s.writers[w]) :: s.writers[w].Invalidated?)
    && (forall w | w in s.writers && s.writers[w].Invalidated? && s.writers[w].team == e.filter.teamId ::
          !Overlap(e, s.writers[w]))
  }

  /** Whatever the cause, the writer has not invalidated or the list overlaps an invalidation of its team. */
  lemma CauseDisturbs(s: State, k: string, w: nat)
    requires Requests(s) && Explained(s) && LiveEntry(s, k) && w in s.writers && MissedBy(EntryOf(s, k), s.writers[w])
    ensures !s.writers[w].Invalidated?
            || exists v :: v in s.writers && s.writers[v].Invalidated? && s.writers[v].team == s.writers[w].team
                           && Overlap(EntryOf(s, k), s.writers[v])
  {
  }

  /** Then the cached list is the current answer, whatever happened to other lists and to earlier versions of it. */
  lemma EntryCoherent(s0: State, ttl: nat, es: seq<Event>, s: State, f: TaskFilter, rows: seq<Task>)
    requires Runs(s0, ttl, es, s) && Request(f) && Get(s.store, s.now, TasksKey(f)) == Ok(Some(rows))
    ensures LiveEntry(s, TasksKey(f)) && EntryOf(s, TasksKey(f)).filter == f
    ensures EntryOf(s, TasksKey(f)).storedTime <= s.now < EntryOf(s, TasksKey(f)).storedTime + ttl
    ensures UndisturbedEntry(s, EntryOf(s, TasksKey(f))) ==> List(s.db, f) == Ok(rows)
  {
    hide TasksKey, TeamSetKey, TeamIDFromKey;
    InvHolds(s0, ttl, es, s);
    GetAnswers(s, ttl, f, rows);
    if Stale(s, f, rows) {
      StaleClassified(s0, ttl, es, s, f, rows);
      var w :| w in s.writers && MissedBy(EntryOf(s, TasksKey(f)), s.writers[w]);
      CauseDisturbs(s, TasksKey(f), w);
    }
  }

  /** No list of the team stored less than one time to live ago is disturbed. */
  ghost predicate LatelyUndisturbed(s: State, ttl: nat, team: Int64) {
    forall l | l in s.listers && s.listers[l].Stored? && s.listers[l].filter.teamId == team
               && s.now < s.listers[l].storedTime + ttl ::
      UndisturbedEntry(s, s.listers[l])
  }

  /** Healing: then every cached list of the team is the current answer, however often it was not before. */
  lemma Heals(s0: State, ttl: nat, es: seq<Event>, s: State, f: TaskFilter, rows: seq<Task>)
    requires Runs(s0, ttl, es, s) && Request(f) && LatelyUndisturbed(s, ttl, f.teamId)
    requires Get(s.store, s.now, TasksKey(f)) == Ok(Some(rows))
    ensures List(s.db, f) == Ok(rows)
  {
    hide TasksKey, TeamSetKey, TeamIDFromKey, UndisturbedEntry;
    EntryCoherent(s0, ttl, es, s, f, rows);
  }

  /** Every writer of the team has invalidated, and no stored list of the team overlaps one. */
  ghost predicate Undisturbed(s: State, team: Int64) {
    && (forall w | w in s.writers && !s.writers[w].Snapshotted? && s.writers[w].team == team ::
          s.writers[w].Invalidated?)
    && (forall l, w | l in s.listers && s.listers[l].Stored? && s.listers[l].filter.teamId == team
                      && w in s.writers && s.writers[w].Invalidated? && s.writers[w].team == team ::
          !Overlap(s.listers[l], s.writers[w]))
  }

  /** Then every cached list of the team is the current answer, however the writers overlapped each other. */
  lemma Coherence(s0: State, ttl: nat, es: seq<Event>, s: State, f: TaskFilter, rows: seq<Task>)
    requires Runs(s0, ttl, es, s) && Request(f) && Undisturbed(s, f.teamId)
    requires Get(s.store, s.now, TasksKey(f)) == Ok(Some(rows))
    ensures List(s.db, f) == Ok(rows)
  {
    hide TasksKey, TeamSetKey, TeamIDFromKey;
    Heals(s0, ttl, es, s, f, rows);
  }

  /** Staleness is bounded: when a time to live passes with nothing stored, no list is served from the cache. */
  lemma LifetimeClears(s0: State, ttl: nat, es: seq<Event>, s: State, d: nat, f: TaskFilter)
    requires Runs(s0, ttl, es, s) && d >= ttl && Request(f)
    ensures Get(Apply(s, ttl, Tick(d)).store, Apply(s, ttl, Tick(d)).now, TasksKey(f)) == Ok(None)
  {
    hide TasksKey, TeamSetKey, TeamIDFromKey;
    InvHolds(s0, ttl, es, s);
    var t, k := Apply(s, ttl, Tick(d)), TasksKey(f);
    if k in s.store {
      ListKeyHoldsRows(s.store, f);
      assert RowsCell(s, ttl, k);
      assert ListerOk(s, EntryOf(s, k));
    }
  }

  lemma ListKeyHoldsRows(store: Store, f: TaskFilter)
    requires Sorted(store) && TasksKey(f) in store
    ensures store[TasksKey(f)].value.Rows?
  {
    hide TasksKey, TeamSetKey;
    KeySpacesDisjoint(f, TeamIDFromKey(TasksKey(f)));
  }
}
