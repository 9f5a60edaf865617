/** What every event of the protocol keeps. */
module ProtocolInvariant {
  import opened Wrappers
  import opened Domain
  import opened Redis
  import opened KeyCodec
  import opened CacheCommands
  import opened TaskStore
  import opened AuditDiff
  import opened Protocol

  // ---- the vocabulary of the theorems ----

  /** A live cached list; EntryOf is the request that stored it. */
  ghost predicate LiveEntry(s: State, k: string) {
    LiveRows(s.store, s.now, k) && k in s.setBy && s.setBy[k] in s.listers && s.listers[s.setBy[k]].Stored?
  }

  function EntryOf(s: State, k: string): (l: Lister)
    requires k in s.setBy && s.setBy[k] in s.listers && s.listers[s.setBy[k]].Stored?
    ensures l.Stored?
  {
    s.listers[s.setBy[k]]
  }

  /** Between its SMEMBERS and its DEL some invalidation of the team missed a list set at setAt. */
  ghost predicate Dropped(s: State, team: Int64, setAt: nat, before: nat) {
    exists w :: w in s.writers && DropsAt(s.writers[w], team, setAt, before)
  }

  predicate DropsAt(w: Writer, team: Int64, setAt: nat, before: nat) {
    w.Invalidated? && w.team == team && w.smembersAt < setAt < w.delAt <= before
  }

  /** The entry was read before writer w committed to the same team. */
  predicate MissedBy(e: Lister, w: Writer)
    requires e.Stored?
  {
    !w.Snapshotted? && w.team == e.filter.teamId && e.readAt < w.commitAt
  }

  datatype Cause = Pending | Failed | FilledAcross | Untracked

  /** Why an entry outlives a commit it missed. */
  ghost predicate HasCause(s: State, e: Lister, w: Writer, c: Cause)
    requires e.Stored? && !w.Snapshotted?
  {
    match c
    case Pending => w.Committed? || w.Collected?
    case Failed => w.NotInvalidated?
    case FilledAcross => w.Invalidated? && w.smembersAt < e.setAt
    case Untracked => w.Invalidated? && Dropped(s, w.team, e.setAt, w.smembersAt)
  }

  // ---- the invariant ----

  ghost predicate ListerOk(s: State, l: Lister) {
    && Request(l.filter)
    && (l.HasRead? ==> l.readAt <= s.step)
    && (l.Stored? ==> l.readAt < l.setAt <= s.step && l.storedTime <= s.now)
  }

  ghost predicate WriterOk(s: State, w: Writer) {
    match w
    case Snapshotted(row) => row.id in s.db.tasks && SameRow(row, s.db.tasks[row.id])
    case Committed(_, c) => c <= s.step
    case Collected(t, c, m, keys) => c < m <= s.step && forall k | k in keys :: TeamIDFromKey(k) == t
    case Invalidated(_, c, m, d) => c < m < d <= s.step
    case NotInvalidated(_, c) => c <= s.step
  }

  ghost predicate Requests(s: State) {
    && WellFormed(s.db)
    && (forall l | l in s.listers :: ListerOk(s, s.listers[l]))
    && (forall w | w in s.writers :: WriterOk(s, s.writers[w]))
  }

  /** Every cached list is what its last setter stored, under that request's key. */
  ghost predicate Shape(s: State, ttl: nat) {
    Sorted(s.store) && RowsCells(s, ttl)
  }

  ghost predicate RowsCells(s: State, ttl: nat) {
    forall k | k in s.store && s.store[k].value.Rows? :: RowsCell(s, ttl, k)
  }

  ghost predicate RowsCell(s: State, ttl: nat, k: string)
    requires k in s.store
  {
    && k in s.setBy && s.setBy[k] in s.listers && s.listers[s.setBy[k]].Stored?
    && k == TasksKey(EntryOf(s, k).filter)
    && s.store[k] == Cell(Rows(EntryOf(s, k).rows), Some(EntryOf(s, k).storedTime + ttl))
  }

  /** Every live list is in its team's key set, unless an invalidation dropped it from there. */
  ghost predicate Tracking(s: State, ttl: nat) {
    forall k | LiveEntry(s, k) :: TrackedEntry(s, ttl, EntryOf(s, k), k)
  }

  ghost predicate TrackedEntry(s: State, ttl: nat, e: Lister, k: string)
    requires e.Stored?
  {
    InSet(s.store, e.filter.teamId, k, e.storedTime + ttl) || Dropped(s, e.filter.teamId, e.setAt, s.step)
  }

  /** A writer that has collected its keys has every older live list of its team among them, or it was dropped. */
  ghost predicate Collections(s: State) {
    forall w, k | w in s.writers && s.writers[w].Collected? && LiveEntry(s, k) :: CollectedEntry(s, s.writers[w], EntryOf(s, k), k)
  }

  ghost predicate CollectedEntry(s: State, w: Writer, e: Lister, k: string)
    requires e.Stored? && w.Collected?
  {
    w.team == e.filter.teamId && e.setAt <= w.smembersAt
    ==> k in w.keys || Dropped(s, w.team, e.setAt, w.smembersAt)
  }

  /** Every commit a live list missed has a cause. */
  ghost predicate Explained(s: State) {
    forall w, k | w in s.writers && LiveEntry(s, k) :: ExplainedEntry(s, s.writers[w], EntryOf(s, k))
  }

  ghost predicate ExplainedEntry(s: State, w: Writer, e: Lister)
    requires e.Stored?
  {
    MissedBy(e, w) ==> exists c :: HasCause(s, e, w, c)
  }

  ghost predicate Inv(s: State, ttl: nat) {
    Requests(s) && Shape(s, ttl) && Tracking(s, ttl) && Collections(s) && Explained(s)
  }

  // ---- records only grow ----

  /** Stored lists and finished invalidations keep their records. */
  ghost predicate Remembers(s: State, t: State) {
    && s.step <= t.step
    && (forall l | l in s.listers && s.listers[l].Stored? :: l in t.listers && t.listers[l] == s.listers[l])
    && (forall w | w in s.writers && s.writers[w].Invalidated? :: w in t.writers && t.writers[w] == s.writers[w])
  }

  lemma DroppedStays(s: State, t: State, team: Int64, setAt: nat, before: nat, later: nat)
    requires Remembers(s, t) && before <= later
    ensures Dropped(s, team, setAt, before) ==> Dropped(t, team, setAt, later)
  {
  }

  lemma CauseStays(s: State, t: State, e: Lister, w: Writer, c: Cause)
    requires Remembers(s, t) && e.Stored? && !w.Snapshotted? && HasCause(s, e, w, c)
    ensures HasCause(t, e, w, c)
  {
  }

  lemma EventRemembers(s: State, ttl: nat, e: Event)
    requires Enabled(s, e)
    ensures Remembers(s, Apply(s, ttl, e))
  {
  }

  // ---- events that write neither the store nor setBy ----

  predicate Quiet(e: Event) {
    !e.SetEntry? && !e.Delete?
  }

  lemma QuietEntries(s: State, ttl: nat, e: Event, k: string)
    requires Enabled(s, e) && Quiet(e) && LiveEntry(Apply(s, ttl, e), k)
    ensures LiveEntry(s, k) && EntryOf(Apply(s, ttl, e), k) == EntryOf(s, k)
  {
  }

  /** A cell keeps its meaning while its record and content stay. */
  lemma CellStays(s: State, t: State, ttl: nat, k: string)
    requires Remembers(s, t) && k in s.store && RowsCell(s, ttl, k)
    requires k in t.store && t.store[k] == s.store[k] && k in t.setBy && t.setBy[k] == s.setBy[k]
    ensures RowsCell(t, ttl, k)
  {
  }

  lemma QuietShape(s: State, ttl: nat, e: Event)
    requires Enabled(s, e) && Quiet(e) && Shape(s, ttl)
    ensures Shape(Apply(s, ttl, e), ttl)
  {
    var t := Apply(s, ttl, e);
    EventRemembers(s, ttl, e);
    assert t.store == s.store && t.setBy == s.setBy;
    forall k | k in t.store && t.store[k].value.Rows? ensures RowsCell(t, ttl, k) {
      CellStays(s, t, ttl, k);
    }
  }

  lemma QuietTracking(s: State, ttl: nat, e: Event)
    requires Enabled(s, e) && Quiet(e) && Inv(s, ttl)
    ensures Tracking(Apply(s, ttl, e), ttl)
  {
    var t := Apply(s, ttl, e);
    EventRemembers(s, ttl, e);
    forall k | LiveEntry(t, k) ensures TrackedEntry(t, ttl, EntryOf(t, k), k) {
      QuietEntries(s, ttl, e, k);
      var l := EntryOf(s, k);
      assert TrackedEntry(s, ttl, l, k);
      DroppedStays(s, t, l.filter.teamId, l.setAt, s.step, t.step);
    }
  }

  /** SMEMBERS sees every live list that is tracked. */
  lemma CollectSees(s: State, ttl: nat, w: nat, k: string)
    requires Enabled(s, Collect(w)) && Inv(s, ttl) && LiveEntry(s, k)
    ensures CollectedEntry(Apply(s, ttl, Collect(w)), Apply(s, ttl, Collect(w)).writers[w], EntryOf(s, k), k)
  {
    var t, l, team := Apply(s, ttl, Collect(w)), EntryOf(s, k), s.writers[w].team;
    EventRemembers(s, ttl, Collect(w));
    assert TrackedEntry(s, ttl, l, k);
    assert RowsCell(s, ttl, k);
    DroppedStays(s, t, team, l.setAt, s.step, t.step);
    CollectsOwnKeys(s.store, s.now, team);
  }

  lemma QuietCollections(s: State, ttl: nat, e: Event)
    requires Enabled(s, e) && Quiet(e) && Inv(s, ttl)
    ensures Collections(Apply(s, ttl, e))
  {
    hide TasksKey, TeamSetKey, TeamIDFromKey;
    var t := Apply(s, ttl, e);
    EventRemembers(s, ttl, e);
    forall w, k | w in t.writers && t.writers[w].Collected? && LiveEntry(t, k)
      ensures CollectedEntry(t, t.writers[w], EntryOf(t, k), k)
    {
      QuietEntries(s, ttl, e, k);
      if e == Collect(w) {
        CollectSees(s, ttl, w, k);
      } else {
        assert CollectedEntry(s, s.writers[w], EntryOf(s, k), k);
        DroppedStays(s, t, t.writers[w].team, EntryOf(s, k).setAt, t.writers[w].smembersAt, t.writers[w].smembersAt);
      }
    }
  }

  lemma QuietExplained(s: State, ttl: nat, e: Event)
    requires Enabled(s, e) && Quiet(e) && Inv(s, ttl)
    ensures Explained(Apply(s, ttl, e))
  {
    hide TasksKey, TeamSetKey, TeamIDFromKey;
    var t := Apply(s, ttl, e);
    EventRemembers(s, ttl, e);
    forall w, k | w in t.writers && LiveEntry(t, k) ensures ExplainedEntry(t, t.writers[w], EntryOf(t, k)) {
      QuietEntries(s, ttl, e, k);
      var l := EntryOf(s, k);
      if MissedBy(l, t.writers[w]) {
        if w in s.writers && t.writers[w] == s.writers[w] {
          assert ExplainedEntry(s, s.writers[w], l);
          var c :| HasCause(s, l, s.writers[w], c);
          CauseStays(s, t, l, t.writers[w], c);
        } else if t.writers[w].NotInvalidated? {
          assert HasCause(t, l, t.writers[w], Failed);
        } else {
          assert HasCause(t, l, t.writers[w], Pending);
        }
      }
    }
  }

  // ---- SET ----

  /** After the SET of lister l: its entry is new, every other live entry was there before. */
  lemma SetEntries(s: State, ttl: nat, l: nat, k: string)
    requires Enabled(s, SetEntry(l)) && Inv(s, ttl) && ttl > 0 && LiveEntry(Apply(s, ttl, SetEntry(l)), k)
    ensures var t := Apply(s, ttl, SetEntry(l));
            if k == TasksKey(s.listers[l].filter) then EntryOf(t, k) == t.listers[l]
            else LiveEntry(s, k) && EntryOf(t, k) == EntryOf(s, k)
  {
    hide TasksKey, TeamSetKey, TeamIDFromKey;
    var f := s.listers[l].filter;
    SetTasksWrites(s.store, s.now, ttl, f, s.listers[l].rows);
    if k != TasksKey(f) {
      assert k in s.store;
      assert RowsCell(s, ttl, k);
    }
  }

  lemma SetNewCell(s: State, ttl: nat, l: nat)
    requires Enabled(s, SetEntry(l)) && Sorted(s.store) && ttl > 0 && ListerOk(s, s.listers[l])
    ensures var t, k := Apply(s, ttl, SetEntry(l)), TasksKey(s.listers[l].filter);
            k in t.store && RowsCell(t, ttl, k)
  {
    hide TasksKey, TeamSetKey;
    SetTasksWrites(s.store, s.now, ttl, s.listers[l].filter, s.listers[l].rows);
  }

  lemma SetOldCell(s: State, ttl: nat, l: nat, k: string)
    requires Enabled(s, SetEntry(l)) && Sorted(s.store) && ttl > 0 && ListerOk(s, s.listers[l])
    requires var t := Apply(s, ttl, SetEntry(l)); k in t.store && t.store[k].value.Rows?
    requires k != TasksKey(s.listers[l].filter)
    ensures var t := Apply(s, ttl, SetEntry(l));
            k in s.store && t.store[k] == s.store[k] && (k in s.setBy ==> k in t.setBy && t.setBy[k] == s.setBy[k])
  {
    hide TasksKey, TeamSetKey, TeamIDFromKey;
    SetTasksWrites(s.store, s.now, ttl, s.listers[l].filter, s.listers[l].rows);
  }

  lemma SetShape(s: State, ttl: nat, l: nat)
    requires Enabled(s, SetEntry(l)) && Inv(s, ttl) && ttl > 0
    ensures Shape(Apply(s, ttl, SetEntry(l)), ttl)
  {
    hide TasksKey, TeamSetKey, TeamIDFromKey;
    var t := Apply(s, ttl, SetEntry(l));
    assert ListerOk(s, s.listers[l]);
    EventRemembers(s, ttl, SetEntry(l));
    SetTasksSorted(s.store, s.now, ttl, s.listers[l].filter, s.listers[l].rows);
    SetNewCell(s, ttl, l);
    forall k | k in t.store && t.store[k].value.Rows? ensures RowsCell(t, ttl, k) {
      if k != TasksKey(s.listers[l].filter) {
        SetOldCell(s, ttl, l, k);
        CellStays(s, t, ttl, k);
      }
    }
  }

  /** Renewing a team's key set keeps every tracked live list tracked. */
  lemma SetKeepsTracked(s: State, ttl: nat, l: nat, k: string)
    requires Enabled(s, SetEntry(l)) && Inv(s, ttl) && ttl > 0 && LiveEntry(s, k)
    requires k != TasksKey(s.listers[l].filter)
    ensures TrackedEntry(Apply(s, ttl, SetEntry(l)), ttl, EntryOf(s, k), k)
  {
    hide TasksKey, TeamSetKey, TeamIDFromKey;
    var t, f, e := Apply(s, ttl, SetEntry(l)), s.listers[l].filter, EntryOf(s, k);
    EventRemembers(s, ttl, SetEntry(l));
    DroppedStays(s, t, e.filter.teamId, e.setAt, s.step, t.step);
    SetTasksWrites(s.store, s.now, ttl, f, s.listers[l].rows);
    assert TrackedEntry(s, ttl, e, k);
    assert RowsCell(s, ttl, k);
    KeySpacesDisjoint(f, e.filter.teamId);
    if TeamSetKey(f.teamId) == TeamSetKey(e.filter.teamId) { SetKeyInjective(f.teamId, e.filter.teamId); }
  }

  lemma SetTracking(s: State, ttl: nat, l: nat)
    requires Enabled(s, SetEntry(l)) && Inv(s, ttl) && ttl > 0
    ensures Tracking(Apply(s, ttl, SetEntry(l)), ttl)
  {
    hide TasksKey, TeamSetKey, TeamIDFromKey;
    var t, f := Apply(s, ttl, SetEntry(l)), s.listers[l].filter;
    forall k | LiveEntry(t, k) ensures TrackedEntry(t, ttl, EntryOf(t, k), k) {
      SetEntries(s, ttl, l, k);
      if k == TasksKey(f) {
        SetTasksWrites(s.store, s.now, ttl, f, s.listers[l].rows);
      } else {
        SetKeepsTracked(s, ttl, l, k);
      }
    }
  }

  lemma SetCollections(s: State, ttl: nat, l: nat)
    requires Enabled(s, SetEntry(l)) && Inv(s, ttl) && ttl > 0
    ensures Collections(Apply(s, ttl, SetEntry(l)))
  {
    hide TasksKey, TeamSetKey, TeamIDFromKey;
    var t := Apply(s, ttl, SetEntry(l));
    EventRemembers(s, ttl, SetEntry(l));
    forall w, k | w in t.writers && t.writers[w].Collected? && LiveEntry(t, k)
      ensures CollectedEntry(t, t.writers[w], EntryOf(t, k), k)
    {
      SetEntries(s, ttl, l, k);
      assert WriterOk(s, s.writers[w]);
      if k != TasksKey(s.listers[l].filter) {
        assert CollectedEntry(s, s.writers[w], EntryOf(s, k), k);
        DroppedStays(s, t, t.writers[w].team, EntryOf(s, k).setAt, t.writers[w].smembersAt, t.writers[w].smembersAt);
      }
    }
  }

  lemma SetExplained(s: State, ttl: nat, l: nat)
    requires Enabled(s, SetEntry(l)) && Inv(s, ttl) && ttl > 0
    ensures Explained(Apply(s, ttl, SetEntry(l)))
  {
    hide TasksKey, TeamSetKey, TeamIDFromKey;
    var t := Apply(s, ttl, SetEntry(l));
    EventRemembers(s, ttl, SetEntry(l));
    forall w, k | w in t.writers && LiveEntry(t, k) ensures ExplainedEntry(t, t.writers[w], EntryOf(t, k)) {
      SetEntries(s, ttl, l, k);
      var e, wr := EntryOf(t, k), t.writers[w];
      assert WriterOk(s, wr);
      if MissedBy(e, wr) {
        if k == TasksKey(s.listers[l].filter) {
          assert HasCause(t, e, wr, if wr.Invalidated? then FilledAcross else if wr.NotInvalidated? then Failed else Pending);
        } else {
          assert ExplainedEntry(s, wr, e);
          var c :| HasCause(s, e, wr, c);
          CauseStays(s, t, e, wr, c);
        }
      }
    }
  }

  // ---- DEL ----

  lemma DeleteEntries(s: State, ttl: nat, w: nat, k: string)
    requires Enabled(s, Delete(w)) && LiveEntry(Apply(s, ttl, Delete(w)), k)
    ensures LiveEntry(s, k) && EntryOf(Apply(s, ttl, Delete(w)), k) == EntryOf(s, k) && k !in s.writers[w].keys
  {
  }

  lemma DeleteShape(s: State, ttl: nat, w: nat)
    requires Enabled(s, Delete(w)) && Shape(s, ttl)
    ensures Shape(Apply(s, ttl, Delete(w)), ttl)
  {
    var t := Apply(s, ttl, Delete(w));
    EventRemembers(s, ttl, Delete(w));
    DeleteKeysLeaves(s.store, s.writers[w].team, s.writers[w].keys);
    assert t.setBy == s.setBy;
    forall k | k in t.store && t.store[k].value.Rows? ensures RowsCell(t, ttl, k) {
      CellStays(s, t, ttl, k);
    }
  }

  /** A live list of the team that survives the DEL was set after the SMEMBERS or dropped earlier. */
  lemma Survivors(s: State, ttl: nat, w: nat, k: string)
    requires Enabled(s, Delete(w)) && Inv(s, ttl) && LiveEntry(Apply(s, ttl, Delete(w)), k)
    requires EntryOf(s, k).filter.teamId == s.writers[w].team
    ensures var t, m := Apply(s, ttl, Delete(w)), s.writers[w].smembersAt;
            m < EntryOf(s, k).setAt || Dropped(t, s.writers[w].team, EntryOf(s, k).setAt, m)
  {
    var t, wr := Apply(s, ttl, Delete(w)), s.writers[w];
    EventRemembers(s, ttl, Delete(w));
    DeleteEntries(s, ttl, w, k);
    assert CollectedEntry(s, wr, EntryOf(s, k), k);
    DroppedStays(s, t, wr.team, EntryOf(s, k).setAt, wr.smembersAt, wr.smembersAt);
  }

  /** The DEL of one team leaves the key set of another alone. */
  lemma DeleteOtherTeam(s: State, ttl: nat, w: nat, e: Lister, k: string)
    requires Enabled(s, Delete(w)) && Inv(s, ttl) && e.Stored? && e.filter.teamId != s.writers[w].team
    requires TrackedEntry(s, ttl, e, k)
    ensures TrackedEntry(Apply(s, ttl, Delete(w)), ttl, e, k)
  {
    hide TasksKey, TeamSetKey, TeamIDFromKey;
    var t, wr, sk := Apply(s, ttl, Delete(w)), s.writers[w], TeamSetKey(e.filter.teamId);
    EventRemembers(s, ttl, Delete(w));
    DroppedStays(s, t, e.filter.teamId, e.setAt, s.step, t.step);
    DeleteKeysLeaves(s.store, wr.team, wr.keys);
    TeamRoundTrip(e.filter, e.filter.teamId);
    assert WriterOk(s, wr);
    if sk == TeamSetKey(wr.team) { SetKeyInjective(e.filter.teamId, wr.team); }
  }

  lemma DeleteTracking(s: State, ttl: nat, w: nat)
    requires Enabled(s, Delete(w)) && Inv(s, ttl)
    ensures Tracking(Apply(s, ttl, Delete(w)), ttl)
  {
    hide TasksKey, TeamSetKey, TeamIDFromKey;
    var t := Apply(s, ttl, Delete(w));
    forall k | LiveEntry(t, k) ensures TrackedEntry(t, ttl, EntryOf(t, k), k) {
      DeleteEntries(s, ttl, w, k);
      var e, m := EntryOf(s, k), s.writers[w].smembersAt;
      assert TrackedEntry(s, ttl, e, k);
      if e.filter.teamId != s.writers[w].team {
        DeleteOtherTeam(s, ttl, w, e, k);
      } else {
        Survivors(s, ttl, w, k);
        assert ListerOk(s, e);
        assert WriterOk(s, s.writers[w]);
        if m < e.setAt {
          assert DropsAt(t.writers[w], e.filter.teamId, e.setAt, t.step);
        } else {
          DroppedLater(t, e.filter.teamId, e.setAt, m, t.step);
        }
      }
    }
  }

  lemma DroppedLater(s: State, team: Int64, setAt: nat, before: nat, later: nat)
    requires before <= later && Dropped(s, team, setAt, before)
    ensures Dropped(s, team, setAt, later)
  {
  }

  lemma DeleteCollections(s: State, ttl: nat, w: nat)
    requires Enabled(s, Delete(w)) && Inv(s, ttl)
    ensures Collections(Apply(s, ttl, Delete(w)))
  {
    var t := Apply(s, ttl, Delete(w));
    EventRemembers(s, ttl, Delete(w));
    forall v, k | v in t.writers && t.writers[v].Collected? && LiveEntry(t, k)
      ensures CollectedEntry(t, t.writers[v], EntryOf(t, k), k)
    {
      DeleteEntries(s, ttl, w, k);
      assert CollectedEntry(s, s.writers[v], EntryOf(s, k), k);
      DroppedStays(s, t, t.writers[v].team, EntryOf(s, k).setAt, t.writers[v].smembersAt, t.writers[v].smembersAt);
    }
  }

  lemma DeleteExplained(s: State, ttl: nat, w: nat)
    requires Enabled(s, Delete(w)) && Inv(s, ttl)
    ensures Explained(Apply(s, ttl, Delete(w)))
  {
    var t := Apply(s, ttl, Delete(w));
    EventRemembers(s, ttl, Delete(w));
    forall v, k | v in t.writers && LiveEntry(t, k) ensures ExplainedEntry(t, t.writers[v], EntryOf(t, k)) {
      DeleteEntries(s, ttl, w, k);
      var e, wr := EntryOf(s, k), t.writers[v];
      if MissedBy(e, wr) {
        if v == w {
          Survivors(s, ttl, w, k);
          assert HasCause(t, e, wr, if wr.smembersAt < e.setAt then FilledAcross else Untracked);
        } else {
          assert ExplainedEntry(s, wr, e);
          var c :| HasCause(s, e, wr, c);
          CauseStays(s, t, e, wr, c);
        }
      }
    }
  }

  // ---- the requests themselves ----

  lemma DbKeeps(s: State, ttl: nat, e: Event)
    requires Enabled(s, e) && Requests(s)
    ensures var t := Apply(s, ttl, e);
            && WellFormed(t.db)
            && (forall id | id in s.db.tasks :: id in t.db.tasks && SameRow(s.db.tasks[id], t.db.tasks[id]))
  {
    match e
    case CommitCreate(w, row, dbNow) =>
      InsertTaskKeeps(s.db, row, dbNow);
    case CommitUpdate(w, input, dbNow) =>
      var snap := s.writers[w].row;
      var edit := Diff(snap, input).value;
      assert WriterOk(s, s.writers[w]);
      DiffExact(snap, input);
      UpdateWithHistoryAtomic(s.db, edit.row, edit.history, dbNow, None);
      UpdateRowKeeps(s.db, edit.row, dbNow);
    case _ =>
  }

  lemma ListersStep(s: State, ttl: nat, e: Event, l: nat)
    requires Enabled(s, e) && Requests(s) && l in Apply(s, ttl, e).listers
    ensures ListerOk(Apply(s, ttl, e), Apply(s, ttl, e).listers[l])
  {
    hide TasksKey, TeamSetKey, TeamIDFromKey;
    if l in s.listers { assert ListerOk(s, s.listers[l]); }
  }

  lemma WritersStep(s: State, ttl: nat, e: Event, w: nat)
    requires Enabled(s, e) && Requests(s) && Sorted(s.store) && w in Apply(s, ttl, e).writers
    ensures WriterOk(Apply(s, ttl, e), Apply(s, ttl, e).writers[w])
  {
    hide TasksKey, TeamSetKey, TeamIDFromKey;
    DbKeeps(s, ttl, e);
    if w in s.writers {
      assert WriterOk(s, s.writers[w]);
      if e == Collect(w) { CollectsOwnKeys(s.store, s.now, s.writers[w].team); }
    }
  }

  lemma RequestsStep(s: State, ttl: nat, e: Event)
    requires Enabled(s, e) && Requests(s) && Sorted(s.store)
    ensures Requests(Apply(s, ttl, e))
  {
    hide Enabled;
    var t := Apply(s, ttl, e);
    DbKeeps(s, ttl, e);
    forall l | l in t.listers ensures ListerOk(t, t.listers[l]) { ListersStep(s, ttl, e, l); }
    forall w | w in t.writers ensures WriterOk(t, t.writers[w]) { WritersStep(s, ttl, e, w); }
  }

  // ---- the invariant ----

  /** Every event keeps the invariant. */
  lemma InvStep(s: State, ttl: nat, e: Event)
    requires Enabled(s, e) && Inv(s, ttl) && ttl > 0
    ensures Inv(Apply(s, ttl, e), ttl)
  {
    hide TasksKey, TeamSetKey, TeamIDFromKey;
    RequestsStep(s, ttl, e);
    match e
    case SetEntry(l) =>
      SetShape(s, ttl, l); SetTracking(s, ttl, l); SetCollections(s, ttl, l); SetExplained(s, ttl, l);
    case Delete(w) =>
      DeleteShape(s, ttl, w); DeleteTracking(s, ttl, w); DeleteCollections(s, ttl, w); DeleteExplained(s, ttl, w);
    case _ =>
      QuietShape(s, ttl, e); QuietTracking(s, ttl, e); QuietCollections(s, ttl, e); QuietExplained(s, ttl, e);
  }

  /** The invariant holds at the end of every run. */
  lemma {:induction false} InvHolds(s0: State, ttl: nat, es: seq<Event>, s: State)
    requires Runs(s0, ttl, es, s)
    ensures Inv(s, ttl) && s.step == |es|
  {
    if es != [] {
      var init := es[..|es| - 1];
      var p := Exec(s0, ttl, init).value;
      InvHolds(s0, ttl, init, p);
      InvStep(p, ttl, es[|es| - 1]);
    }
  }
}
