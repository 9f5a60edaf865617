/** Which cached lists an invalidation can still find: exactly those no earlier invalidation dropped. */
module ProtocolTracking {
  import opened Wrappers
  import opened Domain
  import opened Redis
  import opened KeyCodec
  import opened CacheCommands
  import opened TaskStore
  import opened Protocol
  import opened ProtocolInvariant

  // ---- a dropped list is never tracked again ----

  /** The list was set between the SMEMBERS and the DEL of an invalidation of its team. */
  ghost predicate DroppedEntry(s: State, e: Lister)
    requires e.Stored?
  {
    Dropped(s, e.filter.teamId, e.setAt, s.step)
  }

  ghost predicate Untracks(s: State, e: Lister, k: string)
    requires e.Stored?
  {
    DroppedEntry(s, e) ==> k !in Tracked(s.store, s.now, e.filter.teamId)
  }

  ghost predicate DroppedUntracked(s: State) {
    forall k | LiveEntry(s, k) :: Untracks(s, EntryOf(s, k), k)
  }

  /** Only a DEL drops lists. */
  lemma DroppedBefore(s: State, ttl: nat, ev: Event, e: Lister)
    requires Enabled(s, ev) && !ev.Delete? && Requests(s) && e.Stored?
    requires DroppedEntry(Apply(s, ttl, ev), e)
    ensures DroppedEntry(s, e)
  {
    hide TasksKey, TeamSetKey, TeamIDFromKey, SetTasks;
    var t := Apply(s, ttl, ev);
    var w :| w in t.writers && DropsAt(t.writers[w], e.filter.teamId, e.setAt, t.step);
    assert WriterOk(s, s.writers[w]);
    assert DropsAt(s.writers[w], e.filter.teamId, e.setAt, s.step);
  }

  lemma QuietUntracks(s: State, ttl: nat, ev: Event)
    requires Enabled(s, ev) && Quiet(ev) && Requests(s) && DroppedUntracked(s)
    ensures DroppedUntracked(Apply(s, ttl, ev))
  {
    hide TasksKey, TeamSetKey, TeamIDFromKey;
    var t := Apply(s, ttl, ev);
    forall k | LiveEntry(t, k) ensures Untracks(t, EntryOf(t, k), k) {
      QuietEntries(s, ttl, ev, k);
      assert Untracks(s, EntryOf(s, k), k);
      if DroppedEntry(t, EntryOf(s, k)) { DroppedBefore(s, ttl, ev, EntryOf(s, k)); }
    }
  }

  /** One SET adds only its own list to what is tracked. */
  lemma SetTracks(s: State, ttl: nat, l: nat, team: Int64)
    requires Enabled(s, SetEntry(l)) && Inv(s, ttl) && ttl > 0
    ensures Tracked(Apply(s, ttl, SetEntry(l)).store, s.now, team)
            <= Tracked(s.store, s.now, team) + {TasksKey(s.listers[l].filter)}
  {
    hide TasksKey, TeamSetKey, TeamIDFromKey;
    var f := s.listers[l].filter;
    assert ListerOk(s, s.listers[l]);
    SetTasksWrites(s.store, s.now, ttl, f, s.listers[l].rows);
    KeySpacesDisjoint(f, team);
    if TeamSetKey(team) == TeamSetKey(f.teamId) { SetKeyInjective(team, f.teamId); }
  }

  lemma SetUntracks(s: State, ttl: nat, l: nat)
    requires Enabled(s, SetEntry(l)) && Inv(s, ttl) && ttl > 0 && DroppedUntracked(s)
    ensures DroppedUntracked(Apply(s, ttl, SetEntry(l)))
  {
    hide TasksKey, TeamSetKey, TeamIDFromKey, Tracked, SetTasks;
    var t := Apply(s, ttl, SetEntry(l));
    forall k | LiveEntry(t, k) ensures Untracks(t, EntryOf(t, k), k) {
      var e := EntryOf(t, k);
      SetEntries(s, ttl, l, k);
      if DroppedEntry(t, e) {
        DroppedBefore(s, ttl, SetEntry(l), e);
        DroppedIsPast(s, e);
        assert Untracks(s, EntryOf(s, k), k);
        SetTracks(s, ttl, l, e.filter.teamId);
      }
    }
  }

  lemma DroppedIsPast(s: State, e: Lister)
    requires e.Stored? && DroppedEntry(s, e)
    ensures e.setAt < s.step
  {
  }

  /** The DEL of one team empties its tracking and leaves that of the others. */
  lemma DeleteTracks(s: State, ttl: nat, w: nat, team: Int64)
    requires Enabled(s, Delete(w))
    ensures Tracked(Apply(s, ttl, Delete(w)).store, s.now, team) <= Tracked(s.store, s.now, team)
    ensures team == s.writers[w].team ==> Tracked(Apply(s, ttl, Delete(w)).store, s.now, team) == {}
  {
    hide TasksKey, TeamSetKey, TeamIDFromKey;
    DeleteKeysLeaves(s.store, s.writers[w].team, s.writers[w].keys);
  }

  lemma DeleteUntracks(s: State, ttl: nat, w: nat)
    requires Enabled(s, Delete(w)) && Requests(s) && DroppedUntracked(s)
    ensures DroppedUntracked(Apply(s, ttl, Delete(w)))
  {
    hide TasksKey, TeamSetKey, TeamIDFromKey, Tracked, DeleteKeys;
    var t := Apply(s, ttl, Delete(w));
    forall k | LiveEntry(t, k) ensures Untracks(t, EntryOf(t, k), k) {
      DeleteEntries(s, ttl, w, k);
      var e := EntryOf(s, k);
      DeleteTracks(s, ttl, w, e.filter.teamId);
      assert Untracks(s, e, k);
      if DroppedEntry(t, e) && e.filter.teamId != s.writers[w].team {
        var v :| v in t.writers && DropsAt(t.writers[v], e.filter.teamId, e.setAt, t.step);
        assert WriterOk(s, s.writers[v]);
        assert DropsAt(s.writers[v], e.filter.teamId, e.setAt, s.step);
      }
    }
  }

  /** At the end of every run a dropped live list is in no key set. */
  lemma {:induction false} UntracksHolds(s0: State, ttl: nat, es: seq<Event>, s: State)
    requires Runs(s0, ttl, es, s)
    ensures DroppedUntracked(s)
  {
    hide DroppedUntracked;
    if es == [] {
      assert DroppedUntracked(s) by { NothingCached(s); }
    } else {
      var init, ev := es[..|es| - 1], es[|es| - 1];
      var p := Exec(s0, ttl, init).value;
      InvHolds(s0, ttl, init, p);
      UntracksHolds(s0, ttl, init, p);
      match ev
      case SetEntry(l) => SetUntracks(p, ttl, l);
      case Delete(w) => DeleteUntracks(p, ttl, w);
      case _ => QuietUntracks(p, ttl, ev);
    }
  }

  lemma NothingCached(s: State)
    requires s.store == map[]
    ensures DroppedUntracked(s)
  {
  }

  // ---- the exact conditions ----

  /**
   * A live list is in its team's key set if and only if no invalidation dropped it; then the set outlives the list
   * and names lists of this team only.
   */
  lemma TrackedExactly(s0: State, ttl: nat, es: seq<Event>, s: State, k: string)
    requires Runs(s0, ttl, es, s) && LiveEntry(s, k)
    ensures
      var e := EntryOf(s, k);
      var team := e.filter.teamId;
      && (k in Tracked(s.store, s.now, team) <==> !DroppedEntry(s, e))
      && (k in Tracked(s.store, s.now, team) ==> InSet(s.store, team, k, e.storedTime + ttl))
      && TeamIDFromKey(k) == team
      && (forall m | m in Tracked(s.store, s.now, team) :: TeamIDFromKey(m) == team)
  {
    hide TasksKey, TeamSetKey, TeamIDFromKey;
    InvHolds(s0, ttl, es, s);
    UntracksHolds(s0, ttl, es, s);
    var e := EntryOf(s, k);
    assert Untracks(s, e, k);
    assert TrackedEntry(s, ttl, e, k);
    assert RowsCell(s, ttl, k);
    TeamRoundTrip(e.filter, e.filter.teamId);
    CollectsOwnKeys(s.store, s.now, e.filter.teamId);
  }

  /** SMEMBERS and DEL in a row delete what is tracked and the key set, and touch nothing else of the state. */
  lemma StraightThrough(s: State, ttl: nat, w: nat)
    requires w in s.writers && s.writers[w].Committed? && Sorted(s.store)
    ensures Enabled(s, Collect(w)) && Enabled(Apply(s, ttl, Collect(w)), Delete(w))
    ensures var t, team := Apply(Apply(s, ttl, Collect(w)), ttl, Delete(w)), s.writers[w].team;
            && t.store == DeleteKeys(s.store, team, Tracked(s.store, s.now, team))
            && t.now == s.now && t.listers == s.listers && t.setBy == s.setBy
  {
    hide TasksKey, TeamSetKey, TeamIDFromKey, Tracked, DeleteKeys, SMembers, Sorted;
    CollectsOwnKeys(s.store, s.now, s.writers[w].team);
  }

  /**
   * An invalidation run straight through can always proceed; a live list of its team survives it if and only if an
   * earlier invalidation dropped that list, and every list of another team survives it.
   */
  lemma SurvivesExactly(s0: State, ttl: nat, es: seq<Event>, s: State, w: nat, k: string)
    requires Runs(s0, ttl, es, s) && w in s.writers && s.writers[w].Committed? && LiveEntry(s, k)
    ensures Enabled(s, Collect(w)) && Enabled(Apply(s, ttl, Collect(w)), Delete(w))
    ensures var t, e := Apply(Apply(s, ttl, Collect(w)), ttl, Delete(w)), EntryOf(s, k);
            && (LiveEntry(t, k) <==> e.filter.teamId != s.writers[w].team || DroppedEntry(s, e))
            && (k in t.store <==> LiveEntry(t, k))
            && (k in t.store ==> t.store[k] == s.store[k])
  {
    hide TasksKey, TeamSetKey, TeamIDFromKey, Tracked, DeleteKeys, Apply, Enabled, Exec, DroppedEntry;
    InvHolds(s0, ttl, es, s);
    var e, team := EntryOf(s, k), s.writers[w].team;
    StraightThrough(s, ttl, w);
    CollectsOwnKeys(s.store, s.now, team);
    DeleteKeysLeaves(s.store, team, Tracked(s.store, s.now, team));
    TrackedExactly(s0, ttl, es, s, k);
    assert RowsCell(s, ttl, k);
    KeySpacesDisjoint(e.filter, team);
  }

  // ---- without interleaving ----

  /** No list of the team was set between an invalidation's SMEMBERS and its DEL. */
  ghost predicate NoSetInside(s: State, team: Int64) {
    forall l, w | l in s.listers && s.listers[l].Stored? && s.listers[l].filter.teamId == team && w in s.writers ::
      !DropsAt(s.writers[w], team, s.listers[l].setAt, s.step)
  }

  lemma NoSetInsideDropsNone(s: State, k: string)
    requires LiveEntry(s, k) && NoSetInside(s, EntryOf(s, k).filter.teamId)
    ensures !DroppedEntry(s, EntryOf(s, k))
  {
  }

  /** Then every live list of the team is in its key set, which outlives it. */
  lemma TrackedUnlessInside(s0: State, ttl: nat, es: seq<Event>, s: State, k: string)
    requires Runs(s0, ttl, es, s) && LiveEntry(s, k) && NoSetInside(s, EntryOf(s, k).filter.teamId)
    ensures
      var team := EntryOf(s, k).filter.teamId;
      k in Tracked(s.store, s.now, team) && InSet(s.store, team, k, EntryOf(s, k).storedTime + ttl)
  {
    TrackedExactly(s0, ttl, es, s, k);
    NoSetInsideDropsNone(s, k);
  }

  /** An invalidation run straight through then removes every live list of its team and none of another's. */
  lemma InvalidationExact(s0: State, ttl: nat, es: seq<Event>, s: State, w: nat, k: string)
    requires Runs(s0, ttl, es, s) && w in s.writers && s.writers[w].Committed? && LiveEntry(s, k)
    requires NoSetInside(s, s.writers[w].team)
    ensures Enabled(s, Collect(w)) && Enabled(Apply(s, ttl, Collect(w)), Delete(w))
    ensures var t := Apply(Apply(s, ttl, Collect(w)), ttl, Delete(w));
            if EntryOf(s, k).filter.teamId == s.writers[w].team then k !in t.store
            else LiveEntry(t, k) && t.store[k] == s.store[k]
  {
    hide TasksKey, TeamSetKey, TeamIDFromKey;
    SurvivesExactly(s0, ttl, es, s, w, k);
    if EntryOf(s, k).filter.teamId == s.writers[w].team { NoSetInsideDropsNone(s, k); }
  }
}
