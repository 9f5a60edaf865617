/**
 * The protocol's events are the service's calls taken apart: run without interruption, the round trips of one
 * request have the effect and the answer of the whole call.
 */
module ProtocolSerial {
  import opened Wrappers
  import opened Domain
  import opened Redis
  import opened KeyCodec
  import opened CacheCommands
  import opened TaskStore
  import opened AuditDiff
  import opened Protocol
  import Spec = ServiceSpec

  lemma ExecSnoc(s: State, ttl: nat, es: seq<Event>, p: State, e: Event)
    requires Exec(s, ttl, es) == Some(p) && Enabled(p, e)
    ensures Exec(s, ttl, es + [e]) == Some(Apply(p, ttl, e))
  {
  }

  lemma ExecOne(s: State, ttl: nat, e: Event)
    requires Enabled(s, e)
    ensures Exec(s, ttl, [e]) == Some(Apply(s, ttl, e))
  {
  }

  // ---- List ----

  predicate Cached(s: State, g: TaskFilter, env: Spec.Env) {
    !env.cacheGetFails && Get(s.store, s.now, TasksKey(g)).Ok? && Get(s.store, s.now, TasksKey(g)).value.Some?
  }

  /** The round trips of one List that passed the membership check. */
  function ListEvents(s: State, l: nat, g: TaskFilter, env: Spec.Env): seq<Event> {
    if Cached(s, g, env) then [GetHit(l, g)]
    else [GetMiss(l, g)] + [DbRead(l)] + [if env.cacheSetFails then SetFails(l) else SetEntry(l)]
  }

  lemma ListIsSteps(s: State, ttl: nat, l: nat, w: Spec.World, f: TaskFilter, actor: Int64, env: Spec.Env)
    requires l !in s.listers && w.db == s.db && env.redisNow == s.now
    requires Request(Spec.Clamp(f)) && (f.teamId, actor) in w.roster.members && !env.memberFails && !env.queryFails
    ensures
      var (store, rows) := Spec.CachedList(w, s.store, ttl, f, actor, env);
      var t := Exec(s, ttl, ListEvents(s, l, Spec.Clamp(f), env));
      && t.Some? && t.value.store == store && t.value.db == s.db
      && l in t.value.listers && !t.value.listers[l].Missed? && Ok(t.value.listers[l].rows) == rows
  {
    hide TasksKey, List, SetTasks, Exec;
    var g := Spec.Clamp(f);
    if Cached(s, g, env) {
      ExecOne(s, ttl, GetHit(l, g));
    } else {
      assert List(s.db, g).Ok? by { RequestListOk(s.db, g); }
      var last := if env.cacheSetFails then SetFails(l) else SetEntry(l);
      ExecOne(s, ttl, GetMiss(l, g));
      var a := Apply(s, ttl, GetMiss(l, g));
      ExecSnoc(s, ttl, [GetMiss(l, g)], a, DbRead(l));
      ExecSnoc(s, ttl, [GetMiss(l, g)] + [DbRead(l)], Apply(a, ttl, DbRead(l)), last);
    }
  }

  lemma RequestListOk(db: Db, g: TaskFilter)
    requires Request(g)
    ensures List(db, g).Ok?
  {
  }

  // ---- Create and Update ----

  /** The round trips of InvalidateTeam. */
  function InvalidateEvents(w: nat, env: Spec.Env): seq<Event> {
    if env.smembersFails then [CollectFails(w)] else [Collect(w)] + [if env.delFails then DeleteFails(w) else Delete(w)]
  }

  lemma InvalidateIsSteps(s: State, ttl: nat, es: seq<Event>, p: State, w: nat, env: Spec.Env)
    requires Exec(s, ttl, es) == Some(p) && Sorted(p.store) && env.redisNow == p.now
    requires w in p.writers && p.writers[w].Committed?
    ensures var t := Exec(s, ttl, es + InvalidateEvents(w, env));
            && t.Some? && t.value.db == p.db
            && t.value.store == Spec.Invalidate(p.store, p.writers[w].team, env)
  {
    hide TeamSetKey, SMembers, Exec;
    CollectsOwnKeys(p.store, p.now, p.writers[w].team);
    if env.smembersFails {
      ExecSnoc(s, ttl, es, p, CollectFails(w));
    } else {
      var q := Apply(p, ttl, Collect(w));
      var last := if env.delFails then DeleteFails(w) else Delete(w);
      ExecSnoc(s, ttl, es, p, Collect(w));
      ExecSnoc(s, ttl, es + [Collect(w)], q, last);
      assert es + ([Collect(w)] + [last]) == es + [Collect(w)] + [last];
    }
  }

  lemma CreateIsSteps(s: State, ttl: nat, id: nat, w: Spec.World, input: Spec.CreateTaskInput, env: Spec.Env)
    requires id !in s.writers && w.db == s.db && env.redisNow == s.now && Sorted(s.store)
    requires Spec.Create(w, input, env).1.Ok?
    ensures
      var es := [CommitCreate(id, Spec.NewTask(input), env.dbNow)] + InvalidateEvents(id, env);
      var t := Exec(s, ttl, es);
      && t.Some? && t.value.db == Spec.Create(w, input, env).0.db
      && t.value.store == Spec.CreateStore(w, s.store, input, env)
  {
    hide InsertTask, InvalidateEvents, Spec.Invalidate, Sorted;
    var e := CommitCreate(id, Spec.NewTask(input), env.dbNow);
    ExecOne(s, ttl, e);
    InvalidateIsSteps(s, ttl, [e], Apply(s, ttl, e), id, env);
  }

  lemma UpdateIsSteps(s: State, ttl: nat, id: nat, w: Spec.World, input: UpdateTaskInput, env: Spec.Env)
    requires id !in s.writers && w.db == s.db && env.redisNow == s.now && Sorted(s.store)
    requires Spec.UpdateWrites(w, input, env)
    ensures
      var es := [Snapshot(id, input.taskId)] + [CommitUpdate(id, input, env.dbNow)] + InvalidateEvents(id, env);
      var t := Exec(s, ttl, es);
      && t.Some? && t.value.db == Spec.Update(w, input, env).0.db
      && t.value.store == Spec.UpdateStore(w, s.store, input, env)
  {
    hide Diff, InvalidateEvents, Spec.Invalidate, Sorted;
    var a, b := Snapshot(id, input.taskId), CommitUpdate(id, input, env.dbNow);
    ExecOne(s, ttl, a);
    var p := Apply(s, ttl, a);
    ExecSnoc(s, ttl, [a], p, b);
    InvalidateIsSteps(s, ttl, [a] + [b], Apply(p, ttl, b), id, env);
  }
}
