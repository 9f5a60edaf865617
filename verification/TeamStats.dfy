/** The TeamStats query (internal/repository/analytics_repo.go): left joins fanning out, grouped, counted distinct. */
module TeamStats {
  import opened Wrappers
  import opened Domain
  import opened Relational
  import opened TaskStore
  import opened AuditRuns
  import AuditDiff
  import SerialRefinement
  import ServiceSpec

  /** The four tables, in any row order. */
  datatype Tables = Tables(teams: seq<Team>, members: seq<TeamMember>, tasks: seq<Task>, history: seq<TaskHistory>)

  /** Primary keys. */
  ghost predicate Keyed(d: Tables) {
    && (forall i, j | 0 <= i < j < |d.teams| :: d.teams[i].id != d.teams[j].id)
    && (forall i, j | 0 <= i < j < |d.members| ::
          (d.members[i].teamId, d.members[i].userId) != (d.members[j].teamId, d.members[j].userId))
    && (forall i, j | 0 <= i < j < |d.tasks| :: d.tasks[i].id != d.tasks[j].id)
  }

  datatype TeamStat = TeamStat(teamId: Int64, teamName: string, memberCount: nat, doneLast7Day: nat)

  // ---- the query ----

  type WithMember = (Team, Option<TeamMember>)
  type WithTask = (WithMember, Option<Task>)
  type JoinRow = (WithTask, Option<TaskHistory>)

  predicate OnMember(t: Team, m: TeamMember) {
    m.teamId == t.id
  }

  predicate OnTask(r: WithMember, tk: Task) {
    tk.teamId == r.0.id
  }

  /** Comparing with a NULL task id is not true. */
  predicate OnDone(r: WithTask, h: TaskHistory, cutoff: int) {
    r.1.Some? && h.taskId == r.1.value.id && DoneRow(h, cutoff)
  }

  function Members(d: Tables): seq<WithMember> {
    LeftJoin(d.teams, d.members, OnMember)
  }

  function Tasks(d: Tables): seq<WithTask> {
    LeftJoin(Members(d), d.tasks, OnTask)
  }

  function Joined(d: Tables, cutoff: int): seq<JoinRow> {
    LeftJoin(Tasks(d), d.history, (r, h) => OnDone(r, h, cutoff))
  }

  function TeamOf(r: JoinRow): Team {
    r.0.0.0
  }

  function MemberUser(r: JoinRow): Option<Int64> {
    var m := r.0.0.1;
    if m.Some? then Some(m.value.userId) else None
  }

  /** The task of the matched audit row; NULL where the join found none. */
  function DoneTask(r: JoinRow): Option<Int64> {
    if r.1.Some? then Some(r.1.value.taskId) else None
  }

  type Group = (Int64, string)

  function GroupOf(r: JoinRow): Group {
    (TeamOf(r).id, TeamOf(r).name)
  }

  function InsertGroup(g: Group, gs: seq<Group>): seq<Group> {
    if gs == [] || g.0 < gs[0].0 then [g] + gs else [gs[0]] + InsertGroup(g, gs[1..])
  }

  /** The groups by team identifier and name, in ascending order of the identifier. */
  function Groups(rows: seq<JoinRow>): seq<Group> {
    if rows == [] then []
    else
      var gs := Groups(rows[1..]);
      if GroupOf(rows[0]) in gs then gs else InsertGroup(GroupOf(rows[0]), gs)
  }

  function StatOf(rows: seq<JoinRow>, g: Group): TeamStat {
    var mine := Filter(rows, r => GroupOf(r) == g);
    TeamStat(g.0, g.1, |DistinctValues(Column(mine, MemberUser))|, |DistinctValues(Column(mine, DoneTask))|)
  }

  function StatsOf(rows: seq<JoinRow>, gs: seq<Group>): (r: seq<TeamStat>)
    ensures |r| == |gs| && forall i | 0 <= i < |gs| :: r[i] == StatOf(rows, gs[i])
  {
    if gs == [] then [] else [StatOf(rows, gs[0])] + StatsOf(rows, gs[1..])
  }

  function Query(d: Tables, cutoff: int): seq<TeamStat> {
    StatsOf(Joined(d, cutoff), Groups(Joined(d, cutoff)))
  }

  // ---- what it should say ----

  /** Users with a membership row of the team. */
  function UsersIn(members: seq<TeamMember>, team: Int64): set<Int64> {
    set m | m in members && m.teamId == team :: m.userId
  }

  function MemberSet(d: Tables, team: Int64): set<Int64> {
    UsersIn(d.members, team)
  }

  /** Tasks of the team with a qualifying audit row. */
  ghost function DoneSet(d: Tables, team: Int64, cutoff: int): set<Int64> {
    set t | t in d.tasks && t.teamId == team && CountedDone(d.history, t.id, cutoff) :: t.id
  }

  ghost function Meant(d: Tables, t: Team, cutoff: int): TeamStat {
    TeamStat(t.id, t.name, |MemberSet(d, t.id)|, |DoneSet(d, t.id, cutoff)|)
  }

  // ---- rows of the join ----

  ghost predicate IsJoinRow(d: Tables, cutoff: int, r: JoinRow) {
    && TeamOf(r) in d.teams
    && JoinsWith(TeamOf(r), r.0.0.1, d.members, OnMember)
    && JoinsWith(r.0.0, r.0.1, d.tasks, OnTask)
    && JoinsWith(r.0, r.1, d.history, (x: WithTask, h: TaskHistory) => OnDone(x, h, cutoff))
  }

  lemma JoinedRows(d: Tables, cutoff: int, r: JoinRow)
    ensures r in Joined(d, cutoff) <==> IsJoinRow(d, cutoff, r)
  {
    LeftJoinRows(Tasks(d), d.history, (x, h) => OnDone(x, h, cutoff), r.0, r.1);
    LeftJoinRows(Members(d), d.tasks, OnTask, r.0.0, r.0.1);
    LeftJoinRows(d.teams, d.members, OnMember, r.0.0.0, r.0.0.1);
    assert r == (r.0, r.1) && r.0 == (r.0.0, r.0.1) && r.0.0 == (r.0.0.0, r.0.0.1);
  }

  /** Any row of an earlier join stage reaches the full join. */
  lemma Completes(d: Tables, cutoff: int, x: WithMember) returns (r: JoinRow)
    requires x in Members(d)
    ensures r in Joined(d, cutoff) && r.0.0 == x
  {
    var tk := LeftJoinTotal(Members(d), d.tasks, OnTask, x);
    var h := LeftJoinTotal(Tasks(d), d.history, (y, h) => OnDone(y, h, cutoff), (x, tk));
    r := ((x, tk), h);
  }

  // ---- groups ----

  ghost predicate Ascending(gs: seq<Group>) {
    forall i, j | 0 <= i < j < |gs| :: gs[i].0 < gs[j].0
  }

  lemma {:induction false} InsertGroupSorts(g: Group, gs: seq<Group>)
    requires Ascending(gs) && forall x | x in gs :: x.0 != g.0
    ensures Ascending(InsertGroup(g, gs))
    ensures forall x :: x in InsertGroup(g, gs) <==> x == g || x in gs
  {
    if gs != [] && g.0 >= gs[0].0 {
      InsertGroupSorts(g, gs[1..]);
      var r := InsertGroup(g, gs[1..]);
      assert InsertGroup(g, gs) == [gs[0]] + r;
      assert forall x | x in r :: gs[0].0 < x.0;
    }
  }

  lemma {:induction false} GroupsOfRows(rows: seq<JoinRow>)
    requires forall a, b | a in rows && b in rows && TeamOf(a).id == TeamOf(b).id :: TeamOf(a).name == TeamOf(b).name
    ensures Ascending(Groups(rows))
    ensures forall g :: g in Groups(rows) <==> exists r :: r in rows && GroupOf(r) == g
  {
    if rows != [] {
      GroupsOfRows(rows[1..]);
      var g, gs := GroupOf(rows[0]), Groups(rows[1..]);
      assert forall r :: r in rows <==> r == rows[0] || r in rows[1..];
      if g !in gs {
        forall x | x in gs ensures x.0 != g.0 {
          var r :| r in rows[1..] && GroupOf(r) == x;
          assert rows[0] in rows;
        }
        InsertGroupSorts(g, gs);
      }
      forall x ensures x in Groups(rows) <==> exists r :: r in rows && GroupOf(r) == x {
        assert x == g ==> rows[0] in rows;
      }
    }
  }

  // ---- counts ----

  lemma MembersCounted(d: Tables, cutoff: int, t: Team)
    requires Keyed(d) && t in d.teams
    ensures var mine := Filter(Joined(d, cutoff), r => GroupOf(r) == (t.id, t.name));
            DistinctValues(Column(mine, MemberUser)) == MemberSet(d, t.id)
  {
    hide Joined, IsJoinRow;
    var mine := Filter(Joined(d, cutoff), r => GroupOf(r) == (t.id, t.name));
    var col := Column(mine, MemberUser);
    forall u ensures u in DistinctValues(col) <==> u in MemberSet(d, t.id) {
      if u in DistinctValues(col) {
        var r :| r in mine && MemberUser(r) == Some(u);
        MemberRowCounts(d, cutoff, t, r);
      }
      if u in MemberSet(d, t.id) {
        var m :| m in d.members && m.teamId == t.id && m.userId == u;
        var r := MemberRowExists(d, cutoff, t, m);
        assert r in mine && MemberUser(r) == Some(u);
      }
    }
  }

  lemma MemberRowCounts(d: Tables, cutoff: int, t: Team, r: JoinRow)
    requires r in Joined(d, cutoff) && GroupOf(r) == (t.id, t.name) && r.0.0.1.Some?
    ensures MemberUser(r).value in MemberSet(d, t.id)
  {
    JoinedRows(d, cutoff, r);
    assert r.0.0.1.value in d.members;
  }

  lemma MemberRowExists(d: Tables, cutoff: int, t: Team, m: TeamMember) returns (r: JoinRow)
    requires t in d.teams && m in d.members && m.teamId == t.id
    ensures r in Joined(d, cutoff) && GroupOf(r) == (t.id, t.name) && MemberUser(r) == Some(m.userId)
  {
    LeftJoinRows(d.teams, d.members, OnMember, t, Some(m));
    r := Completes(d, cutoff, (t, Some(m)));
  }

  lemma DoneCounted(d: Tables, cutoff: int, t: Team)
    requires Keyed(d) && t in d.teams
    ensures var mine := Filter(Joined(d, cutoff), r => GroupOf(r) == (t.id, t.name));
            DistinctValues(Column(mine, DoneTask)) == DoneSet(d, t.id, cutoff)
  {
    hide Joined, IsJoinRow;
    var mine := Filter(Joined(d, cutoff), r => GroupOf(r) == (t.id, t.name));
    var col := Column(mine, DoneTask);
    forall id ensures id in DistinctValues(col) <==> id in DoneSet(d, t.id, cutoff) {
      if id in DistinctValues(col) {
        var r :| r in mine && DoneTask(r) == Some(id);
        DoneRowCounts(d, cutoff, t, r);
      }
      if id in DoneSet(d, t.id, cutoff) {
        var tk :| tk in d.tasks && tk.teamId == t.id && CountedDone(d.history, tk.id, cutoff) && tk.id == id;
        var r := DoneRowExists(d, cutoff, t, tk);
        assert r in mine && DoneTask(r) == Some(id);
      }
    }
  }

  lemma DoneRowCounts(d: Tables, cutoff: int, t: Team, r: JoinRow)
    requires r in Joined(d, cutoff) && GroupOf(r) == (t.id, t.name) && r.1.Some?
    ensures DoneTask(r).value in DoneSet(d, t.id, cutoff)
  {
    JoinedRows(d, cutoff, r);
    var tk, h := r.0.1.value, r.1.value;
    assert h in d.history && h.taskId == tk.id && DoneRow(h, cutoff);
    assert CountedDone(d.history, tk.id, cutoff);
  }

  lemma DoneRowExists(d: Tables, cutoff: int, t: Team, tk: Task) returns (r: JoinRow)
    requires t in d.teams && tk in d.tasks && tk.teamId == t.id && CountedDone(d.history, tk.id, cutoff)
    ensures r in Joined(d, cutoff) && GroupOf(r) == (t.id, t.name) && DoneTask(r) == Some(tk.id)
  {
    var m := LeftJoinTotal(d.teams, d.members, OnMember, t);
    LeftJoinRows(Members(d), d.tasks, OnTask, (t, m), Some(tk));
    var h :| h in d.history && h.taskId == tk.id && DoneRow(h, cutoff);
    LeftJoinRows(Tasks(d), d.history, (x, g) => OnDone(x, g, cutoff), ((t, m), Some(tk)), Some(h));
    r := (((t, m), Some(tk)), Some(h));
  }

  // ---- main result ----

  lemma TeamNamesDetermined(d: Tables, cutoff: int)
    requires Keyed(d)
    ensures forall a, b | a in Joined(d, cutoff) && b in Joined(d, cutoff) && TeamOf(a).id == TeamOf(b).id :: TeamOf(a) == TeamOf(b)
  {
    forall a, b | a in Joined(d, cutoff) && b in Joined(d, cutoff) && TeamOf(a).id == TeamOf(b).id ensures TeamOf(a) == TeamOf(b) {
      JoinedRows(d, cutoff, a);
      JoinedRows(d, cutoff, b);
      var i :| 0 <= i < |d.teams| && d.teams[i] == TeamOf(a);
      var j :| 0 <= j < |d.teams| && d.teams[j] == TeamOf(b);
    }
  }

  /**
   * The fan-out is harmless: whatever the multiplicities of members, tasks and audit rows, there is exactly one row
   * per team, empty teams included, in ascending order, with the number of members and of done tasks.
   */
  lemma QueryMeans(d: Tables, cutoff: int)
    requires Keyed(d)
    ensures forall i, j | 0 <= i < j < |Query(d, cutoff)| :: Query(d, cutoff)[i].teamId < Query(d, cutoff)[j].teamId
    ensures forall s :: s in Query(d, cutoff) <==> exists t :: t in d.teams && s == Meant(d, t, cutoff)
  {
    var rows := Joined(d, cutoff);
    TeamNamesDetermined(d, cutoff);
    GroupsOfRows(rows);
    var gs := Groups(rows);
    forall t | t in d.teams ensures (t.id, t.name) in gs && StatOf(rows, (t.id, t.name)) == Meant(d, t, cutoff) {
      var m := LeftJoinTotal(d.teams, d.members, OnMember, t);
      var r := Completes(d, cutoff, (t, m));
      assert GroupOf(r) == (t.id, t.name);
      MembersCounted(d, cutoff, t);
      DoneCounted(d, cutoff, t);
    }
    forall g | g in gs ensures exists t :: t in d.teams && g == (t.id, t.name) {
      var r :| r in rows && GroupOf(r) == g;
      JoinedRows(d, cutoff, r);
    }
    StatsMembers(rows, gs, d, cutoff);
  }

  lemma StatsMembers(rows: seq<JoinRow>, gs: seq<Group>, d: Tables, cutoff: int)
    requires forall t | t in d.teams :: (t.id, t.name) in gs && StatOf(rows, (t.id, t.name)) == Meant(d, t, cutoff)
    requires forall g | g in gs :: exists t :: t in d.teams && g == (t.id, t.name)
    ensures forall s :: s in StatsOf(rows, gs) <==> exists t :: t in d.teams && s == Meant(d, t, cutoff)
  {
    var ss := StatsOf(rows, gs);
    forall s ensures s in ss <==> exists t :: t in d.teams && s == Meant(d, t, cutoff) {
      if s in ss {
        var i :| 0 <= i < |ss| && ss[i] == s;
        assert gs[i] in gs;
        var t :| t in d.teams && gs[i] == (t.id, t.name);
        assert s == Meant(d, t, cutoff);
      }
      if exists t :: t in d.teams && s == Meant(d, t, cutoff) {
        var t :| t in d.teams && s == Meant(d, t, cutoff);
        var i :| 0 <= i < |gs| && gs[i] == (t.id, t.name);
        assert ss[i] == s;
      }
    }
  }

  /** By the primary key, counting users is counting membership rows. */
  function MemberRows(members: seq<TeamMember>, team: Int64): nat {
    if members == [] then 0 else (if members[0].teamId == team then 1 else 0) + MemberRows(members[1..], team)
  }

  lemma UsersInStep(members: seq<TeamMember>, team: Int64)
    requires members != []
    ensures UsersIn(members, team) ==
            UsersIn(members[1..], team) + (if members[0].teamId == team then {members[0].userId} else {})
  {
  }

  lemma {:induction false} UsersCounted(members: seq<TeamMember>, team: Int64)
    requires forall i, j | 0 <= i < j < |members| :: (members[i].teamId, members[i].userId) != (members[j].teamId, members[j].userId)
    ensures |UsersIn(members, team)| == MemberRows(members, team)
  {
    if members != [] {
      var m, rest := members[0], members[1..];
      UsersCounted(rest, team);
      UsersInStep(members, team);
      if m.teamId == team {
        forall x | x in rest && x.teamId == team ensures x.userId != m.userId {
          var i :| 0 <= i < |rest| && rest[i] == x;
          assert members[i + 1] == x;
        }
      }
    }
  }

  /** member_count is the number of membership rows of the team. */
  lemma MemberCountIsRows(d: Tables, team: Int64)
    requires Keyed(d)
    ensures |MemberSet(d, team)| == MemberRows(d.members, team)
  {
    assert MemberSet(d, team) == UsersIn(d.members, team);
    UsersCounted(d.members, team);
  }

  // ---- agreement with the service ----

  /** d holds the tables of a world, rows in any order. */
  ghost predicate Holds(d: Tables, w: ServiceSpec.World) {
    && Keyed(d)
    && (forall t :: t in d.tasks <==> t.id in w.db.tasks && w.db.tasks[t.id] == t)
    && (forall t :: t in d.teams <==> t.id in w.roster.teams && w.roster.teams[t.id] == t)
    && (forall h :: h in d.history <==> h in w.db.history)
  }

  /**
   * The audit log counted the task as done since cutoff when the run began, or some update of the run, at or after
   * cutoff, moved it from another status to done.
   */
  ghost predicate WasFinished(w: ServiceSpec.World, ops: seq<SerialRefinement.Op>, id: Int64, cutoff: int) {
    CountedDone(w.db.history, id, cutoff) ||
    exists i :: 0 <= i < |ops| && MovesToDone(SerialRefinement.WorldBefore(w, ops, i), ops[i], id) && ops[i].env.dbNow >= cutoff
  }

  /**
   * After any run, a team's done_last_7_days is the number of its tasks that some update inside the window moved from
   * another status to done, in the run or before it.
   */
  lemma DoneStatisticsAgree(w: ServiceSpec.World, ops: seq<SerialRefinement.Op>, d: Tables, t: Team, cutoff: int)
    requires SerialRefinement.WorldOk(w)
    requires Holds(d, SerialRefinement.Run(w, ops).0) && t in d.teams
    ensures var after := SerialRefinement.Run(w, ops).0.db.tasks;
            exists s :: s in Query(d, cutoff) && s.teamId == t.id
              && s.doneLast7Day == |set id | id in after && after[id].teamId == t.id && WasFinished(w, ops, id, cutoff)|
  {
    var after := SerialRefinement.Run(w, ops).0;
    DoneSetAgrees(w, ops, d, t, cutoff);
    QueryMeans(d, cutoff);
    var s := Meant(d, t, cutoff);
    assert s in Query(d, cutoff);
  }

  lemma DoneSetAgrees(w: ServiceSpec.World, ops: seq<SerialRefinement.Op>, d: Tables, t: Team, cutoff: int)
    requires SerialRefinement.WorldOk(w)
    requires Holds(d, SerialRefinement.Run(w, ops).0) && t in d.teams
    ensures var after := SerialRefinement.Run(w, ops).0.db.tasks;
            DoneSet(d, t.id, cutoff) == set id | id in after && after[id].teamId == t.id && WasFinished(w, ops, id, cutoff)
  {
    var after := SerialRefinement.Run(w, ops).0;
    assert SerialRefinement.WorldOk(after) by {
      assert ops[..0] == [];
      RunGrows(w, ops, 0);
    }
    forall id ensures CountedDone(d.history, id, cutoff) <==> WasFinished(w, ops, id, cutoff) {
      RunCountsDone(w, ops, id, cutoff);
      SameHistoryCounts(d.history, after.db.history, id, cutoff);
    }
    DoneSetOf(d, after, t.id, cutoff);
  }

  lemma SameHistoryCounts(a: seq<TaskHistory>, b: seq<TaskHistory>, id: Int64, cutoff: int)
    requires forall h :: h in a <==> h in b
    ensures CountedDone(a, id, cutoff) <==> CountedDone(b, id, cutoff)
  {
  }

  lemma DoneSetOf(d: Tables, w: ServiceSpec.World, team: Int64, cutoff: int)
    requires WellFormed(w.db) && forall t :: t in d.tasks <==> t.id in w.db.tasks && w.db.tasks[t.id] == t
    ensures DoneSet(d, team, cutoff) ==
            set id | id in w.db.tasks && w.db.tasks[id].teamId == team && CountedDone(d.history, id, cutoff)
  {
  }
}
