/** The TopCreators query (internal/repository/analytics_repo.go): group, count, number within the team, keep three. */
module TopCreators {
  import opened Wrappers
  import opened Domain
  import opened Relational

  datatype User = User(id: Int64, name: string)

  datatype Tables = Tables(tasks: seq<Task>, teams: seq<Team>, users: seq<User>)

  /** Primary keys of the looked-up tables, and the foreign keys of tasks into them. */
  ghost predicate Keyed(d: Tables) {
    && (forall i, j | 0 <= i < j < |d.teams| :: d.teams[i].id != d.teams[j].id)
    && (forall i, j | 0 <= i < j < |d.users| :: d.users[i].id != d.users[j].id)
    && (forall t | t in d.tasks :: (exists x :: x in d.teams && x.id == t.teamId) && (exists u :: u in d.users && u.id == t.createdBy))
  }

  const TOP := 3

  // ---- the query ----

  datatype JoinRow = JoinRow(task: Task, team: Team, user: User)

  /** What rows are grouped by: team and creator, each with its name. */
  datatype Key = Key(teamId: Int64, teamName: string, userId: Int64, userName: string)

  datatype Group = Group(key: Key, count: nat)

  datatype Ranked = Ranked(key: Key, count: nat, rank: nat)

  /** JOIN of one task with every team and user row that matches. */
  function JoinUsers(t: Task, team: Team, users: seq<User>): seq<JoinRow> {
    if users == [] then []
    else (if users[0].id == t.createdBy then [JoinRow(t, team, users[0])] else []) + JoinUsers(t, team, users[1..])
  }

  function JoinTeams(t: Task, teams: seq<Team>, users: seq<User>): seq<JoinRow> {
    if teams == [] then []
    else (if teams[0].id == t.teamId then JoinUsers(t, teams[0], users) else []) + JoinTeams(t, teams[1..], users)
  }

  /** Tasks created since cutoff, each joined with its team and its creator. */
  function Joined(tasks: seq<Task>, d: Tables, cutoff: int): seq<JoinRow> {
    if tasks == [] then []
    else (if tasks[0].createdAt >= cutoff then JoinTeams(tasks[0], d.teams, d.users) else []) + Joined(tasks[1..], d, cutoff)
  }

  function KeyOf(r: JoinRow): Key {
    Key(r.task.teamId, r.team.name, r.task.createdBy, r.user.name)
  }

  /** How many rows the group has. */
  function CountOf(rows: seq<JoinRow>, k: Key): nat {
    if rows == [] then 0 else (if KeyOf(rows[0]) == k then 1 else 0) + CountOf(rows[1..], k)
  }

  function Keys(rows: seq<JoinRow>): seq<Key> {
    if rows == [] then []
    else
      var ks := Keys(rows[1..]);
      if KeyOf(rows[0]) in ks then ks else [KeyOf(rows[0])] + ks
  }

  /** By team, and within a team by falling count, ties by rising user identifier. */
  predicate Before(a: Group, b: Group) {
    a.key.teamId < b.key.teamId || (a.key.teamId == b.key.teamId && Ahead(a.count, a.key.userId, b.count, b.key.userId))
  }

  predicate Ahead(countA: nat, userA: Int64, countB: nat, userB: Int64) {
    countA > countB || (countA == countB && userA < userB)
  }

  function Insert(g: Group, gs: seq<Group>): seq<Group> {
    if gs == [] || Before(g, gs[0]) then [g] + gs else [gs[0]] + Insert(g, gs[1..])
  }

  /** The groups of the given keys, partition by partition, in window order. */
  function Arrange(rows: seq<JoinRow>, ks: seq<Key>): seq<Group> {
    if ks == [] then [] else Insert(Group(ks[0], CountOf(rows, ks[0])), Arrange(rows, ks[1..]))
  }

  /** Row numbers: from 1 in each team, then counting up. */
  function Number(gs: seq<Group>): (r: seq<Ranked>)
    ensures |r| == |gs| && forall i | 0 <= i < |gs| :: r[i].key == gs[i].key && r[i].count == gs[i].count
  {
    if gs == [] then []
    else
      var n := |gs| - 1;
      var init := Number(gs[..n]);
      var rank := if n > 0 && gs[n - 1].key.teamId == gs[n].key.teamId then init[n - 1].rank + 1 else 1;
      init + [Ranked(gs[n].key, gs[n].count, rank)]
  }

  /** The rows numbered up to three; they already come by team and number. */
  function Keep(rs: seq<Ranked>): seq<Ranked> {
    if rs == [] then [] else (if rs[0].rank <= TOP then [rs[0]] else []) + Keep(rs[1..])
  }

  function Groups(d: Tables, cutoff: int): seq<Group> {
    var rows := Joined(d.tasks, d, cutoff);
    Arrange(rows, Keys(rows))
  }

  function Query(d: Tables, cutoff: int): seq<Ranked> {
    Keep(Number(Groups(d, cutoff)))
  }

  // ---- what it should say ----

  /** Tasks the user created in the team since cutoff. */
  function Created(tasks: seq<Task>, team: Int64, user: Int64, cutoff: int): nat {
    if tasks == [] then 0
    else (if tasks[0].createdAt >= cutoff && tasks[0].teamId == team && tasks[0].createdBy == user then 1 else 0)
         + Created(tasks[1..], team, user, cutoff)
  }

  function Creators(tasks: seq<Task>, team: Int64, cutoff: int): set<Int64> {
    set t | t in tasks && t.createdAt >= cutoff && t.teamId == team :: t.createdBy
  }

  /** The team's creators strictly ahead of the user: more tasks, or as many and a smaller identifier. */
  function Rivals(tasks: seq<Task>, team: Int64, user: Int64, cutoff: int): set<Int64> {
    set v | v in Creators(tasks, team, cutoff)
            && (Created(tasks, team, v, cutoff) > Created(tasks, team, user, cutoff)
                || (Created(tasks, team, v, cutoff) == Created(tasks, team, user, cutoff) && v < user))
  }

  /** The row a creator with fewer than three rivals should have. */
  ghost predicate IsTop(d: Tables, cutoff: int, r: Ranked) {
    var rivals := Rivals(d.tasks, r.key.teamId, r.key.userId, cutoff);
    && Names(d, r.key) && r.key.userId in Creators(d.tasks, r.key.teamId, cutoff)
    && r.count == Created(d.tasks, r.key.teamId, r.key.userId, cutoff)
    && r.rank == 1 + |rivals| && |rivals| < 3
  }

  // ---- the join ----

  lemma {:induction false} JoinUsersOne(t: Task, team: Team, users: seq<User>, u: User)
    requires (forall i, j | 0 <= i < j < |users| :: users[i].id != users[j].id) && u in users && u.id == t.createdBy
    ensures JoinUsers(t, team, users) == [JoinRow(t, team, u)]
  {
    if users[0].id == t.createdBy {
      JoinUsersNone(t, team, users[1..]);
    } else {
      JoinUsersOne(t, team, users[1..], u);
    }
  }

  lemma {:induction false} JoinUsersNone(t: Task, team: Team, users: seq<User>)
    requires forall i | 0 <= i < |users| :: users[i].id != t.createdBy
    ensures JoinUsers(t, team, users) == []
  {
    if users != [] { JoinUsersNone(t, team, users[1..]); }
  }

  lemma {:induction false} JoinTeamsNone(t: Task, teams: seq<Team>, users: seq<User>)
    requires forall i | 0 <= i < |teams| :: teams[i].id != t.teamId
    ensures JoinTeams(t, teams, users) == []
  {
    if teams != [] { JoinTeamsNone(t, teams[1..], users); }
  }

  /** By the keys, a task joins exactly one team and one user. */
  lemma {:induction false} JoinTeamsOne(t: Task, teams: seq<Team>, users: seq<User>, x: Team, u: User)
    requires forall i, j | 0 <= i < j < |teams| :: teams[i].id != teams[j].id
    requires forall i, j | 0 <= i < j < |users| :: users[i].id != users[j].id
    requires x in teams && x.id == t.teamId && u in users && u.id == t.createdBy
    ensures JoinTeams(t, teams, users) == [JoinRow(t, x, u)]
  {
    if teams[0].id == t.teamId {
      JoinTeamsNone(t, teams[1..], users);
      JoinUsersOne(t, x, users, u);
    } else {
      JoinTeamsOne(t, teams[1..], users, x, u);
    }
  }

  /** k names a team and a user as the tables do. */
  ghost predicate Names(d: Tables, k: Key) {
    (exists x :: x in d.teams && x.id == k.teamId && x.name == k.teamName)
    && (exists u :: u in d.users && u.id == k.userId && u.name == k.userName)
  }

  /** Grouping by the extra name columns splits no group. */
  lemma NamesDetermined(d: Tables, a: Key, b: Key)
    requires Keyed(d) && Names(d, a) && Names(d, b) && a.teamId == b.teamId && a.userId == b.userId
    ensures a == b
  {
  }

  /** The key under which a task is grouped. */
  lemma TaskKey(d: Tables, t: Task) returns (k: Key)
    requires Keyed(d) && t in d.tasks
    ensures Names(d, k) && k.teamId == t.teamId && k.userId == t.createdBy
    ensures |JoinTeams(t, d.teams, d.users)| == 1 && KeyOf(JoinTeams(t, d.teams, d.users)[0]) == k
  {
    var x :| x in d.teams && x.id == t.teamId;
    var u :| u in d.users && u.id == t.createdBy;
    JoinTeamsOne(t, d.teams, d.users, x, u);
    k := Key(t.teamId, x.name, t.createdBy, u.name);
  }

  lemma {:induction false} CountAppend(a: seq<JoinRow>, b: seq<JoinRow>, k: Key)
    ensures CountOf(a + b, k) == CountOf(a, k) + CountOf(b, k)
  {
    if a == [] {
      assert a + b == b;
    } else {
      assert (a + b)[1..] == a[1..] + b;
      CountAppend(a[1..], b, k);
    }
  }

  /** The size of a group is the number of tasks of that user in that team and window. */
  lemma {:induction false} CountExact(tasks: seq<Task>, d: Tables, cutoff: int, k: Key)
    requires Keyed(d) && Names(d, k) && forall t | t in tasks :: t in d.tasks
    ensures CountOf(Joined(tasks, d, cutoff), k) == Created(tasks, k.teamId, k.userId, cutoff)
  {
    if tasks != [] {
      var t, rest := tasks[0], tasks[1..];
      CountExact(rest, d, cutoff, k);
      var one := if t.createdAt >= cutoff then JoinTeams(t, d.teams, d.users) else [];
      CountAppend(one, Joined(rest, d, cutoff), k);
      var own := TaskKey(d, t);
      if t.teamId == k.teamId && t.createdBy == k.userId { NamesDetermined(d, own, k); }
      assert CountOf(one, k) == if t.createdAt >= cutoff && own == k then 1 else 0;
    }
  }

  lemma {:induction false} KeysOf(rows: seq<JoinRow>)
    ensures forall k :: k in Keys(rows) <==> CountOf(rows, k) > 0
    ensures forall i, j | 0 <= i < j < |Keys(rows)| :: Keys(rows)[i] != Keys(rows)[j]
  {
    if rows != [] { KeysOf(rows[1..]); }
  }

  lemma {:induction false} JoinedNames(tasks: seq<Task>, d: Tables, cutoff: int)
    requires Keyed(d) && forall t | t in tasks :: t in d.tasks
    ensures forall r | r in Joined(tasks, d, cutoff) :: Names(d, KeyOf(r))
  {
    if tasks != [] {
      JoinedNames(tasks[1..], d, cutoff);
      var k := TaskKey(d, tasks[0]);
    }
  }

  lemma {:induction false} CountedRow(rows: seq<JoinRow>, k: Key)
    requires CountOf(rows, k) > 0
    ensures exists r :: r in rows && KeyOf(r) == k
  {
    if KeyOf(rows[0]) == k {
      assert rows[0] in rows;
    } else {
      CountedRow(rows[1..], k);
      var r :| r in rows[1..] && KeyOf(r) == k;
      assert r in rows;
    }
  }

  // ---- the window ----

  ghost predicate Ordered(gs: seq<Group>) {
    forall i, j | 0 <= i < j < |gs| :: Before(gs[i], gs[j])
  }

  ghost predicate OnePerUser(gs: seq<Group>) {
    forall a, b | 0 <= a < b < |gs| :: gs[a].key.teamId != gs[b].key.teamId || gs[a].key.userId != gs[b].key.userId
  }

  /** No two groups are about the same user of the same team. */
  ghost predicate Apart(g: Group, gs: seq<Group>) {
    forall x | x in gs :: x.key.teamId != g.key.teamId || x.key.userId != g.key.userId
  }

  lemma {:induction false} InsertOrders(g: Group, gs: seq<Group>)
    requires Ordered(gs) && Apart(g, gs)
    ensures Ordered(Insert(g, gs))
    ensures forall x :: x in Insert(g, gs) <==> x == g || x in gs
  {
    if gs != [] && !Before(g, gs[0]) {
      InsertOrders(g, gs[1..]);
      var r := Insert(g, gs[1..]);
      assert Before(gs[0], g);
      assert forall x | x in r :: Before(gs[0], x);
    }
  }

  lemma {:induction false} ArrangeOrders(rows: seq<JoinRow>, ks: seq<Key>)
    requires forall i, j | 0 <= i < j < |ks| :: ks[i].teamId != ks[j].teamId || ks[i].userId != ks[j].userId
    ensures Ordered(Arrange(rows, ks))
    ensures forall g :: g in Arrange(rows, ks) <==> g.key in ks && g.count == CountOf(rows, g.key)
  {
    if ks != [] {
      ArrangeOrders(rows, ks[1..]);
      var g, gs := Group(ks[0], CountOf(rows, ks[0])), Arrange(rows, ks[1..]);
      forall x | x in gs ensures x.key.teamId != g.key.teamId || x.key.userId != g.key.userId {
        var j :| 0 <= j < |ks[1..]| && ks[1..][j] == x.key;
        assert ks[j + 1] == x.key;
      }
      InsertOrders(g, gs);
      assert forall k :: k in ks <==> k == ks[0] || k in ks[1..];
    }
  }

  /** Users of the groups of the same team that come before position i. */
  function UsersBefore(gs: seq<Group>, i: nat): set<Int64>
    requires i < |gs|
  {
    set j | 0 <= j < i && gs[j].key.teamId == gs[i].key.teamId :: gs[j].key.userId
  }

  lemma PrefixBefore(gs: seq<Group>, n: nat, i: nat)
    requires i < n <= |gs|
    ensures UsersBefore(gs[..n], i) == UsersBefore(gs, i)
  {
  }

  /** A group whose predecessor belongs to another team opens its partition. */
  lemma FirstOfTeam(gs: seq<Group>, n: nat)
    requires Ordered(gs) && n < |gs| && (n > 0 ==> gs[n - 1].key.teamId != gs[n].key.teamId)
    ensures UsersBefore(gs, n) == {}
  {
  }

  /** The row number is one more than the number of users placed before. */
  lemma {:induction false} NumberCounts(gs: seq<Group>, i: nat)
    requires Ordered(gs) && i < |gs| && OnePerUser(gs)
    ensures Number(gs)[i].rank == 1 + |UsersBefore(gs, i)|
    decreases |gs|
  {
    hide UsersBefore;
    var n := |gs| - 1;
    if i < n {
      PrefixBefore(gs, n, i);
      NumberCounts(gs[..n], i);
    } else if n > 0 && gs[n - 1].key.teamId == gs[n].key.teamId {
      PrefixBefore(gs, n, n - 1);
      NumberCounts(gs[..n], n - 1);
      UsersBeforeStep(gs, n);
    } else {
      FirstOfTeam(gs, n);
    }
  }

  lemma UsersBeforeStep(gs: seq<Group>, n: nat)
    requires 0 < n < |gs| && gs[n - 1].key.teamId == gs[n].key.teamId
    requires OnePerUser(gs)
    ensures |UsersBefore(gs, n)| == |UsersBefore(gs, n - 1)| + 1
  {
    var a, u := UsersBefore(gs, n - 1), gs[n - 1].key.userId;
    assert u !in a;
    assert UsersBefore(gs, n) == a + {u};
  }

  // ---- main result ----

  /** What is known of the groups: named as the tables say, exact counts, one per creator. */
  ghost predicate GroupsOk(d: Tables, cutoff: int, gs: seq<Group>) {
    && Ordered(gs)
    && (forall g :: g in gs <==> Names(d, g.key) && g.count == Created(d.tasks, g.key.teamId, g.key.userId, cutoff) && g.count > 0)
    && OnePerUser(gs)
  }

  lemma GroupsMean(d: Tables, cutoff: int)
    requires Keyed(d)
    ensures GroupsOk(d, cutoff, Groups(d, cutoff))
    ensures forall i, j | 0 <= i < j < |Groups(d, cutoff)| ::
              var a, b := Groups(d, cutoff)[i], Groups(d, cutoff)[j];
              a.key.teamId < b.key.teamId || (a.key.teamId == b.key.teamId
              && (a.count > b.count || (a.count == b.count && a.key.userId < b.key.userId)))
  {
    var rows := Joined(d.tasks, d, cutoff);
    var ks := Keys(rows);
    KeysOf(rows);
    JoinedNames(d.tasks, d, cutoff);
    forall k | k in ks ensures Names(d, k) {
      CountedRow(rows, k);
    }
    forall k | Names(d, k) ensures CountOf(rows, k) == Created(d.tasks, k.teamId, k.userId, cutoff) {
      CountExact(d.tasks, d, cutoff, k);
    }
    forall i, j | 0 <= i < j < |ks| ensures ks[i].teamId != ks[j].teamId || ks[i].userId != ks[j].userId {
      if ks[i].teamId == ks[j].teamId && ks[i].userId == ks[j].userId { NamesDetermined(d, ks[i], ks[j]); }
    }
    ArrangeOrders(rows, ks);
    OrderedApart(Groups(d, cutoff), d);
  }

  lemma OrderedApart(gs: seq<Group>, d: Tables)
    requires Ordered(gs) && Keyed(d) && forall g | g in gs :: Names(d, g.key)
    requires forall a, b | a in gs && b in gs && a.key == b.key :: a == b
    ensures OnePerUser(gs)
  {
  }

  lemma {:induction false} CreatorsCounted(tasks: seq<Task>, team: Int64, user: Int64, cutoff: int)
    ensures user in Creators(tasks, team, cutoff) <==> Created(tasks, team, user, cutoff) > 0
  {
    if tasks != [] {
      CreatorsCounted(tasks[1..], team, user, cutoff);
      if user in Creators(tasks, team, cutoff) {
        var t :| t in tasks && t.createdAt >= cutoff && t.teamId == team && t.createdBy == user;
        assert t == tasks[0] || t in tasks[1..];
      }
      if user in Creators(tasks[1..], team, cutoff) {
        var t :| t in tasks[1..] && t.createdAt >= cutoff && t.teamId == team && t.createdBy == user;
        assert t in tasks;
      }
      assert tasks[0] in tasks;
    }
  }

  /** Every creator of the window has a group. */
  lemma CreatorHasGroup(d: Tables, cutoff: int, team: Int64, user: Int64) returns (g: Group)
    requires Keyed(d) && user in Creators(d.tasks, team, cutoff)
    ensures g in Groups(d, cutoff) && g.key.teamId == team && g.key.userId == user
  {
    var t :| t in d.tasks && t.createdAt >= cutoff && t.teamId == team && t.createdBy == user;
    var k := TaskKey(d, t);
    CreatorsCounted(d.tasks, team, user, cutoff);
    GroupsMean(d, cutoff);
    g := Group(k, Created(d.tasks, team, user, cutoff));
  }

  lemma BeforeIsRival(d: Tables, cutoff: int, gs: seq<Group>, i: nat, v: Int64)
    requires GroupsOk(d, cutoff, gs) && i < |gs| && v in UsersBefore(gs, i)
    ensures v in Rivals(d.tasks, gs[i].key.teamId, gs[i].key.userId, cutoff)
  {
    hide Created, Creators, Names;
    var team := gs[i].key.teamId;
    CreatorsCounted(d.tasks, team, v, cutoff);
    var j :| 0 <= j < i && gs[j].key.teamId == team && gs[j].key.userId == v;
    assert gs[i] in gs && gs[j] in gs && Before(gs[j], gs[i]);
  }

  lemma RivalIsBefore(d: Tables, cutoff: int, i: nat, v: Int64)
    requires Keyed(d) && i < |Groups(d, cutoff)|
    requires var g := Groups(d, cutoff)[i]; v in Rivals(d.tasks, g.key.teamId, g.key.userId, cutoff)
    ensures v in UsersBefore(Groups(d, cutoff), i)
  {
    hide Groups, Created, Creators, Names, Keyed;
    GroupsMean(d, cutoff);
    var gs := Groups(d, cutoff);
    var g := gs[i];
    assert g in gs;
    var x := CreatorHasGroup(d, cutoff, g.key.teamId, v);
    var j :| 0 <= j < |gs| && gs[j] == x;
    assert j > i ==> Before(g, x);
  }

  /** The users placed before a group are exactly its rivals. */
  lemma BeforeAreRivals(d: Tables, cutoff: int, i: nat)
    requires Keyed(d) && i < |Groups(d, cutoff)|
    ensures var g := Groups(d, cutoff)[i];
            UsersBefore(Groups(d, cutoff), i) == Rivals(d.tasks, g.key.teamId, g.key.userId, cutoff)
  {
    hide Groups, UsersBefore, Rivals, Keyed, GroupsOk;
    var gs := Groups(d, cutoff);
    GroupsMean(d, cutoff);
    forall v ensures v in UsersBefore(gs, i) <==> v in Rivals(d.tasks, gs[i].key.teamId, gs[i].key.userId, cutoff) {
      if v in UsersBefore(gs, i) { BeforeIsRival(d, cutoff, gs, i, v); }
      if v in Rivals(d.tasks, gs[i].key.teamId, gs[i].key.userId, cutoff) { RivalIsBefore(d, cutoff, i, v); }
    }
  }

  lemma {:induction false} KeepMembers(rs: seq<Ranked>)
    ensures forall r :: r in Keep(rs) <==> r in rs && r.rank <= TOP
  {
    if rs != [] {
      KeepMembers(rs[1..]);
      assert forall r :: r in rs <==> r == rs[0] || r in rs[1..];
    }
  }

  /** By team, then by rank. */
  ghost predicate InOrder(rs: seq<Ranked>) {
    forall i, j | 0 <= i < j < |rs| ::
      rs[i].key.teamId < rs[j].key.teamId || (rs[i].key.teamId == rs[j].key.teamId && rs[i].rank < rs[j].rank)
  }

  lemma {:induction false} KeepInOrder(rs: seq<Ranked>)
    requires InOrder(rs)
    ensures InOrder(Keep(rs))
  {
    if rs != [] {
      KeepInOrder(rs[1..]);
      KeepMembers(rs[1..]);
    }
  }

  lemma NumberInOrder(gs: seq<Group>)
    requires Ordered(gs)
    requires OnePerUser(gs)
    ensures InOrder(Number(gs))
  {
  }

  lemma {:induction false} SubsetSize(a: set<Int64>, b: set<Int64>)
    requires a <= b
    ensures |a| <= |b|
    decreases |a|
  {
    if a != {} {
      var x :| x in a;
      SubsetSize(a - {x}, b - {x});
    }
  }

  /**
   * A row is returned exactly for each creator with fewer than three rivals in the team; it carries the creator's
   * exact count, and its rank is one more than the number of rivals. Rows come by team, then by rank.
   */
  lemma QueryMeans(d: Tables, cutoff: int)
    requires Keyed(d)
    ensures InOrder(Query(d, cutoff))
    ensures forall r :: r in Query(d, cutoff) <==> IsTop(d, cutoff, r)
  {
    hide Groups, Keyed, Names, Created, Creators, Rivals, Number, Keep;
    GroupsMean(d, cutoff);
    var gs := Groups(d, cutoff);
    NumberInOrder(gs);
    KeepInOrder(Number(gs));
    KeepMembers(Number(gs));
    forall r ensures r in Query(d, cutoff) <==> IsTop(d, cutoff, r) {
      CreatorsCounted(d.tasks, r.key.teamId, r.key.userId, cutoff);
      if r in Number(gs) {
        var i :| 0 <= i < |gs| && Number(gs)[i] == r;
        RankIsPlace(d, cutoff, i);
        assert gs[i] in gs;
      }
      if IsTop(d, cutoff, r) {
        assert Group(r.key, r.count) in gs;
        var i :| 0 <= i < |gs| && gs[i] == Group(r.key, r.count);
        RankIsPlace(d, cutoff, i);
        assert Number(gs)[i] == r;
      }
    }
  }

  lemma RankIsPlace(d: Tables, cutoff: int, i: nat)
    requires Keyed(d) && i < |Groups(d, cutoff)|
    ensures var g := Groups(d, cutoff)[i];
            Number(Groups(d, cutoff))[i].rank == 1 + |Rivals(d.tasks, g.key.teamId, g.key.userId, cutoff)|
  {
    hide Groups, Rivals, Number;
    GroupsMean(d, cutoff);
    NumberCounts(Groups(d, cutoff), i);
    BeforeAreRivals(d, cutoff, i);
  }

  /** Every creator left out is strictly behind every creator of the team that is returned. */
  lemma OmittedAreBehind(d: Tables, cutoff: int, r: Ranked, user: Int64)
    requires Keyed(d) && r in Query(d, cutoff) && user in Creators(d.tasks, r.key.teamId, cutoff)
    requires forall q | q in Query(d, cutoff) && q.key.teamId == r.key.teamId :: q.key.userId != user
    ensures r.key.userId in Rivals(d.tasks, r.key.teamId, user, cutoff)
  {
    hide Query, Keyed, Created, Creators, Names;
    QueryMeans(d, cutoff);
    var team := r.key.teamId;
    if r.key.userId !in Rivals(d.tasks, team, user, cutoff) {
      // then user is ahead of r, so has fewer rivals and is returned
      RivalsShrink(d.tasks, team, user, r.key.userId, cutoff);
      var q := CreatorReturned(d, cutoff, team, user);
    }
  }

  lemma RivalsShrink(tasks: seq<Task>, team: Int64, a: Int64, b: Int64, cutoff: int)
    requires b in Creators(tasks, team, cutoff) && b !in Rivals(tasks, team, a, cutoff)
    ensures |Rivals(tasks, team, a, cutoff)| <= |Rivals(tasks, team, b, cutoff)|
  {
    hide Creators, Created;
    SubsetSize(Rivals(tasks, team, a, cutoff), Rivals(tasks, team, b, cutoff));
  }

  lemma CreatorReturned(d: Tables, cutoff: int, team: Int64, user: Int64) returns (q: Ranked)
    requires Keyed(d) && user in Creators(d.tasks, team, cutoff) && |Rivals(d.tasks, team, user, cutoff)| < TOP
    ensures q in Query(d, cutoff) && q.key.teamId == team && q.key.userId == user
  {
    hide Groups, Query, Keyed, Created, Creators, Rivals;
    var g := CreatorHasGroup(d, cutoff, team, user);
    GroupsMean(d, cutoff);
    QueryMeans(d, cutoff);
    q := Ranked(g.key, g.count, 1 + |Rivals(d.tasks, team, user, cutoff)|);
  }

  // ---- in plain numbers ----

  /** At most three rows a team; of two, the one ranked first has the larger count, or as many and the smaller user. */
  lemma RankedByCount(d: Tables, cutoff: int, q: Ranked, r: Ranked)
    requires Keyed(d) && q in Query(d, cutoff) && r in Query(d, cutoff) && q.key.teamId == r.key.teamId
    ensures 1 <= r.rank <= 3 && r.count == Created(d.tasks, r.key.teamId, r.key.userId, cutoff)
    ensures q.rank < r.rank <==> q.count > r.count || (q.count == r.count && q.key.userId < r.key.userId)
  {
    hide Query, Keyed, Created, Creators, Names;
    QueryMeans(d, cutoff);
    if q.rank < r.rank {
      RankFollows(d, cutoff, q, r);
    } else if r.rank < q.rank {
      RankFollows(d, cutoff, r, q);
    }
    var i :| 0 <= i < |Query(d, cutoff)| && Query(d, cutoff)[i] == q;
    var j :| 0 <= j < |Query(d, cutoff)| && Query(d, cutoff)[j] == r;
    assert i != j ==> q.rank != r.rank;
  }

  lemma RankFollows(d: Tables, cutoff: int, q: Ranked, r: Ranked)
    requires IsTop(d, cutoff, q) && IsTop(d, cutoff, r) && q.key.teamId == r.key.teamId && q.rank < r.rank
    ensures q.count > r.count || (q.count == r.count && q.key.userId < r.key.userId)
  {
    hide Created, Creators, Names;
    var team := r.key.teamId;
    if q.key.userId !in Rivals(d.tasks, team, r.key.userId, cutoff) {
      RivalsShrink(d.tasks, team, r.key.userId, q.key.userId, cutoff);
    }
  }

  /** A creator left out made fewer tasks than every creator returned, or as many with a larger identifier. */
  lemma OmittedMadeFewer(d: Tables, cutoff: int, r: Ranked, user: Int64)
    requires Keyed(d) && r in Query(d, cutoff) && Created(d.tasks, r.key.teamId, user, cutoff) > 0
    requires forall q | q in Query(d, cutoff) && q.key.teamId == r.key.teamId :: q.key.userId != user
    ensures Created(d.tasks, r.key.teamId, user, cutoff) < r.count
            || (Created(d.tasks, r.key.teamId, user, cutoff) == r.count && r.key.userId < user)
  {
    hide Query, Keyed, Created, Creators, Names;
    CreatorsCounted(d.tasks, r.key.teamId, user, cutoff);
    QueryMeans(d, cutoff);
    OmittedAreBehind(d, cutoff, r, user);
  }

  // ---- no rank is skipped ----

  lemma {:induction false} RanksDown(gs: seq<Group>, i: nat, rank: nat) returns (m: nat)
    requires i < |gs| && 1 <= rank <= Number(gs)[i].rank
    ensures m < |gs| && gs[m].key.teamId == gs[i].key.teamId && Number(gs)[m].rank == rank
    decreases |gs|
  {
    var n := |gs| - 1;
    if i < n {
      m := RanksDown(gs[..n], i, rank);
    } else if Number(gs)[n].rank == rank {
      m := n;
    } else {
      m := RanksDown(gs[..n], n - 1, rank);
    }
  }

  lemma {:induction false} LastOf(gs: seq<Group>, team: Int64, i: nat) returns (m: nat)
    requires i < |gs| && gs[i].key.teamId == team
    ensures i <= m < |gs| && gs[m].key.teamId == team && forall j | m < j < |gs| :: gs[j].key.teamId != team
    decreases |gs| - i
  {
    if j :| i < j < |gs| && gs[j].key.teamId == team {
      m := LastOf(gs, team, j);
    } else {
      m := i;
    }
  }

  /** The users placed up to the last group of a team are all its creators. */
  lemma UpToLast(d: Tables, cutoff: int, m: nat, v: Int64)
    requires Keyed(d) && m < |Groups(d, cutoff)|
    requires forall j | m < j < |Groups(d, cutoff)| :: Groups(d, cutoff)[j].key.teamId != Groups(d, cutoff)[m].key.teamId
    ensures var g := Groups(d, cutoff)[m];
            v in UsersBefore(Groups(d, cutoff), m) + {g.key.userId} <==> v in Creators(d.tasks, g.key.teamId, cutoff)
  {
    hide Groups, Keyed, Names, Created, Creators;
    GroupsMean(d, cutoff);
    var gs := Groups(d, cutoff);
    var team := gs[m].key.teamId;
    CreatorsCounted(d.tasks, team, v, cutoff);
    if v in UsersBefore(gs, m) + {gs[m].key.userId} {
      var j :| 0 <= j <= m && gs[j].key.teamId == team && gs[j].key.userId == v;
      assert gs[j] in gs;
    }
    if v in Creators(d.tasks, team, cutoff) {
      var x := CreatorHasGroup(d, cutoff, team, v);
      var j :| 0 <= j < |gs| && gs[j] == x;
    }
  }

  lemma NotBeforeItself(gs: seq<Group>, m: nat)
    requires m < |gs| && OnePerUser(gs)
    ensures gs[m].key.userId !in UsersBefore(gs, m)
  {
  }

  /** The last group of a team is numbered with the number of its creators. */
  lemma LastRank(d: Tables, cutoff: int, m: nat)
    requires Keyed(d) && m < |Groups(d, cutoff)|
    requires forall j | m < j < |Groups(d, cutoff)| :: Groups(d, cutoff)[j].key.teamId != Groups(d, cutoff)[m].key.teamId
    ensures Number(Groups(d, cutoff))[m].rank == |Creators(d.tasks, Groups(d, cutoff)[m].key.teamId, cutoff)|
  {
    hide Groups, Keyed, Names, Created, Number, Creators, UsersBefore, Ordered, OnePerUser;
    GroupsMean(d, cutoff);
    var gs := Groups(d, cutoff);
    NumberCounts(gs, m);
    NotBeforeItself(gs, m);
    var team, u, before := gs[m].key.teamId, gs[m].key.userId, UsersBefore(gs, m);
    forall v ensures v in before + {u} <==> v in Creators(d.tasks, team, cutoff) {
      UpToLast(d, cutoff, m, v);
    }
    assert before + {u} == Creators(d.tasks, team, cutoff);
  }

  /** A team with n creators has a row for every rank from 1 to min(3, n). */
  lemma RanksFilled(d: Tables, cutoff: int, team: Int64, rank: nat) returns (r: Ranked)
    requires Keyed(d) && 1 <= rank <= 3 && rank <= |Creators(d.tasks, team, cutoff)|
    ensures r in Query(d, cutoff) && r.key.teamId == team && r.rank == rank
  {
    hide Groups, Keyed, Number;
    var user :| user in Creators(d.tasks, team, cutoff);
    var g := CreatorHasGroup(d, cutoff, team, user);
    var gs := Groups(d, cutoff);
    var i :| 0 <= i < |gs| && gs[i] == g;
    var m := LastOf(gs, team, i);
    LastRank(d, cutoff, m);
    var k := RanksDown(gs, m, rank);
    r := Number(gs)[k];
    KeepMembers(Number(gs));
  }
}
