/** The teams and team_members tables and the statements team_repo.go runs on them. */
module TeamStore {
  import opened Wrappers
  import opened Domain

  /** members is keyed by the primary key (team_id, user_id); lastTeam is the AUTO_INCREMENT counter. */
  datatype Roster = Roster(teams: map<Int64, Team>, lastTeam: Int64, members: map<(Int64, Int64), TeamMember>)

  ghost predicate WellFormedRoster(r: Roster) {
    && r.lastTeam >= 0
    && (forall t | t in r.teams :: 1 <= t <= r.lastTeam && r.teams[t].id == t)
    && (forall p | p in r.members :: p.0 in r.teams && r.members[p].teamId == p.0 && r.members[p].userId == p.1)
  }

  function GetMember(r: Roster, teamId: Int64, userId: Int64): Result<TeamMember, Error> {
    if (teamId, userId) in r.members then Ok(r.members[(teamId, userId)]) else Err(NotFound)
  }

  function InsertTeam(r: Roster, name: string, ownerId: Int64): Result<Roster, Error> {
    if r.lastTeam < 0 || r.lastTeam == MAX_INT64 then Err(Database)
    else
      var id: Int64 := r.lastTeam + 1;
      Ok(r.(teams := r.teams[id := Team(id, name, ownerId)], lastTeam := id))
  }

  /** The primary key refuses a second row for the same user and team. */
  function InsertMember(r: Roster, teamId: Int64, userId: Int64, role: Role): Result<Roster, Error> {
    if (teamId, userId) in r.members then Err(Conflict)
    else Ok(r.(members := r.members[(teamId, userId) := TeamMember(teamId, userId, role)]))
  }

  /** Statement numbers: 0 BEGIN, 1 INSERT INTO teams, 2 INSERT INTO team_members, 3 COMMIT. */
  function CreateWithOwner(r: Roster, name: string, ownerId: Int64, fault: Option<nat>): (Roster, Result<Int64, Error>) {
    if fault == Some(0) || fault == Some(1) then (r, Err(Database))
    else
      match InsertTeam(r, name, ownerId)
      case Err(e) => (r, Err(e))
      case Ok(r1) =>
        if fault == Some(2) || fault == Some(3) then (r.(lastTeam := r1.lastTeam), Err(Database))
        else
          match InsertMember(r1, r1.lastTeam, ownerId, ROLE_OWNER)
          case Err(e) => (r.(lastTeam := r1.lastTeam), Err(Database))
          case Ok(r2) => (r2, Ok(r1.lastTeam))
  }

  /** A team and its owner together, or neither; a fresh team never meets an old membership. */
  lemma CreateWithOwnerAtomic(r: Roster, name: string, ownerId: Int64, fault: Option<nat>)
    requires WellFormedRoster(r)
    ensures
      var (next, res) := CreateWithOwner(r, name, ownerId, fault);
      && WellFormedRoster(next)
      && (res.Err? ==> next.teams == r.teams && next.members == r.members)
      && (res.Ok? ==>
            var id := res.value;
            && id == r.lastTeam + 1 && id !in r.teams && next.teams == r.teams[id := Team(id, name, ownerId)]
            && next.members == r.members[(id, ownerId) := TeamMember(id, ownerId, "owner")]
            && (forall u: Int64 :: (id, u) !in r.members))
      && (res.Ok? <==> r.lastTeam < MAX_INT64 && (fault.None? || fault.value > 3))
  {
  }
}
