/**
 * Team creation and invitations as concurrent requests. An invitation is cut where it touches the database:
 * first the role of the inviter is read, later the membership row is inserted; other requests run in between.
 */
module Membership {
  import opened Wrappers
  import opened Domain
  import opened Text
  import opened TeamStore
  import opened ServiceSpec

  datatype Phase = Checked | Added | Refused | AddFailed

  /** A record of one invitation that passed its permission checks. */
  datatype Invitation = Invitation(teamId: Int64, inviter: Int64, invitee: Int64, role: Role, phase: Phase)

  datatype State = State(roster: Roster, invitations: map<nat, Invitation>)

  datatype Event =
    | Found(name: string, owner: Int64, fault: Option<nat>)
    | Check(i: nat, input: InviteInput, memberFails: bool, invitee: Result<Int64, Error>)
    | Add(i: nat, insertFails: bool)
    | Mail(i: nat, fails: bool)

  predicate Enabled(s: State, e: Event) {
    match e
    case Found(_, _, _) => true
    case Check(i, _, _, _) => i !in s.invitations
    case Add(i, _) => i in s.invitations && s.invitations[i].phase == Checked
    case Mail(i, _) => i in s.invitations && s.invitations[i].phase == Added
  }

  function Apply(s: State, e: Event): State
    requires Enabled(s, e)
  {
    match e
    case Found(name, owner, fault) => s.(roster := CreateTeam(s.roster, name, owner, fault).0)
    case Check(i, input, memberFails, invitee) =>
      (match MayInvite(s.roster, input, memberFails, invitee)
       case Err(_) => s
       case Ok(id) =>
         s.(invitations := s.invitations[i := Invitation(input.teamId, input.inviterId, id, RoleOf(input), Checked)]))
    case Add(i, insertFails) =>
      var v := s.invitations[i];
      if insertFails then s.(invitations := s.invitations[i := v.(phase := AddFailed)])
      else
        (match InsertMember(s.roster, v.teamId, v.invitee, v.role)
         case Err(_) => s.(invitations := s.invitations[i := v.(phase := Refused)])
         case Ok(next) => State(next, s.invitations[i := v.(phase := Added)]))
    case Mail(i, fails) => s
  }

  function Exec(es: seq<Event>): Option<State> {
    if es == [] then Some(State(Roster(map[], 0, map[]), map[]))
    else
      match Exec(es[..|es| - 1])
      case None => None
      case Some(s) => if Enabled(s, es[|es| - 1]) then Some(Apply(s, es[|es| - 1])) else None
  }

  /** Run straight through, the two halves of an invitation are TeamService.Invite. */
  lemma InviteIsCheckThenAdd(s: State, i: nat, input: InviteInput, memberFails: bool, invitee: Result<Int64, Error>,
                             insertFails: bool, emailFails: bool)
    requires i !in s.invitations
    ensures var checked := Apply(s, Check(i, input, memberFails, invitee));
            var done := if Enabled(checked, Add(i, insertFails)) then Apply(checked, Add(i, insertFails)) else checked;
            done.roster == Invite(s.roster, input, memberFails, invitee, insertFails, emailFails).0
  {
  }

  // ---- the invariant ----

  ghost predicate RoleIs(s: State, team: Int64, user: Int64, manages: bool) {
    (team, user) in s.roster.members && (manages ==> s.roster.members[(team, user)].role == "owner" || s.roster.members[(team, user)].role == "admin")
  }

  /** An accepted invitation by which `a`, an owner or admin, brought `b` in with the role b has. */
  ghost predicate Invited(s: State, team: Int64, a: Int64, b: Int64) {
    exists i :: i in s.invitations && InvitedBy(s, s.invitations[i], team, a, b)
  }

  ghost predicate InvitedBy(s: State, v: Invitation, team: Int64, a: Int64, b: Int64) {
    && v.phase == Added && v.teamId == team && v.inviter == a && v.invitee == b
    && RoleIs(s, team, a, true) && (team, b) in s.roster.members && s.roster.members[(team, b)].role == v.role
  }

  /** path leads from the creator of the team, one invitation after another. */
  ghost predicate Chain(s: State, team: Int64, path: seq<Int64>) {
    && team in s.roster.teams && path != [] && path[0] == s.roster.teams[team].createdBy
    && (forall k | 0 <= k < |path| - 1 :: Invited(s, team, path[k], path[k + 1]))
  }

  ghost predicate Rooted(s: State, team: Int64, user: Int64) {
    exists path :: Chain(s, team, path) && path[|path| - 1] == user
  }

  ghost predicate OneOwner(s: State, team: Int64)
    requires team in s.roster.teams
  {
    forall u: Int64 :: (team, u) in s.roster.members && s.roster.members[(team, u)].role == "owner"
                       <==> u == s.roster.teams[team].createdBy
  }

  ghost predicate InvitationOk(s: State, v: Invitation) {
    ValidRole(v.role) && v.role != ROLE_OWNER && RoleIs(s, v.teamId, v.inviter, true)
  }

  ghost predicate Owners(s: State) {
    forall t | t in s.roster.teams :: OneOwner(s, t)
  }

  ghost predicate MembersOk(s: State) {
    forall p | p in s.roster.members :: ValidRole(s.roster.members[p].role) && Rooted(s, p.0, p.1)
  }

  ghost predicate InvitationsOk(s: State) {
    forall i | i in s.invitations :: InvitationOk(s, s.invitations[i])
  }

  ghost predicate Inv(s: State) {
    WellFormedRoster(s.roster) && Owners(s) && MembersOk(s) && InvitationsOk(s)
  }

  // ---- nothing is taken back ----

  /** Memberships, teams and accepted invitations of s are still there, unchanged, in t. */
  ghost predicate Keeps(s: State, t: State) {
    && (forall p | p in s.roster.members :: p in t.roster.members && t.roster.members[p] == s.roster.members[p])
    && (forall k | k in s.roster.teams :: k in t.roster.teams && t.roster.teams[k] == s.roster.teams[k])
    && (forall i | i in s.invitations && s.invitations[i].phase == Added :: i in t.invitations && t.invitations[i] == s.invitations[i])
  }

  lemma StepKeeps(s: State, e: Event)
    requires WellFormedRoster(s.roster) && Enabled(s, e)
    ensures Keeps(s, Apply(s, e))
  {
    match e
    case Found(name, owner, fault) => CreateWithOwnerAtomic(s.roster, TrimSpace(name), owner, fault);
    case _ =>
  }

  lemma RootedStays(s: State, t: State, team: Int64, user: Int64)
    requires Keeps(s, t) && Rooted(s, team, user)
    ensures Rooted(t, team, user)
  {
  }

  /** An invitation by a rooted member roots the invitee. */
  lemma RootedExtends(s: State, team: Int64, a: Int64, b: Int64)
    requires Rooted(s, team, a) && Invited(s, team, a, b)
    ensures Rooted(s, team, b)
  {
    var path :| Chain(s, team, path) && path[|path| - 1] == a;
    var longer := path + [b];
    forall k | 0 <= k < |longer| - 1 ensures Invited(s, team, longer[k], longer[k + 1]) {
      assert k < |path| - 1 ==> longer[k] == path[k] && longer[k + 1] == path[k + 1];
    }
    assert Chain(s, team, longer);
  }

  // ---- one event ----

  lemma FoundStep(s: State, name: string, owner: Int64, fault: Option<nat>)
    requires Inv(s)
    ensures Inv(Apply(s, Found(name, owner, fault)))
  {
    var e := Found(name, owner, fault);
    var t := Apply(s, e);
    StepKeeps(s, e);
    CreateWithOwnerAtomic(s.roster, TrimSpace(name), owner, fault);
    forall k | k in t.roster.teams ensures OneOwner(t, k) {
      if k in s.roster.teams { assert OneOwner(s, k); }
    }
    forall p | p in t.roster.members ensures ValidRole(t.roster.members[p].role) && Rooted(t, p.0, p.1) {
      if p in s.roster.members {
        RootedStays(s, t, p.0, p.1);
      } else {
        assert Chain(t, p.0, [p.1]);
      }
    }
    forall i | i in t.invitations ensures InvitationOk(t, t.invitations[i]) {
      assert InvitationOk(s, s.invitations[i]);
    }
  }

  lemma AddOwners(s: State, i: nat, insertFails: bool)
    requires Enabled(s, Add(i, insertFails)) && Owners(s) && InvitationOk(s, s.invitations[i])
    ensures Owners(Apply(s, Add(i, insertFails)))
  {
  }

  lemma AddMembers(s: State, i: nat, insertFails: bool)
    requires Enabled(s, Add(i, insertFails)) && MembersOk(s) && InvitationOk(s, s.invitations[i])
    requires Keeps(s, Apply(s, Add(i, insertFails)))
    ensures MembersOk(Apply(s, Add(i, insertFails)))
  {
    hide ValidRole, CanManageMembers, Rooted;
    var t, v := Apply(s, Add(i, insertFails)), s.invitations[i];
    forall p | p in t.roster.members ensures ValidRole(t.roster.members[p].role) && Rooted(t, p.0, p.1) {
      if p in s.roster.members {
        RootedStays(s, t, p.0, p.1);
      } else {
        var q := (v.teamId, v.inviter);
        assert q in s.roster.members;
        RootedStays(s, t, v.teamId, v.inviter);
        assert InvitedBy(t, t.invitations[i], v.teamId, v.inviter, v.invitee);
        RootedExtends(t, v.teamId, v.inviter, v.invitee);
      }
    }
  }

  lemma AddInvitations(s: State, i: nat, insertFails: bool)
    requires Enabled(s, Add(i, insertFails)) && InvitationsOk(s) && Keeps(s, Apply(s, Add(i, insertFails)))
    ensures InvitationsOk(Apply(s, Add(i, insertFails)))
  {
    hide ValidRole, CanManageMembers;
    var t := Apply(s, Add(i, insertFails));
    forall k | k in t.invitations ensures InvitationOk(t, t.invitations[k]) {
      assert InvitationOk(s, s.invitations[k]);
    }
  }

  lemma AddStep(s: State, i: nat, insertFails: bool)
    requires Inv(s) && Enabled(s, Add(i, insertFails))
    ensures Inv(Apply(s, Add(i, insertFails)))
  {
    hide Owners, MembersOk, Rooted, ValidRole, CanManageMembers;
    StepKeeps(s, Add(i, insertFails));
    assert InvitationOk(s, s.invitations[i]);
    AddOwners(s, i, insertFails);
    AddMembers(s, i, insertFails);
    AddInvitations(s, i, insertFails);
    AddRoster(s, i, insertFails);
  }

  lemma AddRoster(s: State, i: nat, insertFails: bool)
    requires WellFormedRoster(s.roster) && Enabled(s, Add(i, insertFails)) && InvitationOk(s, s.invitations[i])
    ensures WellFormedRoster(Apply(s, Add(i, insertFails)).roster)
  {
  }

  lemma OtherStep(s: State, e: Event)
    requires Inv(s) && Enabled(s, e) && (e.Check? || e.Mail?)
    ensures Inv(Apply(s, e))
  {
    hide ValidRole, Rooted;
    var t := Apply(s, e);
    StepKeeps(s, e);
    forall k | k in t.roster.teams ensures OneOwner(t, k) {
      assert OneOwner(s, k);
    }
    forall p | p in t.roster.members ensures Rooted(t, p.0, p.1) {
      RootedStays(s, t, p.0, p.1);
    }
    forall k | k in t.invitations ensures InvitationOk(t, t.invitations[k]) {
      if k in s.invitations { assert InvitationOk(s, s.invitations[k]); }
    }
  }

  lemma {:induction false} InvHolds(es: seq<Event>, s: State)
    requires Exec(es) == Some(s)
    ensures Inv(s)
  {
    if es != [] {
      var init, e := es[..|es| - 1], es[|es| - 1];
      var p := Exec(init).value;
      InvHolds(init, p);
      match e
      case Found(name, owner, fault) => FoundStep(p, name, owner, fault);
      case Add(i, insertFails) => AddStep(p, i, insertFails);
      case _ => OtherStep(p, e);
    }
  }

  // ---- main results ----

  /**
   * In every reachable state, whatever the interleaving and whichever calls and mails fail: each team has exactly
   * one owner, its creator; every member's role is valid; and every member is reached from the creator by a chain
   * of accepted invitations, each sent by an owner or admin.
   */
  lemma OwnerAndChains(es: seq<Event>, s: State, team: Int64)
    requires Exec(es) == Some(s) && team in s.roster.teams
    ensures OneOwner(s, team)
    ensures forall u: Int64 | (team, u) in s.roster.members ::
              && (s.roster.members[(team, u)].role == "owner" || s.roster.members[(team, u)].role == "admin"
                  || s.roster.members[(team, u)].role == "member")
              && Rooted(s, team, u)
  {
    InvHolds(es, s);
    forall u: Int64 | (team, u) in s.roster.members
      ensures ValidRole(s.roster.members[(team, u)].role) && Rooted(s, team, u)
    {
      var p := (team, u);
      assert p in s.roster.members;
    }
  }

  /** Once a member, always a member with that role: later events of a run change no membership and no team. */
  lemma {:induction false} RolesNeverChange(es: seq<Event>, n: nat, s: State, t: State)
    requires n <= |es| && Exec(es[..n]) == Some(s) && Exec(es) == Some(t)
    ensures Keeps(s, t)
    decreases |es|
  {
    if n == |es| {
      assert es[..n] == es;
    } else {
      var init := es[..|es| - 1];
      var p := Exec(init).value;
      assert init[..n] == es[..n];
      RolesNeverChange(init, n, s, p);
      InvHolds(init, p);
      StepKeeps(p, es[|es| - 1]);
    }
  }
}
