/** One pass of the FOSSA controller as a function of the stored resource, the
    service, the schedule, the cluster's faults and the clock. */
module FossaPass {
  import opened Options
  import opened Text
  import opened FossaService

  /* ----- the custom resource ----- */

  datatype Status =
    | Pending | Accepted | AddedToTeam | AlreadyMember | Failed | Expired
    | Unrecognised(text: string)

  /** The messages the controller writes; `Stored` is whatever was there before. */
  datatype Note =
    | UserIsOrgMember | PendingExpiresAfter48h | PendingAfterRace | InvitationSent
    | CheckFailed(why: Failure) | SendFailed(why: Failure)
    | UserIsTeamMember | UserAddedToTeam | AddFailed(why: Failure)
    | TeamReady(team: Team) | ConfigMapIsReady | NoneRequested
    | AllOnTeam(n: nat) | AllFailed(n: nat)
    | Mixed(onTeam: nat, accepted: nat, pending: nat, failed: nat, expired: nat)
    | Problem(text: string) | CallProblem(why: Failure) | Stored(text: string)

  datatype Invitation = Invitation(
    email: string, status: Status, message: Note,
    invitedAt: Option<int>, acceptedAt: Option<int>, addedAt: Option<int>)

  datatype Kind = FossaTeamReady | ConfigMapReady | UserInvitationsProcessed | OtherKind(name: string)

  datatype Reason =
    | TeamCreated | ApiError | CredentialsNotFound | ConfigMapCreated
    | InvitationsPartial | InvitationsFailed | NoInvitations | MembershipProcessed
    | OtherReason(text: string)

  datatype Condition = Condition(
    kind: Kind, ok: bool, reason: Reason, message: Note, generation: int, since: int)

  datatype TeamRef = TeamRef(id: int, name: string, organization: int)

  datatype Resource = Resource(
    ref: string, project: string, emails: seq<string>, generation: int,
    annotation: Option<string>,
    observed: int, configMapRef: string, team: Option<TeamRef>,
    invitations: seq<Invitation>, conditions: seq<Condition>)

  /** The data of the ConfigMap: what a pass writes, or anything else found there. */
  datatype ConfigData = ScannerData(project: string, team: Team) | ForeignData(data: map<string, string>)

  /* ----- conditions ----- */

  /** The list after `setCondition`: the first entry of the kind is replaced only when
      status or reason changed, and a missing kind is appended. */
  function Upsert(cs: seq<Condition>, c: Condition): seq<Condition> {
    if cs == [] then [c]
    else if cs[0].kind == c.kind then
      if cs[0].ok != c.ok || cs[0].reason != c.reason then [c] + cs[1..] else cs
    else [cs[0]] + Upsert(cs[1..], c)
  }

  /** The condition of a kind that readers of the list see. */
  function Find(cs: seq<Condition>, kind: Kind): Option<Condition> {
    if cs == [] then None
    else if cs[0].kind == kind then Some(cs[0])
    else Find(cs[1..], kind)
  }

  function SetCondition(cr: Resource, kind: Kind, ok: bool, reason: Reason, message: Note, now: int): Resource {
    cr.(conditions := Upsert(cr.conditions, Condition(kind, ok, reason, message, cr.generation, now)))
  }

  /* ----- step 5: the team ----- */

  function EnsureTeam(w: World, sched: Schedule, name: string): (r: (World, Reply))
    ensures w.log <= r.0.log && |w.log| < |r.0.log|
    ensures r.1.TeamIs? || r.1.Error?
  {
    var (w1, fetched) := Perform(w, sched, FetchTeam(name));
    if fetched.TeamIs? then (w1, fetched)
    else Perform(w1, sched, CreateTeam(name))
  }

  /* ----- step 8.1: invitations ----- */

  datatype Clock = Clock(invite: nat -> int, member: nat -> int, condition: nat -> int)

  /** The stored entries by folded address; the last entry of an address wins. */
  function Index(list: seq<Invitation>): map<string, Invitation>
    decreases |list|
  {
    if list == [] then map[]
    else
      var last := list[|list| - 1];
      Index(list[..|list| - 1])[Lower(last.email) := last]
  }

  function Remembered(index: map<string, Invitation>, email: string): Option<int> {
    if Lower(email) in index then index[Lower(email)].invitedAt else None
  }

  /** The only statuses step 8.1 gives; in particular it never carries AddedToTeam over. */
  predicate FirstHand(inv: Invitation) { inv.status == Accepted || inv.status == Pending || inv.status == Failed }

  /** One first-hand entry per address, in order. */
  ghost predicate Answers(list: seq<Invitation>, emails: seq<string>, n: nat)
    requires n <= |emails|
  {
    |list| == n && forall i :: 0 <= i < n ==> list[i].email == emails[i] && FirstHand(list[i])
  }

  function InviteOne(w: World, sched: Schedule, users: set<string>, index: map<string, Invitation>,
                     email: string, now: int): (r: (World, Invitation))
    ensures w.log <= r.0.log
    ensures r.1.email == email && FirstHand(r.1)
  {
    if Lower(email) in users then
      (w, Invitation(email, Accepted, UserIsOrgMember, Remembered(index, email), Some(now), None))
    else
      var (w1, check) := Perform(w, sched, HasPendingInvitation(email));
      if check.Error? then
        (w1, Invitation(email, Failed, CheckFailed(check.why), None, None, None))
      else if check == Flag(true) then
        var since := if Remembered(index, email).Some? then Remembered(index, email) else Some(now);
        (w1, Invitation(email, Pending, PendingExpiresAfter48h, since, None, None))
      else
        var (w2, sent) := Perform(w1, sched, SendUserInvitation(email));
        (w2,
         if sent == Error(InviteAlreadyExists) then Invitation(email, Pending, PendingAfterRace, Some(now), None, None)
         else if sent == Error(UserAlreadyMember) then Invitation(email, Accepted, UserIsOrgMember, None, Some(now), None)
         else if sent.Error? then Invitation(email, Failed, SendFailed(sent.why), None, None, None)
         else Invitation(email, Pending, InvitationSent, Some(now), None, None))
  }

  /** The first n addresses, handled in order. */
  function InviteFirst(w: World, sched: Schedule, users: set<string>, index: map<string, Invitation>,
                       emails: seq<string>, clock: Clock, n: nat): (r: (World, seq<Invitation>))
    requires n <= |emails|
    ensures w.log <= r.0.log
    ensures Answers(r.1, emails, n)
  {
    if n == 0 then (w, [])
    else
      var (w1, list) := InviteFirst(w, sched, users, index, emails, clock, n - 1);
      var (w2, inv) := InviteOne(w1, sched, users, index, emails[n - 1], clock.invite(n - 1));
      (w2, list + [inv])
  }

  /** The world, the list, and the failure of FetchUsers if it failed. */
  function InviteAll(w: World, sched: Schedule, emails: seq<string>, stored: seq<Invitation>, clock: Clock)
    : (r: (World, seq<Invitation>, Option<Failure>))
    ensures w.log <= r.0.log
    ensures r.2.Some? ==> r.1 == []
    ensures r.2.None? ==> Answers(r.1, emails, |emails|)
  {
    var (w1, users) := Perform(w, sched, FetchUsers);
    if !users.Emails? then (w1, [], Some(users.why))
    else
      var (w2, list) := InviteFirst(w1, sched, Folded(users.list), Index(stored), emails, clock, |emails|);
      (w2, list, None)
  }

  predicate SomePending(list: seq<Invitation>) {
    exists i :: 0 <= i < |list| && list[i].status == Pending
  }

  /* ----- step 8.2: team membership ----- */

  predicate Waiting(inv: Invitation) { inv.status == Accepted || inv.status == AlreadyMember }

  /** What step 8.2 may do to an entry: put a waiting one on the team, and never touch its address
      or the time of its invitation. */
  predicate Follows(inv: Invitation, after: Invitation) {
    && after.email == inv.email && after.invitedAt == inv.invitedAt
    && (after.status == inv.status || (Waiting(inv) && after.status == AddedToTeam))
  }

  ghost predicate FollowsAll(list: seq<Invitation>, after: seq<Invitation>, n: nat)
    requires n <= |list|
  {
    |after| == n && forall i :: 0 <= i < n ==> Follows(list[i], after[i])
  }

  function JoinOne(w: World, sched: Schedule, team: int, members: set<string>, inv: Invitation, now: int)
    : (r: (World, Invitation))
    ensures w.log <= r.0.log
    ensures Follows(inv, r.1)
  {
    if !Waiting(inv) then (w, inv)
    else
      var onTeam := inv.(status := AddedToTeam, message := UserIsTeamMember, addedAt := Some(now));
      if Lower(inv.email) in members then (w, onTeam)
      else
        var (w1, added) := Perform(w, sched, AddUserToTeamByEmail(team, inv.email, 0));
        (w1,
         if added == Error(UserAlreadyMember) then onTeam
         else if added.Error? then inv.(message := AddFailed(added.why))
         else onTeam.(message := UserAddedToTeam))
  }

  function JoinFirst(w: World, sched: Schedule, team: int, members: set<string>, list: seq<Invitation>,
                     clock: Clock, n: nat): (r: (World, seq<Invitation>))
    requires n <= |list|
    ensures w.log <= r.0.log
    ensures FollowsAll(list, r.1, n)
  {
    if n == 0 then (w, [])
    else
      var (w1, done) := JoinFirst(w, sched, team, members, list, clock, n - 1);
      var (w2, inv) := JoinOne(w1, sched, team, members, list[n - 1], clock.member(n - 1));
      (w2, done + [inv])
  }

  function JoinAll(w: World, sched: Schedule, team: int, list: seq<Invitation>, clock: Clock)
    : (r: (World, seq<Invitation>))
    ensures w.log <= r.0.log
    ensures FollowsAll(list, r.1, |list|)
  {
    var (w1, members) := Perform(w, sched, FetchTeamUserEmails(team));
    if !members.Emails? then (w1, list)
    else JoinFirst(w1, sched, team, Folded(members.list), list, clock, |list|)
  }

  /* ----- step 8.3: the verdict ----- */

  function Tally(list: seq<Invitation>, s: Status): nat {
    if list == [] then 0
    else Tally(list[..|list| - 1], s) + (if list[|list| - 1].status == s then 1 else 0)
  }

  function Verdict(list: seq<Invitation>): (bool, Reason, Note) {
    var onTeam := Tally(list, AddedToTeam) + Tally(list, AlreadyMember);
    if onTeam == |list| && onTeam > 0 then (true, MembershipProcessed, AllOnTeam(onTeam))
    else if Tally(list, Failed) > 0 && onTeam == 0 && Tally(list, Accepted) == 0 && Tally(list, Pending) == 0 then
      (false, InvitationsFailed, AllFailed(Tally(list, Failed)))
    else
      (false, InvitationsPartial,
       Mixed(onTeam, Tally(list, Accepted), Tally(list, Pending), Tally(list, Failed), Tally(list, Expired)))
  }

  const MINUTE: nat := 60
  const HOUR: nat := 3600

  /** Step 8: the world, the resource, and the seconds to wait before the next pass. */
  function UserStage(w: World, sched: Schedule, cr: Resource, team: int, clock: Clock): (r: (World, Resource, nat))
    ensures w.log <= r.0.log
  {
    if cr.emails == [] then
      (w, SetCondition(cr.(invitations := []), UserInvitationsProcessed, true, NoInvitations, NoneRequested,
                       clock.condition(2)), 0)
    else
      var (w1, invited, failure) := InviteAll(w, sched, cr.emails, cr.invitations, clock);
      var cr1 := if failure.None? then cr
                 else SetCondition(cr, UserInvitationsProcessed, false, InvitationsFailed,
                                   CallProblem(failure.value), clock.condition(2));
      var (w2, list) := if team > 0 then JoinAll(w1, sched, team, invited, clock) else (w1, invited);
      var (ok, reason, note) := Verdict(list);
      (w2,
       SetCondition(cr1.(invitations := list), UserInvitationsProcessed, ok, reason, note, clock.condition(3)),
       if SomePending(invited) || Tally(list, Accepted) > 0 then HOUR else 0)
  }

  /* ----- the whole pass ----- */

  datatype Credentials = Credentials(organization: int) | NoCredentials(text: string)

  /** Which cluster operations of the pass fail. */
  datatype Kube = Kube(
    credentials: Credentials, ownerFails: bool, mapGetFails: bool, mapWriteFails: bool,
    patchFails: bool, statusFails: bool)

  datatype Sys = Sys(cr: Resource, configMap: Option<ConfigData>, mapWrites: nat, world: World)

  /** `listed` is the team whose members the stored list speaks about, when the pass stored a list. */
  datatype Passed = Passed(sys: Sys, requeue: nat, failed: bool, listed: Option<int>)

  function TeamStep(cr: Resource, team: Team, organization: int, now: int): Resource {
    SetCondition(cr.(observed := cr.generation, team := Some(TeamRef(team.id, team.name, organization))),
                 FossaTeamReady, true, TeamCreated, TeamReady(team), now)
  }

  function Pass(s: Sys, sched: Schedule, kube: Kube, clock: Clock): (r: Passed)
    ensures s.world.log <= r.sys.world.log
  {
    if kube.credentials.NoCredentials? then
      var cr := SetCondition(s.cr, FossaTeamReady, false, CredentialsNotFound, Problem(kube.credentials.text),
                             clock.condition(0));
      Passed(if kube.statusFails then s else s.(cr := cr), 0, kube.statusFails, None)
    else
      var (w1, got) := EnsureTeam(s.world, sched, s.cr.project);
      if !got.TeamIs? then
        var cr := SetCondition(s.cr, FossaTeamReady, false, ApiError, CallProblem(got.why), clock.condition(0));
        Passed(s.(world := w1, cr := if kube.statusFails then s.cr else cr), MINUTE, true, None)
      else
        var cr1 := TeamStep(s.cr, got.team, kube.credentials.organization, clock.condition(0));
        var data := Some(ScannerData(s.cr.project, got.team));
        if kube.ownerFails || kube.mapGetFails || (s.configMap != data && kube.mapWriteFails) then
          Passed(s.(world := w1), 0, true, None)
        else
          var writes := s.mapWrites + if s.configMap != data then 1 else 0;
          var cr2 := SetCondition(cr1, ConfigMapReady, true, ConfigMapCreated, ConfigMapIsReady, clock.condition(1));
          var (w2, cr3, requeue) := UserStage(w1, sched, cr2, got.team.id, clock);
          var s2 := Sys(s.cr, data, writes, w2);
          var noted := Some(s.cr.ref);
          if s.cr.annotation != noted && kube.patchFails then Passed(s2, 0, true, None)
          else if kube.statusFails then Passed(s2.(cr := s.cr.(annotation := noted)), 0, true, None)
          else
            Passed(s2.(cr := cr3.(annotation := noted, configMapRef := s.cr.ref)), requeue, false, Some(got.team.id))
  }

  /** FetchUsers failed in the pass. */
  predicate UsersUnknown(s: Sys, sched: Schedule) {
    Perform(EnsureTeam(s.world, sched, s.cr.project).0, sched, FetchUsers).1.Error?
  }
}
