/** How a pass ends: what it stores, what it returns, and the messages it leaves. */
module FossaOutcomes {
  import opened Options
  import opened FossaService
  import opened FossaPass
  import opened FossaConditions
  import opened FossaDiscipline

  /** The condition of a kind says so. */
  predicate Says(cs: seq<Condition>, kind: Kind, ok: bool, reason: Reason) {
    Find(cs, kind).Some? && Find(cs, kind).value.ok == ok && Find(cs, kind).value.reason == reason
  }

  /** The team a pass that starts at a position of the log gets: fetched by the first call, or created by
      the second. */
  function TeamGot(log: seq<Entry>, from: nat, name: string): Option<Team> {
    if from < |log| && log[from].call == FetchTeam(name) && log[from].reply.TeamIs? then Some(log[from].reply.team)
    else if from + 1 < |log| && log[from].call == FetchTeam(name) && log[from + 1].call == CreateTeam(name)
            && log[from + 1].reply.TeamIs? then Some(log[from + 1].reply.team)
    else None
  }

  lemma TeamIsGot(w: World, sched: Schedule, name: string, more: seq<Entry>)
    requires EnsureTeam(w, sched, name).0.log <= more
    ensures var (w1, got) := EnsureTeam(w, sched, name);
            && TeamGot(more, |w.log|, name) == (if got.TeamIs? then Some(got.team) else None)
            && (!got.TeamIs? ==> |w1.log| == |w.log| + 2)
  {
    hide ApplyAll, Execute;
    var (w1, _) := EnsureTeam(w, sched, name);
    assert forall k :: 0 <= k < |w1.log| ==> more[k] == w1.log[k];
  }

  lemma SetSays(cr: Resource, kind: Kind, ok: bool, reason: Reason, note: Note, at: int)
    ensures Says(SetCondition(cr, kind, ok, reason, note, at).conditions, kind, ok, reason)
    ensures SetCondition(cr, kind, ok, reason, note, at) == cr.(conditions := SetCondition(cr, kind, ok, reason, note, at).conditions)
  {
    hide Upsert, Find;
    UpsertIsMapUpdate(cr.conditions, Condition(kind, ok, reason, note, cr.generation, at), kind);
  }

  /** Without credentials a pass makes no call and touches nothing but one condition. It is not repeated
      by itself, and fails only when that condition cannot be stored. */
  lemma CredentialsMissing(s: Sys, sched: Schedule, kube: Kube, clock: Clock)
    requires kube.credentials.NoCredentials?
    ensures var p := Pass(s, sched, kube, clock);
            && p.requeue == 0 && p.failed == kube.statusFails && p.listed == None
            && (p.failed ==> p.sys == s)
            && (!p.failed ==>
                  && p.sys == s.(cr := s.cr.(conditions := p.sys.cr.conditions))
                  && Says(p.sys.cr.conditions, FossaTeamReady, false, CredentialsNotFound))
  {
    hide Upsert, Find, Says, SetCondition;
    SetSays(s.cr, FossaTeamReady, false, CredentialsNotFound, Problem(kube.credentials.text), clock.condition(0));
  }

  /** When the team can neither be fetched nor created, the pass fails, asks for another in a minute and
      leaves the condition false; nothing else changes and no third call is made. */
  lemma TeamUnavailable(s: Sys, sched: Schedule, kube: Kube, clock: Clock)
    requires kube.credentials.Credentials?
    requires TeamGot(Pass(s, sched, kube, clock).sys.world.log, |s.world.log|, s.cr.project).None?
    ensures var p := Pass(s, sched, kube, clock);
            && p.requeue == 60 && p.failed && p.listed == None && |p.sys.world.log| == |s.world.log| + 2
            && p.sys == s.(world := p.sys.world, cr := s.cr.(conditions := p.sys.cr.conditions))
            && (if kube.statusFails then p.sys.cr == s.cr
                else Says(p.sys.cr.conditions, FossaTeamReady, false, ApiError))
  {
    hide EnsureTeam, UserStage, Upsert, Find, Says, SetCondition, TeamGot;
    var (w1, got) := EnsureTeam(s.world, sched, s.cr.project);
    TeamIsGot(s.world, sched, s.cr.project, Pass(s, sched, kube, clock).sys.world.log);
    if got.Error? {
      SetSays(s.cr, FossaTeamReady, false, ApiError, CallProblem(got.why), clock.condition(0));
    }
  }

  predicate MapFails(s: Sys, kube: Kube, team: Team) {
    kube.ownerFails || kube.mapGetFails || (s.configMap != Some(ScannerData(s.cr.project, team)) && kube.mapWriteFails)
  }

  /** Once the team is there, the pass fails exactly when one of its cluster operations does, and a
      failing pass stores no status: the first ones end it before the map is written, the patch of the
      annotation and the status update after. Otherwise all of the status is stored. */
  lemma PassStores(s: Sys, sched: Schedule, kube: Kube, clock: Clock)
    requires kube.credentials.Credentials?
    requires TeamGot(Pass(s, sched, kube, clock).sys.world.log, |s.world.log|, s.cr.project).Some?
    ensures var p := Pass(s, sched, kube, clock);
            var team := TeamGot(p.sys.world.log, |s.world.log|, s.cr.project).value;
            var data, noted := Some(ScannerData(s.cr.project, team)), Some(s.cr.ref);
            && (MapFails(s, kube, team) ==>
                  && p.failed && p.requeue == 0 && p.listed == None
                  && p.sys == s.(world := p.sys.world) && |p.sys.world.log| <= |s.world.log| + 2)
            && (!MapFails(s, kube, team) ==>
                  && p.sys.configMap == data
                  && p.sys.mapWrites == s.mapWrites + (if s.configMap == data then 0 else 1)
                  && p.failed == ((s.cr.annotation != noted && kube.patchFails) || kube.statusFails)
                  && (p.failed ==> p.requeue == 0 && p.listed == None)
                  && (s.cr.annotation != noted && kube.patchFails ==> p.sys.cr == s.cr)
                  && (p.failed && !(s.cr.annotation != noted && kube.patchFails) ==> p.sys.cr == s.cr.(annotation := noted)))
            && (!p.failed ==> p.listed == Some(team.id) && StatusStored(s, kube.credentials.organization, team, p))
  {
    hide EnsureTeam, UserStage, Upsert, Find, Says, SetCondition, TeamGot, StatusStored;
    var (w1, got) := EnsureTeam(s.world, sched, s.cr.project);
    var p := Pass(s, sched, kube, clock);
    TeamIsGot(s.world, sched, s.cr.project, p.sys.world.log);
    TeamCalls(s.world, sched, s.cr.project);
    if !p.failed {
      StoredByPass(s, sched, kube, clock);
    }
  }

  lemma TeamCalls(w: World, sched: Schedule, name: string)
    ensures |EnsureTeam(w, sched, name).0.log| <= |w.log| + 2
  {
    hide ApplyAll, Execute;
  }

  /** The status a completed pass stores, the entries and the third condition apart. */
  predicate StatusStored(s: Sys, organization: int, team: Team, p: Passed) {
    var cr := p.sys.cr;
    && cr.ref == s.cr.ref && cr.project == s.cr.project && cr.emails == s.cr.emails && cr.generation == s.cr.generation
    && cr.team == Some(TeamRef(team.id, team.name, organization))
    && cr.observed == s.cr.generation && cr.configMapRef == s.cr.ref && cr.annotation == Some(s.cr.ref)
    && Says(cr.conditions, FossaTeamReady, true, TeamCreated)
    && Says(cr.conditions, ConfigMapReady, true, ConfigMapCreated)
    && (cr.emails == [] ==>
          && cr.invitations == [] && p.requeue == 0
          && Says(cr.conditions, UserInvitationsProcessed, true, NoInvitations))
  }

  lemma StoredByPass(s: Sys, sched: Schedule, kube: Kube, clock: Clock)
    requires Pass(s, sched, kube, clock).listed.Some?
    ensures StatusStored(s, kube.credentials.organization, EnsureTeam(s.world, sched, s.cr.project).1.team,
                         Pass(s, sched, kube, clock))
  {
    hide EnsureTeam, UserStage, Upsert, Find, SetCondition;
    var (w1, got) := EnsureTeam(s.world, sched, s.cr.project);
    var cr1 := TeamStep(s.cr, got.team, kube.credentials.organization, clock.condition(0));
    var named := s.cr.(observed := s.cr.generation,
                       team := Some(TeamRef(got.team.id, got.team.name, kube.credentials.organization)));
    SetSays(named, FossaTeamReady, true, TeamCreated, TeamReady(got.team), clock.condition(0));
    var cr2 := SetCondition(cr1, ConfigMapReady, true, ConfigMapCreated, ConfigMapIsReady, clock.condition(1));
    SetSays(cr1, ConfigMapReady, true, ConfigMapCreated, ConfigMapIsReady, clock.condition(1));
    SetKeeps(cr1, ConfigMapReady, true, ConfigMapCreated, ConfigMapIsReady, clock.condition(1), FossaTeamReady);
    UserStageConditions(w1, sched, cr2, got.team.id, clock, FossaTeamReady);
    UserStageConditions(w1, sched, cr2, got.team.id, clock, ConfigMapReady);
    StageKeepsRest(w1, sched, cr2, got.team.id, clock);
  }

  lemma SetKeeps(cr: Resource, kind: Kind, ok: bool, reason: Reason, note: Note, at: int, other: Kind)
    requires other != kind
    ensures Find(SetCondition(cr, kind, ok, reason, note, at).conditions, other) == Find(cr.conditions, other)
  {
    hide Upsert, Find;
    UpsertIsMapUpdate(cr.conditions, Condition(kind, ok, reason, note, cr.generation, at), other);
  }

  lemma StageKeepsRest(w: World, sched: Schedule, cr: Resource, team: int, clock: Clock)
    ensures var (_, cr', requeue) := UserStage(w, sched, cr, team, clock);
            && cr' == cr.(invitations := cr'.invitations, conditions := cr'.conditions)
            && (cr.emails == [] ==>
                  && cr'.invitations == [] && requeue == 0
                  && Says(cr'.conditions, UserInvitationsProcessed, true, NoInvitations))
  {
    hide InviteAll, JoinAll, Verdict, Upsert, Find, Says;
    if cr.emails == [] {
      SetSays(cr.(invitations := []), UserInvitationsProcessed, true, NoInvitations, NoneRequested, clock.condition(2));
    }
  }

  /* ----- the numbers in the message ----- */

  function Having(list: seq<Invitation>, s: Status): set<nat> {
    set i: nat | i < |list| && list[i].status == s
  }

  lemma {:induction false} TallyCounts(list: seq<Invitation>, s: Status)
    ensures Tally(list, s) == |Having(list, s)|
    decreases |list|
  {
    if list != [] {
      var n := |list| - 1;
      TallyCounts(list[..n], s);
      assert Having(list, s) == Having(list[..n], s) + (if list[n].status == s then {n} else {});
    }
  }

  /** The message that goes with a list. */
  function NumbersOf(list: seq<Invitation>): Note {
    var onTeam, failed := Having(list, AddedToTeam), Having(list, Failed);
    if list != [] && |onTeam| == |list| then AllOnTeam(|list|)
    else if list != [] && |failed| == |list| then AllFailed(|list|)
    else Mixed(|onTeam|, |Having(list, Accepted)|, |Having(list, Pending)|, |failed|, 0)
  }

  lemma VerdictNumbers(list: seq<Invitation>)
    requires forall i :: 0 <= i < |list| ==> Stored4(list[i].status)
    ensures Verdict(list).2 == NumbersOf(list)
  {
    hide Tally, Having;
    TalliesAddUp(list);
    TallyMeaning(list, AlreadyMember);
    TallyMeaning(list, Expired);
    TallyCounts(list, AddedToTeam);
    TallyCounts(list, Accepted);
    TallyCounts(list, Pending);
    TallyCounts(list, Failed);
  }

  /** The message after a pass that lists somebody. Its numbers are those of the last pass that changed
      status or reason, so they can be out of date; only a failed FetchUsers always renews them. */
  lemma SummaryMessage(s: Sys, sched: Schedule, kube: Kube, clock: Clock)
    requires Pass(s, sched, kube, clock).listed.Some? && s.cr.emails != []
    ensures var p := Pass(s, sched, kube, clock).sys;
            var was, now := Find(s.cr.conditions, UserInvitationsProcessed), Find(p.cr.conditions, UserInvitationsProcessed);
            && now.Some?
            && now.value.message == (if !UsersUnknown(s, sched) && was.Some? && SameVerdict(was.value, now.value)
                                     then was.value.message else NumbersOf(p.cr.invitations))
  {
    hide EnsureTeam, UserStage, Upsert, Find, Perform, NumbersOf, Verdict;
    var (w1, got) := EnsureTeam(s.world, sched, s.cr.project);
    var cr1 := TeamStep(s.cr, got.team, kube.credentials.organization, clock.condition(0));
    var cr2 := SetCondition(cr1, ConfigMapReady, true, ConfigMapCreated, ConfigMapIsReady, clock.condition(1));
    var named := s.cr.(observed := s.cr.generation,
                       team := Some(TeamRef(got.team.id, got.team.name, kube.credentials.organization)));
    SetKeeps(named, FossaTeamReady, true, TeamCreated, TeamReady(got.team), clock.condition(0), UserInvitationsProcessed);
    SetKeeps(cr1, ConfigMapReady, true, ConfigMapCreated, ConfigMapIsReady, clock.condition(1), UserInvitationsProcessed);
    StageMessage(w1, sched, cr2, got.team.id, clock);
    StageStatuses(w1, sched, cr2, got.team.id, clock);
    VerdictNumbers(UserStage(w1, sched, cr2, got.team.id, clock).1.invitations);
  }

  lemma StageMessage(w: World, sched: Schedule, cr: Resource, team: int, clock: Clock)
    requires cr.emails != []
    ensures var cr' := UserStage(w, sched, cr, team, clock).1;
            var was, now := Find(cr.conditions, UserInvitationsProcessed), Find(cr'.conditions, UserInvitationsProcessed);
            && now.Some?
            && now.value.message == (if !Perform(w, sched, FetchUsers).1.Error? && was.Some? && SameVerdict(was.value, now.value)
                                     then was.value.message else Verdict(cr'.invitations).2)
  {
    hide JoinAll, Upsert, Find, ApplyAll, InviteFirst, Verdict;
    var (w1, invited, failure) := InviteAll(w, sched, cr.emails, cr.invitations, clock);
    var list := if team > 0 then JoinAll(w1, sched, team, invited, clock).1 else invited;
    assert FollowsAll(invited, list, |invited|);
    assert Perform(w, sched, FetchUsers).1.Error? || Perform(w, sched, FetchUsers).1.Emails?;
    var (ok, reason, note) := Verdict(list);
    var c2 := Condition(UserInvitationsProcessed, ok, reason, note, cr.generation, clock.condition(3));
    if failure.Some? {
      var c1 := Condition(UserInvitationsProcessed, false, InvitationsFailed, CallProblem(failure.value), cr.generation,
                          clock.condition(2));
      assert list == [];
      NobodyIsMixed();
      UpsertIsMapUpdate(cr.conditions, c1, UserInvitationsProcessed);
      UpsertIsMapUpdate(Upsert(cr.conditions, c1), c2, UserInvitationsProcessed);
    } else {
      UpsertIsMapUpdate(cr.conditions, c2, UserInvitationsProcessed);
    }
  }
}
