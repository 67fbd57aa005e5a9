/** Which invitations a pass sends, how long their dates last, and what its summary means. */
module FossaDiscipline {
  import opened Options
  import opened Text
  import opened FossaService
  import opened FossaPass
  import opened FossaQuiet

  /* ----- sends ----- */

  /** Every invitation of the range goes to an address that the fetched users lack and that the call
      just before reported as not pending. */
  ghost predicate Deliberate(log: seq<Entry>, from: nat, users: set<string>) {
    forall k :: from <= k < |log| && log[k].call.SendUserInvitation? ==>
      && Lower(log[k].call.email) !in users
      && from < k && log[k - 1].call == HasPendingInvitation(log[k].call.email) && log[k - 1].reply == Flag(false)
  }

  lemma DeliberateOne(w: World, sched: Schedule, users: set<string>, index: map<string, Invitation>, email: string, now: int, from: nat)
    requires from <= |w.log| && Deliberate(w.log, from, users)
    ensures Deliberate(InviteOne(w, sched, users, index, email, now).0.log, from, users)
  {
    hide ApplyAll, At, Lower, Remembered;
    var w' := InviteOne(w, sched, users, index, email, now).0;
    if Lower(email) !in users {
      var (w1, check) := Perform(w, sched, HasPendingInvitation(email));
      assert forall k :: 0 <= k < |w.log| ==> w'.log[k] == w.log[k];
    }
  }

  lemma {:induction false} DeliberateFirst(w: World, sched: Schedule, users: set<string>, index: map<string, Invitation>,
                                           emails: seq<string>, clock: Clock, n: nat)
    requires n <= |emails|
    ensures Deliberate(InviteFirst(w, sched, users, index, emails, clock, n).0.log, |w.log|, users)
  {
    hide InviteOne;
    if n > 0 {
      DeliberateFirst(w, sched, users, index, emails, clock, n - 1);
      var (w1, _) := InviteFirst(w, sched, users, index, emails, clock, n - 1);
      DeliberateOne(w1, sched, users, index, emails[n - 1], clock.invite(n - 1), |w.log|);
    }
  }

  ghost predicate NoSends(log: seq<Entry>, from: nat, to: nat) {
    forall k :: from <= k < to <= |log| ==> !log[k].call.SendUserInvitation?
  }

  lemma {:induction false} JoinsSendNothing(w: World, sched: Schedule, team: int, members: set<string>,
                                            list: seq<Invitation>, clock: Clock, n: nat)
    requires n <= |list|
    ensures var log := JoinFirst(w, sched, team, members, list, clock, n).0.log; NoSends(log, |w.log|, |log|)
  {
    hide Execute, ApplyAll;
    if n > 0 {
      JoinsSendNothing(w, sched, team, members, list, clock, n - 1);
    }
  }

  /** The fetch that made the send reasonable: an earlier call of the pass listed the users without
      the address, and the call just before found no pending invitation. */
  ghost predicate Justified(log: seq<Entry>, from: nat, k: nat)
    requires k < |log| && log[k].call.SendUserInvitation?
  {
    && (exists f :: from <= f < k && log[f].call == FetchUsers && log[f].reply.Emails?
                    && Lower(log[k].call.email) !in Folded(log[f].reply.list))
    && from < k && log[k - 1].call == HasPendingInvitation(log[k].call.email) && log[k - 1].reply == Flag(false)
  }

  lemma StageSendsJustified(w: World, sched: Schedule, cr: Resource, team: int, clock: Clock, k: nat)
    requires var log := UserStage(w, sched, cr, team, clock).0.log;
      |w.log| <= k < |log| && log[k].call.SendUserInvitation?
    ensures Justified(UserStage(w, sched, cr, team, clock).0.log, |w.log|, k)
  {
    hide InviteFirst, JoinFirst, Execute, Verdict, Upsert, Tally;
    var log := UserStage(w, sched, cr, team, clock).0.log;
    var (w1, users) := Perform(w, sched, FetchUsers);
    var (w2, invited, _) := InviteAll(w, sched, cr.emails, cr.invitations, clock);
    if users.Emails? {
      DeliberateFirst(w1, sched, Folded(users.list), Index(cr.invitations), cr.emails, clock, |cr.emails|);
    }
    assert k < |w2.log| && w2.log[k] == log[k] by {
      if team > 0 {
        var (w3, members) := Perform(w2, sched, FetchTeamUserEmails(team));
        if members.Emails? {
          JoinsSendNothing(w3, sched, team, Folded(members.list), invited, clock, |invited|);
        }
      }
    }
    assert log[|w.log|] == w1.log[|w.log|];
    assert log[k - 1] == w2.log[k - 1];
  }

  /** Invitations of a pass are sent on purpose, whatever the faults and the interference. */
  lemma PassSendsJustified(s: Sys, sched: Schedule, kube: Kube, clock: Clock, k: nat)
    requires var log := Pass(s, sched, kube, clock).sys.world.log;
      |s.world.log| <= k < |log| && log[k].call.SendUserInvitation?
    ensures Justified(Pass(s, sched, kube, clock).sys.world.log, |s.world.log|, k)
  {
    hide UserStage, Upsert, Execute;
    var (w1, got) := EnsureTeam(s.world, sched, s.cr.project);
    var cr1 := TeamStep(s.cr, got.team, kube.credentials.organization, clock.condition(0));
    var cr2 := SetCondition(cr1, ConfigMapReady, true, ConfigMapCreated, ConfigMapIsReady, clock.condition(1));
    var log := UserStage(w1, sched, cr2, got.team.id, clock).0.log;
    assert k >= |w1.log| by { assert log[..|w1.log|] == w1.log; }
    StageSendsJustified(w1, sched, cr2, got.team.id, clock, k);
  }

  /* ----- the summary ----- */

  /** The counters partition the list. */
  lemma {:induction false} TalliesAddUp(list: seq<Invitation>)
    requires forall i :: 0 <= i < |list| ==> !list[i].status.Unrecognised?
    ensures Tally(list, Pending) + Tally(list, Accepted) + Tally(list, AddedToTeam)
            + Tally(list, AlreadyMember) + Tally(list, Failed) + Tally(list, Expired) == |list|
    decreases |list|
  {
    if list != [] {
      TalliesAddUp(list[..|list| - 1]);
    }
  }

  lemma {:induction false} TallyMeaning(list: seq<Invitation>, s: Status)
    ensures Tally(list, s) <= |list|
    ensures Tally(list, s) == |list| <==> forall i :: 0 <= i < |list| ==> list[i].status == s
    ensures Tally(list, s) > 0 <==> exists i :: 0 <= i < |list| && list[i].status == s
    decreases |list|
  {
    if list != [] {
      var n := |list| - 1;
      TallyMeaning(list[..n], s);
      assert forall i :: 0 <= i < n ==> list[..n][i] == list[i];
      if list[n].status != s && Tally(list[..n], s) > 0 {
        var i :| 0 <= i < n && list[..n][i].status == s;
        assert list[i].status == s;
      }
    }
  }

  /** The statuses a pass can store. */
  predicate Stored4(s: Status) { s == Pending || s == Accepted || s == AddedToTeam || s == Failed }

  lemma VerdictMeaning(list: seq<Invitation>)
    requires forall i :: 0 <= i < |list| ==> Stored4(list[i].status)
    ensures Verdict(list).0 <==> list != [] && forall i :: 0 <= i < |list| ==> list[i].status == AddedToTeam
    ensures Verdict(list).1 == InvitationsFailed <==> list != [] && forall i :: 0 <= i < |list| ==> list[i].status == Failed
  {
    hide Tally;
    TalliesAddUp(list);
    forall s { TallyMeaning(list, s); }
  }

  lemma StageStatuses(w: World, sched: Schedule, cr: Resource, team: int, clock: Clock)
    requires cr.emails != []
    ensures var (w', cr', requeue) := UserStage(w, sched, cr, team, clock);
      var list := cr'.invitations;
      && (forall i :: 0 <= i < |list| ==> Stored4(list[i].status))
      && (requeue == 3600 <==> exists i :: 0 <= i < |list| && list[i].status in {Pending, Accepted})
      && (requeue == 3600 || requeue == 0)
      && (list == [] || (|list| == |cr.emails| && forall i :: 0 <= i < |list| ==> list[i].email == cr.emails[i]))
  {
    hide InviteFirst, JoinFirst, Execute, Verdict, Upsert, Tally;
    var (w1, invited, _) := InviteAll(w, sched, cr.emails, cr.invitations, clock);
    var list := UserStage(w, sched, cr, team, clock).1.invitations;
    assert FollowsAll(invited, list, |invited|);
    TallyMeaning(list, Accepted);
    forall i | 0 <= i < |list| ensures (list[i].status == Pending <==> invited[i].status == Pending) && Stored4(list[i].status) {
      assert Follows(invited[i], list[i]) && FirstHand(invited[i]);
    }
  }

  /** Step 8 lists every address in order, or forgets the whole list: the latter exactly when
      FetchUsers fails. */
  lemma StageListsAll(w: World, sched: Schedule, cr: Resource, team: int, clock: Clock)
    requires cr.emails != []
    ensures var list := UserStage(w, sched, cr, team, clock).1.invitations;
      && (list == [] <==> Perform(w, sched, FetchUsers).1.Error?)
      && (list != [] ==> |list| == |cr.emails| && forall i :: 0 <= i < |list| ==> list[i].email == cr.emails[i])
  {
    hide InviteFirst, JoinFirst, ApplyAll, Verdict, Upsert, Tally;
    var (w1, invited, _) := InviteAll(w, sched, cr.emails, cr.invitations, clock);
    assert FollowsAll(invited, UserStage(w, sched, cr, team, clock).1.invitations, |invited|);
    assert Perform(w, sched, FetchUsers).1.Error? || Perform(w, sched, FetchUsers).1.Emails?;
  }

  /** The summary of a pass that stores a list is exact: four statuses only; the list is empty iff
      FetchUsers failed and has one entry per address in order otherwise; another pass in an hour iff
      somebody is still pending or accepted; the condition true iff everybody is on the team; and the
      reason InvitationsFailed iff everybody failed. */
  lemma SummaryIsExact(s: Sys, sched: Schedule, kube: Kube, clock: Clock)
    requires Pass(s, sched, kube, clock).listed.Some? && s.cr.emails != []
    ensures var p := Pass(s, sched, kube, clock);
      var list := p.sys.cr.invitations;
      var c := Find(p.sys.cr.conditions, UserInvitationsProcessed);
      && (forall i :: 0 <= i < |list| ==> Stored4(list[i].status))
      && (list == [] <==> UsersUnknown(s, sched))
      && (list != [] ==> |list| == |s.cr.emails| && forall i :: 0 <= i < |list| ==> list[i].email == s.cr.emails[i])
      && (p.requeue == 3600 <==> exists i :: 0 <= i < |list| && list[i].status in {Pending, Accepted})
      && (p.requeue == 3600 || p.requeue == 0)
      && c.Some?
      && (c.value.ok <==> list != [] && forall i :: 0 <= i < |list| ==> list[i].status == AddedToTeam)
      && (c.value.reason == InvitationsFailed <==> list != [] && forall i :: 0 <= i < |list| ==> list[i].status == Failed)
  {
    hide EnsureTeam, InviteAll, JoinAll, Verdict, Upsert, Tally, Find, Perform;
    var (w1, got) := EnsureTeam(s.world, sched, s.cr.project);
    var cr1 := TeamStep(s.cr, got.team, kube.credentials.organization, clock.condition(0));
    var cr2 := SetCondition(cr1, ConfigMapReady, true, ConfigMapCreated, ConfigMapIsReady, clock.condition(1));
    StageStatuses(w1, sched, cr2, got.team.id, clock);
    StageListsAll(w1, sched, cr2, got.team.id, clock);
    StageVerdict(w1, sched, cr2, got.team.id, clock);
    VerdictMeaning(UserStage(w1, sched, cr2, got.team.id, clock).1.invitations);
  }

  lemma StageVerdict(w: World, sched: Schedule, cr: Resource, team: int, clock: Clock)
    requires cr.emails != []
    ensures var cr' := UserStage(w, sched, cr, team, clock).1;
      var c := Find(cr'.conditions, UserInvitationsProcessed);
      c.Some? && c.value.ok == Verdict(cr'.invitations).0 && c.value.reason == Verdict(cr'.invitations).1
  {
    hide InviteAll, JoinAll, Verdict, Upsert, Find;
    var (w1, invited, failure) := InviteAll(w, sched, cr.emails, cr.invitations, clock);
    var list := if team > 0 then JoinAll(w1, sched, team, invited, clock).1 else invited;
    var cs := if failure.None? then cr.conditions
              else Upsert(cr.conditions, Condition(UserInvitationsProcessed, false, InvitationsFailed,
                                                   CallProblem(failure.value), cr.generation, clock.condition(2)));
    var (ok, reason, note) := Verdict(list);
    UpsertShows(cs, Condition(UserInvitationsProcessed, ok, reason, note, cr.generation, clock.condition(3)));
  }

  /** A pass that stores its result forgets every stored invitation exactly when FetchUsers failed; it
      then asks for no further pass, and reports the mixed reason rather than InvitationsFailed. */
  lemma FetchUsersFailureForgets(s: Sys, sched: Schedule, kube: Kube, clock: Clock)
    requires Pass(s, sched, kube, clock).listed.Some? && s.cr.emails != []
    ensures var p := Pass(s, sched, kube, clock);
      && (p.sys.cr.invitations == [] <==> UsersUnknown(s, sched))
      && (UsersUnknown(s, sched) ==>
            && p.requeue == 0 && !p.failed
            && Find(p.sys.cr.conditions, UserInvitationsProcessed).Some?
            && Find(p.sys.cr.conditions, UserInvitationsProcessed).value.reason == InvitationsPartial)
  {
    hide EnsureTeam, InviteAll, JoinAll, Upsert, Tally, Find, Perform;
    SummaryIsExact(s, sched, kube, clock);
    var (w1, got) := EnsureTeam(s.world, sched, s.cr.project);
    var cr1 := TeamStep(s.cr, got.team, kube.credentials.organization, clock.condition(0));
    var cr2 := SetCondition(cr1, ConfigMapReady, true, ConfigMapCreated, ConfigMapIsReady, clock.condition(1));
    StageVerdict(w1, sched, cr2, got.team.id, clock);
    NobodyIsMixed();
  }

  lemma NobodyIsMixed()
    ensures Verdict([]).1 == InvitationsPartial
  {
  }

  /** It happens: the team is known, the second call of the pass fails, and the pass stores an empty list. */
  lemma FetchUsersCanFail(s: Sys, kube: Kube, clock: Clock)
    requires s.world.log == [] && s.cr.project in s.world.org.teams && s.cr.emails != [] && AllWell(kube)
    ensures var sched := [Tick([], NoFault), Tick([], Refused("down"))];
      var p := Pass(s, sched, kube, clock);
      p.listed.Some? && UsersUnknown(s, sched) && p.sys.cr.invitations == []
  {
    hide UserStage, Upsert;
    var sched := [Tick([], NoFault), Tick([], Refused("down"))];
    assert ApplyAll(s.world.org, []) == s.world.org;
    var (w1, got) := EnsureTeam(s.world, sched, s.cr.project);
    assert got.TeamIs? && |w1.log| == 1;
    assert At(sched, 1).fault == Refused("down");
    assert UsersUnknown(s, sched);
    FetchUsersFailureForgets(s, sched, kube, clock);
  }
}
