/** Convergence of passes without faults, while other people go on acting. */
module FossaConverges {
  import opened Options
  import opened Text
  import opened FossaService
  import opened FossaPass
  import opened FossaHistory
  import opened FossaQuiet

  /* ----- what others may do ----- */

  predicate Listed(emails: seq<string>, email: string) { Lower(email) in Folded(emails) }

  /** Someone listed leaves the organisation. */
  predicate Departs(e: EnvStep, emails: seq<string>) { e.Leave? && Listed(emails, e.email) }

  /** Someone listed is taken off the team by hand. */
  predicate Removes(e: EnvStep, team: int, emails: seq<string>) {
    e.RemoveByHand? && e.team == team && Listed(emails, e.email)
  }

  ghost predicate SmoothTick(t: Tick, emails: seq<string>) {
    t.fault == NoFault && forall i :: 0 <= i < |t.before| ==> !Departs(t.before[i], emails)
  }

  /** No call of the range fails, and nobody listed leaves before one; anything else may happen. */
  ghost predicate Smooth(sched: Schedule, from: nat, to: nat, emails: seq<string>) {
    forall k :: from <= k < to ==> SmoothTick(At(sched, k), emails)
  }

  ghost predicate HeldTick(t: Tick, team: int, emails: seq<string>) {
    forall i :: 0 <= i < |t.before| ==> !Removes(t.before[i], team, emails)
  }

  /** Nobody listed is taken off the team before a call of the range. */
  ghost predicate Held(sched: Schedule, from: nat, to: nat, team: int, emails: seq<string>) {
    forall k :: from <= k < to ==> HeldTick(At(sched, k), team, emails)
  }

  ghost predicate AllUsers(o: Org, emails: seq<string>) {
    forall i :: 0 <= i < |emails| ==> IsUser(o, emails[i])
  }

  /** The listed members of the first state are members in the second. */
  ghost predicate KeepsListed(o: Org, o': Org, team: int, emails: seq<string>) {
    forall i :: 0 <= i < |emails| && OnTeam(o, team, emails[i]) ==> OnTeam(o', team, emails[i])
  }

  lemma ListedMember(emails: seq<string>, i: nat)
    requires i < |emails|
    ensures Listed(emails, emails[i])
  {
  }

  /* ----- users stay users and teams stay teams ----- */

  lemma ActKeepsUsers(o: Org, e: EnvStep, emails: seq<string>)
    requires AllUsers(o, emails) && !Departs(e, emails)
    ensures AllUsers(ApplyStep(o, e), emails) && o.members.Keys <= ApplyStep(o, e).members.Keys
  {
    hide Lower;
    if (e.Accept? || e.Join?) && !IsUser(o, e.email) {
      FoldedAppend(o.users, e.email);
    }
    forall i | 0 <= i < |emails| ensures IsUser(ApplyStep(o, e), emails[i]) {
      ListedMember(emails, i);
    }
  }

  lemma {:induction false} ActsKeepUsers(o: Org, es: seq<EnvStep>, emails: seq<string>)
    requires AllUsers(o, emails) && forall i :: 0 <= i < |es| ==> !Departs(es[i], emails)
    ensures AllUsers(ApplyAll(o, es), emails) && o.members.Keys <= ApplyAll(o, es).members.Keys
    decreases |es|
  {
    if es != [] {
      hide AllUsers, Departs, ApplyStep;
      var n := |es| - 1;
      ActsKeepUsers(o, es[..n], emails);
      ActKeepsUsers(ApplyAll(o, es[..n]), es[n], emails);
    }
  }

  lemma ExecuteKeepsUsers(o: Org, c: Call)
    ensures Execute(o, c).0.users == o.users && o.members.Keys <= Execute(o, c).0.members.Keys
  {
  }

  /** A call of a smooth range: the state it meets, and that its answer is the service's own. */
  lemma SmoothPerform(w: World, sched: Schedule, c: Call, emails: seq<string>)
    requires AllUsers(w.org, emails) && SmoothTick(At(sched, |w.log|), emails)
    ensures var seen := ApplyAll(w.org, At(sched, |w.log|).before);
            var (w1, reply) := Perform(w, sched, c);
            && AllUsers(seen, emails) && AllUsers(w1.org, emails)
            && w.org.members.Keys <= seen.members.Keys <= w1.org.members.Keys
            && (w1.org, reply) == Execute(seen, c) && |w1.log| == |w.log| + 1
  {
    hide ApplyAll, Execute, Folded, Lower;
    ActsKeepUsers(w.org, At(sched, |w.log|).before, emails);
    ExecuteKeepsUsers(ApplyAll(w.org, At(sched, |w.log|).before), c);
  }

  lemma TeamReply(o: Org, c: Call)
    requires ValidOrg(o) && (c.FetchTeam? || c.CreateTeam?)
    ensures var (o1, reply) := Execute(o, c);
            && (c.CreateTeam? ==> reply.TeamIs?)
            && (reply.TeamIs? ==> reply.team.id > 0 && reply.team.id in o1.members)
  {
  }

  lemma SmoothTeam(w: World, sched: Schedule, name: string, emails: seq<string>)
    requires ValidOrg(w.org) && AllUsers(w.org, emails)
    requires Smooth(sched, |w.log|, |EnsureTeam(w, sched, name).0.log|, emails)
    ensures var (w1, got) := EnsureTeam(w, sched, name);
            && AllUsers(w1.org, emails) && got.TeamIs? && got.team.id > 0 && got.team.id in w1.org.members
  {
    hide ApplyAll, Execute, AllUsers, ValidOrg, SmoothTick;
    var (w1, fetched) := Perform(w, sched, FetchTeam(name));
    assert |w1.log| == |w.log| + 1;
    SmoothPerform(w, sched, FetchTeam(name), emails);
    StepsKeepValid(w.org, At(sched, |w.log|).before);
    TeamReply(ApplyAll(w.org, At(sched, |w.log|).before), FetchTeam(name));
    if !fetched.TeamIs? {
      PerformKeepsValid(w, sched, FetchTeam(name));
      SmoothPerform(w1, sched, CreateTeam(name), emails);
      StepsKeepValid(w1.org, At(sched, |w1.log|).before);
      TeamReply(ApplyAll(w1.org, At(sched, |w1.log|).before), CreateTeam(name));
    }
  }

  /* ----- step 8.1: users are not invited ----- */

  lemma {:induction false} InvitesNobody(w: World, sched: Schedule, users: set<string>, index: map<string, Invitation>,
                                         emails: seq<string>, clock: Clock, n: nat)
    requires n <= |emails| && forall i :: 0 <= i < |emails| ==> Lower(emails[i]) in users
    ensures var (w', list) := InviteFirst(w, sched, users, index, emails, clock, n);
            w' == w && forall i :: 0 <= i < n ==> list[i].status == Accepted
  {
    hide Lower, Remembered;
    if n > 0 {
      InvitesNobody(w, sched, users, index, emails, clock, n - 1);
    }
  }

  lemma SmoothInvite(w: World, sched: Schedule, emails: seq<string>, stored: seq<Invitation>, clock: Clock)
    requires AllUsers(w.org, emails) && SmoothTick(At(sched, |w.log|), emails)
    ensures var (w1, list, failure) := InviteAll(w, sched, emails, stored, clock);
            && failure.None? && AllUsers(w1.org, emails) && w.org.members.Keys <= w1.org.members.Keys
            && |w1.log| == |w.log| + 1
            && |list| == |emails| && forall i :: 0 <= i < |emails| ==> list[i].email == emails[i] && list[i].status == Accepted
  {
    hide ApplyAll, InviteFirst, Lower, Perform, SmoothTick;
    var (w1, users) := Perform(w, sched, FetchUsers);
    SmoothPerform(w, sched, FetchUsers, emails);
    var seen := ApplyAll(w.org, At(sched, |w.log|).before);
    assert users == Emails(seen.users);
    InvitesNobody(w1, sched, Folded(users.list), Index(stored), emails, clock, |emails|);
  }

  /* ----- step 8.2: everybody is added ----- */

  /** Every entry is an accepted one of a listed address. */
  ghost predicate AllAccepted(list: seq<Invitation>, emails: seq<string>) {
    |list| == |emails| && forall i :: 0 <= i < |emails| ==> list[i].email == emails[i] && list[i].status == Accepted
  }

  lemma AddReply(o: Org, team: int, email: string)
    requires team in o.members && IsUser(o, email)
    ensures var (o1, reply) := Execute(o, AddUserToTeamByEmail(team, email, 0));
            (reply == Done || reply == Error(UserAlreadyMember)) && OnTeam(o1, team, email)
  {
    if !OnTeam(o, team, email) {
      FoldedAppend(o.members[team], email);
    }
  }

  lemma SmoothJoinOne(w: World, sched: Schedule, team: int, members: set<string>, inv: Invitation, now: int,
                      emails: seq<string>, i: nat)
    requires AllUsers(w.org, emails) && team in w.org.members && i < |emails|
    requires inv.email == emails[i] && inv.status == Accepted
    requires Smooth(sched, |w.log|, |JoinOne(w, sched, team, members, inv, now).0.log|, emails)
    ensures var (w', inv') := JoinOne(w, sched, team, members, inv, now);
            && AllUsers(w'.org, emails) && team in w'.org.members && inv'.status == AddedToTeam
            && (Lower(inv.email) !in members ==> OnTeam(w'.org, team, inv.email))
  {
    hide ApplyAll, Execute, Lower, SmoothTick, Folded;
    if Lower(inv.email) !in members {
      SmoothPerform(w, sched, AddUserToTeamByEmail(team, inv.email, 0), emails);
      AddReply(ApplyAll(w.org, At(sched, |w.log|).before), team, inv.email);
    }
  }

  lemma JoinParts(w: World, sched: Schedule, team: int, members: set<string>, list: seq<Invitation>, clock: Clock, n: nat)
    requires 0 < n <= |list|
    ensures var w1 := JoinFirst(w, sched, team, members, list, clock, n - 1).0;
            var (w2, inv) := JoinOne(w1, sched, team, members, list[n - 1], clock.member(n - 1));
            && w.log <= w1.log <= w2.log
            && JoinFirst(w, sched, team, members, list, clock, n)
            == (w2, JoinFirst(w, sched, team, members, list, clock, n - 1).1 + [inv])
  {
    hide JoinOne;
  }

  lemma {:induction false} SmoothJoinFirst(w: World, sched: Schedule, team: int, members: set<string>,
                                           list: seq<Invitation>, clock: Clock, n: nat, emails: seq<string>)
    requires n <= |list| && AllAccepted(list, emails) && AllUsers(w.org, emails) && team in w.org.members
    requires Smooth(sched, |w.log|, |JoinFirst(w, sched, team, members, list, clock, n).0.log|, emails)
    ensures var (w', done) := JoinFirst(w, sched, team, members, list, clock, n);
            && AllUsers(w'.org, emails) && team in w'.org.members
            && |done| == n && forall i :: 0 <= i < n ==> done[i].status == AddedToTeam
  {
    hide JoinOne, AllUsers, SmoothTick;
    if n > 0 {
      JoinParts(w, sched, team, members, list, clock, n);
      var w1 := JoinFirst(w, sched, team, members, list, clock, n - 1).0;
      SmoothJoinFirst(w, sched, team, members, list, clock, n - 1, emails);
      SmoothJoinOne(w1, sched, team, members, list[n - 1], clock.member(n - 1), emails, n - 1);
    }
  }

  lemma SmoothJoin(w: World, sched: Schedule, team: int, list: seq<Invitation>, clock: Clock, emails: seq<string>)
    requires AllAccepted(list, emails) && AllUsers(w.org, emails) && team in w.org.members
    requires Smooth(sched, |w.log|, |JoinAll(w, sched, team, list, clock).0.log|, emails)
    ensures var (w', done) := JoinAll(w, sched, team, list, clock);
            |done| == |list| && forall i :: 0 <= i < |list| ==> done[i].status == AddedToTeam
  {
    hide ApplyAll, JoinFirst, AllUsers, AllAccepted, Perform, SmoothTick;
    var (w1, members) := Perform(w, sched, FetchTeamUserEmails(team));
    PerformLengthens(w, sched, FetchTeamUserEmails(team));
    SmoothPerform(w, sched, FetchTeamUserEmails(team), emails);
    assert members.Emails?;
    SmoothJoinFirst(w1, sched, team, Folded(members.list), list, clock, |list|, emails);
  }

  lemma PerformLengthens(w: World, sched: Schedule, c: Call)
    ensures |Perform(w, sched, c).0.log| == |w.log| + 1
  {
  }

  /* ----- members stay members unless removed ----- */

  lemma ActKeepsListed(o: Org, e: EnvStep, team: int, emails: seq<string>)
    requires !Departs(e, emails) && !Removes(e, team, emails)
    requires ValidOrg(o)
    ensures KeepsListed(o, ApplyStep(o, e), team, emails)
  {
    hide Lower;
    if e.AddByHand? && e.team in o.members {
      FoldedAppend(o.members[e.team], e.email);
    }
    forall i | 0 <= i < |emails| && OnTeam(o, team, emails[i]) ensures OnTeam(ApplyStep(o, e), team, emails[i]) {
      ListedMember(emails, i);
    }
  }

  lemma {:induction false} ActsKeepListed(o: Org, es: seq<EnvStep>, team: int, emails: seq<string>)
    requires ValidOrg(o)
    requires forall i :: 0 <= i < |es| ==> !Departs(es[i], emails) && !Removes(es[i], team, emails)
    ensures KeepsListed(o, ApplyAll(o, es), team, emails)
    decreases |es|
  {
    if es != [] {
      hide ValidOrg, Departs, Removes, ApplyStep, OnTeam;
      var n := |es| - 1;
      ActsKeepListed(o, es[..n], team, emails);
      StepsKeepValid(o, es[..n]);
      ActKeepsListed(ApplyAll(o, es[..n]), es[n], team, emails);
    }
  }

  lemma ExecuteKeepsListed(o: Org, c: Call, team: int, emails: seq<string>)
    requires ValidOrg(o)
    ensures KeepsListed(o, Execute(o, c).0, team, emails)
  {
    hide Lower;
    if c.AddUserToTeamByEmail? && c.team in o.members {
      FoldedAppend(o.members[c.team], c.email);
    }
  }

  lemma HeldPerform(w: World, sched: Schedule, c: Call, team: int, emails: seq<string>)
    requires ValidOrg(w.org) && SmoothTick(At(sched, |w.log|), emails) && HeldTick(At(sched, |w.log|), team, emails)
    ensures var seen := ApplyAll(w.org, At(sched, |w.log|).before);
            KeepsListed(w.org, seen, team, emails) && KeepsListed(w.org, Perform(w, sched, c).0.org, team, emails)
  {
    hide ApplyAll, Execute, ValidOrg, OnTeam;
    var before := At(sched, |w.log|).before;
    ActsKeepListed(w.org, before, team, emails);
    StepsKeepValid(w.org, before);
    ExecuteKeepsListed(ApplyAll(w.org, before), c, team, emails);
  }

  lemma HeldJoinOne(w: World, sched: Schedule, team: int, members: set<string>, inv: Invitation, now: int,
                    emails: seq<string>)
    requires ValidOrg(w.org)
    requires Smooth(sched, |w.log|, |JoinOne(w, sched, team, members, inv, now).0.log|, emails)
    requires Held(sched, |w.log|, |JoinOne(w, sched, team, members, inv, now).0.log|, team, emails)
    ensures var w' := JoinOne(w, sched, team, members, inv, now).0;
            ValidOrg(w'.org) && KeepsListed(w.org, w'.org, team, emails)
  {
    hide ApplyAll, Execute, ValidOrg, OnTeam, Lower, SmoothTick, HeldTick;
    var c := AddUserToTeamByEmail(team, inv.email, 0);
    if JoinOne(w, sched, team, members, inv, now).0 != w {
      HeldPerform(w, sched, c, team, emails);
      PerformKeepsValid(w, sched, c);
    }
  }

  lemma {:induction false} HeldJoinFirst(w: World, sched: Schedule, team: int, members: set<string>,
                                         list: seq<Invitation>, clock: Clock, n: nat, emails: seq<string>)
    requires n <= |list| && AllAccepted(list, emails) && AllUsers(w.org, emails) && team in w.org.members && ValidOrg(w.org)
    requires forall i :: 0 <= i < |emails| && Lower(emails[i]) in members ==> OnTeam(w.org, team, emails[i])
    requires Smooth(sched, |w.log|, |JoinFirst(w, sched, team, members, list, clock, n).0.log|, emails)
    requires Held(sched, |w.log|, |JoinFirst(w, sched, team, members, list, clock, n).0.log|, team, emails)
    ensures var w' := JoinFirst(w, sched, team, members, list, clock, n).0;
            && ValidOrg(w'.org) && KeepsListed(w.org, w'.org, team, emails)
            && forall i :: 0 <= i < n ==> OnTeam(w'.org, team, emails[i])
  {
    hide JoinOne, AllUsers, ValidOrg, OnTeam, Lower, SmoothTick, HeldTick;
    if n > 0 {
      JoinParts(w, sched, team, members, list, clock, n);
      var w1 := JoinFirst(w, sched, team, members, list, clock, n - 1).0;
      HeldJoinFirst(w, sched, team, members, list, clock, n - 1, emails);
      SmoothJoinFirst(w, sched, team, members, list, clock, n - 1, emails);
      SmoothJoinOne(w1, sched, team, members, list[n - 1], clock.member(n - 1), emails, n - 1);
      HeldJoinOne(w1, sched, team, members, list[n - 1], clock.member(n - 1), emails);
    }
  }

  lemma HeldJoin(w: World, sched: Schedule, team: int, list: seq<Invitation>, clock: Clock, emails: seq<string>)
    requires AllAccepted(list, emails) && AllUsers(w.org, emails) && team in w.org.members && ValidOrg(w.org)
    requires Smooth(sched, |w.log|, |JoinAll(w, sched, team, list, clock).0.log|, emails)
    requires Held(sched, |w.log|, |JoinAll(w, sched, team, list, clock).0.log|, team, emails)
    ensures var w' := JoinAll(w, sched, team, list, clock).0;
            forall i :: 0 <= i < |emails| ==> OnTeam(w'.org, team, emails[i])
  {
    hide ApplyAll, JoinFirst, AllUsers, Perform, SmoothTick, HeldTick, ValidOrg, Lower;
    var c := FetchTeamUserEmails(team);
    var (w1, members) := Perform(w, sched, c);
    PerformLengthens(w, sched, c);
    SmoothPerform(w, sched, c, emails);
    PerformKeepsValid(w, sched, c);
    assert members.Emails? && members.list == w1.org.members[team];
    HeldJoinFirst(w1, sched, team, Folded(members.list), list, clock, |list|, emails);
  }

  /* ----- the pass ----- */

  lemma AllOnTeamVerdict(list: seq<Invitation>)
    requires list != [] && forall i :: 0 <= i < |list| ==> list[i].status == AddedToTeam
    ensures Verdict(list) == (true, MembershipProcessed, AllOnTeam(|list|)) && Tally(list, Accepted) == 0
  {
    forall t { TallyUniform(list, AddedToTeam, t); }
  }

  lemma SmoothStage(w: World, sched: Schedule, cr: Resource, team: int, clock: Clock)
    requires ValidOrg(w.org) && AllUsers(w.org, cr.emails) && cr.emails != [] && team > 0 && team in w.org.members
    requires Smooth(sched, |w.log|, |UserStage(w, sched, cr, team, clock).0.log|, cr.emails)
    ensures var (w', cr', requeue) := UserStage(w, sched, cr, team, clock);
            var c := Find(cr'.conditions, UserInvitationsProcessed);
            && requeue == 0 && |cr'.invitations| == |cr.emails|
            && (forall i :: 0 <= i < |cr.emails| ==>
                  cr'.invitations[i].email == cr.emails[i] && cr'.invitations[i].status == AddedToTeam)
            && c.Some? && c.value.ok && c.value.reason == MembershipProcessed
            && (Held(sched, |w.log|, |w'.log|, team, cr.emails) ==>
                  forall i :: 0 <= i < |cr.emails| ==> OnTeam(w'.org, team, cr.emails[i]))
  {
    hide InviteAll, JoinAll, Verdict, Upsert, Tally, Find, AllUsers, ValidOrg, SmoothTick, HeldTick, OnTeam;
    var (w1, invited, _) := InviteAll(w, sched, cr.emails, cr.invitations, clock);
    InviteAsks(w, sched, cr.emails, cr.invitations, clock);
    var (w2, list) := JoinAll(w1, sched, team, invited, clock);
    SmoothInvite(w, sched, cr.emails, cr.invitations, clock);
    SmoothJoin(w1, sched, team, invited, clock, cr.emails);
    if Held(sched, |w.log|, |w2.log|, team, cr.emails) {
      assert ValidOrg(w1.org) by { InviteAllValid(w, sched, cr.emails, cr.invitations, clock); }
      HeldJoin(w1, sched, team, invited, clock, cr.emails);
    }
    AllOnTeamVerdict(list);
    var (ok, reason, note) := Verdict(list);
    UpsertShows(cr.conditions, Condition(UserInvitationsProcessed, ok, reason, note, cr.generation, clock.condition(3)));
  }

  lemma InviteAsks(w: World, sched: Schedule, emails: seq<string>, stored: seq<Invitation>, clock: Clock)
    ensures |w.log| < |InviteAll(w, sched, emails, stored, clock).0.log|
  {
    hide InviteFirst, Execute, ApplyAll;
  }

  lemma InviteAllValid(w: World, sched: Schedule, emails: seq<string>, stored: seq<Invitation>, clock: Clock)
    requires ValidOrg(w.org)
    ensures ValidOrg(InviteAll(w, sched, emails, stored, clock).0.org)
  {
    hide InviteAll, ValidOrg;
    GenuineInviteAll(w, sched, emails, stored, clock);
    var w1 := InviteAll(w, sched, emails, stored, clock).0;
    HistoryIsValid(sched, w, w1, |w1.log|);
  }

  /** The pass lists everybody as added and asks for no further one. */
  ghost predicate AllAdded(p: Passed, emails: seq<string>) {
    && p.requeue == 0 && !p.failed && p.listed.Some?
    && |p.sys.cr.invitations| == |emails|
    && (forall i :: 0 <= i < |emails| ==>
          p.sys.cr.invitations[i].email == emails[i] && p.sys.cr.invitations[i].status == AddedToTeam)
    && var c := Find(p.sys.cr.conditions, UserInvitationsProcessed);
       c.Some? && c.value.ok && c.value.reason == MembershipProcessed
  }

  ghost predicate AllOnTheTeam(p: Passed, emails: seq<string>) {
    p.listed.Some? && forall i :: 0 <= i < |emails| ==> OnTeam(p.sys.world.org, p.listed.value, emails[i])
  }

  /** Convergence: from any service state and any stored status, once every listed address belongs to the
      organisation, one pass whose calls go through adds all of them to the team, sets the condition and asks
      for no further pass, whatever others do around its calls, as long as nobody listed leaves. They are on
      the team at its end unless somebody took one of them off during the pass. */
  lemma PassConverges(s: Sys, sched: Schedule, kube: Kube, clock: Clock)
    requires ValidOrg(s.world.org) && AllWell(kube) && s.cr.emails != [] && AllUsers(s.world.org, s.cr.emails)
    requires Smooth(sched, |s.world.log|, |Pass(s, sched, kube, clock).sys.world.log|, s.cr.emails)
    ensures var p := Pass(s, sched, kube, clock);
            && AllAdded(p, s.cr.emails)
            && (Held(sched, |s.world.log|, |p.sys.world.log|, p.listed.value, s.cr.emails) ==> AllOnTheTeam(p, s.cr.emails))
  {
    hide Pass, EnsureTeam, UserStage, ValidOrg, AllUsers, SmoothTick, HeldTick, Find, OnTeam;
    TeamComesFirst(s, sched, kube, clock);
    SmoothTeam(s.world, sched, s.cr.project, s.cr.emails);
    GenuineTeam(s.world, sched, s.cr.project);
    var w0 := EnsureTeam(s.world, sched, s.cr.project).0;
    HistoryIsValid(sched, s.world, w0, |w0.log|);
    var w1, team, cr2 := PassInStages(s, sched, kube, clock);
    SmoothStage(w1, sched, cr2, team.id, clock);
  }

  /** In particular when others do nothing. */
  lemma QuietPassConverges(s: Sys, sched: Schedule, kube: Kube, clock: Clock)
    requires ValidOrg(s.world.org) && AllWell(kube) && s.cr.emails != [] && AllUsers(s.world.org, s.cr.emails)
    requires Quiet(sched, |s.world.log|, |Pass(s, sched, kube, clock).sys.world.log|)
    ensures AllAdded(Pass(s, sched, kube, clock), s.cr.emails) && AllOnTheTeam(Pass(s, sched, kube, clock), s.cr.emails)
  {
    hide Pass, AllAdded, AllOnTheTeam, AllUsers, ValidOrg, At;
    PassConverges(s, sched, kube, clock);
  }

  /* ----- invite, accept, join ----- */

  predicate ForgetsListed(e: EnvStep, emails: seq<string>) {
    (e.Expire? || e.Leave?) && Listed(emails, e.email)
  }

  ghost predicate GentleTick(t: Tick, emails: seq<string>) {
    t.fault == NoFault && forall i :: 0 <= i < |t.before| ==> !ForgetsListed(t.before[i], emails)
  }

  /** No call of the range fails, and before none of them somebody listed leaves or loses an invitation. */
  ghost predicate Gentle(sched: Schedule, from: nat, to: nat, emails: seq<string>) {
    forall k :: from <= k < to ==> GentleTick(At(sched, k), emails)
  }

  lemma GentlePerform(w: World, sched: Schedule, c: Call, emails: seq<string>, key: string)
    requires GentleTick(At(sched, |w.log|), emails) && key in Folded(emails) && Known(w.org, key)
    ensures Known(ApplyAll(w.org, At(sched, |w.log|).before), key) && Known(Perform(w, sched, c).0.org, key)
  {
    hide ApplyAll, Execute, Lower, Folded;
    StepsKeepKnown(w.org, At(sched, |w.log|).before, key);
    ExecuteKeepsKnown(ApplyAll(w.org, At(sched, |w.log|).before), c, key);
  }

  lemma ExecuteKeepsKnown(o: Org, c: Call, key: string)
    requires Known(o, key)
    ensures Known(Execute(o, c).0, key)
  {
  }

  lemma AskedIsKnown(o: Org, email: string)
    ensures Execute(o, HasPendingInvitation(email)).1 == Flag(true) ==> Known(o, Lower(email))
    ensures Known(Execute(o, SendUserInvitation(email)).0, Lower(email))
  {
  }

  /** One turn: whoever was known stays known, and the address of the turn becomes so. */
  lemma GentleInviteOne(w: World, sched: Schedule, users: set<string>, index: map<string, Invitation>, email: string,
                        now: int, emails: seq<string>, key: string)
    requires Listed(emails, email) && key in Folded(emails)
    requires Gentle(sched, |w.log|, |InviteOne(w, sched, users, index, email, now).0.log|, emails)
    ensures var w' := InviteOne(w, sched, users, index, email, now).0;
            && (Known(w.org, key) ==> Known(w'.org, key))
            && (key == Lower(email) && key !in users ==> Known(w'.org, key))
  {
    hide ApplyAll, Execute, Lower, Known, GentleTick, Folded, Perform;
    if Lower(email) !in users {
      var check := HasPendingInvitation(email);
      var (w1, asked) := Perform(w, sched, check);
      PerformLengthens(w, sched, check);
      PerformLengthens(w1, sched, SendUserInvitation(email));
      GentleReply(w, sched, check, emails);
      AskedIsKnown(ApplyAll(w.org, At(sched, |w.log|).before), email);
      AnswerIsFlag(ApplyAll(w.org, At(sched, |w.log|).before), email);
      if Known(w.org, key) {
        GentlePerform(w, sched, check, emails, key);
      }
      if asked == Flag(false) {
        var send := SendUserInvitation(email);
        GentleReply(w1, sched, send, emails);
        AskedIsKnown(ApplyAll(w1.org, At(sched, |w1.log|).before), email);
        if Known(w1.org, key) {
          GentlePerform(w1, sched, send, emails, key);
        }
      }
    }
  }

  lemma AnswerIsFlag(o: Org, email: string)
    ensures Execute(o, HasPendingInvitation(email)).0 == o && Execute(o, HasPendingInvitation(email)).1.Flag?
  {
  }

  lemma GentleReply(w: World, sched: Schedule, c: Call, emails: seq<string>)
    requires GentleTick(At(sched, |w.log|), emails)
    ensures var (w1, reply) := Perform(w, sched, c);
            (w1.org, reply) == Execute(ApplyAll(w.org, At(sched, |w.log|).before), c)
  {
    hide ApplyAll, Execute;
  }

  lemma InviteParts(w: World, sched: Schedule, users: set<string>, index: map<string, Invitation>, emails: seq<string>,
                    clock: Clock, n: nat)
    requires 0 < n <= |emails|
    ensures var w1 := InviteFirst(w, sched, users, index, emails, clock, n - 1).0;
            var w2 := InviteOne(w1, sched, users, index, emails[n - 1], clock.invite(n - 1)).0;
            w.log <= w1.log <= w2.log && w2 == InviteFirst(w, sched, users, index, emails, clock, n).0
  {
    hide InviteOne;
  }

  lemma {:induction false} GentleInviteFirst(w: World, sched: Schedule, users: set<string>, index: map<string, Invitation>,
                                             emails: seq<string>, clock: Clock, n: nat, i: nat)
    requires n <= |emails| && i < |emails|
    requires Lower(emails[i]) in users ==> Known(w.org, Lower(emails[i]))
    requires Gentle(sched, |w.log|, |InviteFirst(w, sched, users, index, emails, clock, n).0.log|, emails)
    ensures var w' := InviteFirst(w, sched, users, index, emails, clock, n).0;
            && (Known(w.org, Lower(emails[i])) ==> Known(w'.org, Lower(emails[i])))
            && (i < n ==> Known(w'.org, Lower(emails[i])))
  {
    hide InviteOne, Lower, Known, GentleTick;
    if n > 0 {
      InviteParts(w, sched, users, index, emails, clock, n);
      GentleInviteFirst(w, sched, users, index, emails, clock, n - 1, i);
      ListedMember(emails, n - 1);
      ListedMember(emails, i);
      var w1 := InviteFirst(w, sched, users, index, emails, clock, n - 1).0;
      GentleInviteOne(w1, sched, users, index, emails[n - 1], clock.invite(n - 1), emails, Lower(emails[i]));
    }
  }

  lemma {:induction false} GentleJoinFirst(w: World, sched: Schedule, team: int, members: set<string>,
                                           list: seq<Invitation>, clock: Clock, n: nat, emails: seq<string>, key: string)
    requires n <= |list| && key in Folded(emails) && Known(w.org, key)
    requires Gentle(sched, |w.log|, |JoinFirst(w, sched, team, members, list, clock, n).0.log|, emails)
    ensures Known(JoinFirst(w, sched, team, members, list, clock, n).0.org, key)
  {
    hide JoinOne, Lower, Known, GentleTick, Folded;
    if n > 0 {
      JoinParts(w, sched, team, members, list, clock, n);
      GentleJoinFirst(w, sched, team, members, list, clock, n - 1, emails, key);
      var w1 := JoinFirst(w, sched, team, members, list, clock, n - 1).0;
      GentleJoinOne(w1, sched, team, members, list[n - 1], clock.member(n - 1), emails, key);
    }
  }

  lemma GentleJoinOne(w: World, sched: Schedule, team: int, members: set<string>, inv: Invitation, now: int,
                      emails: seq<string>, key: string)
    requires key in Folded(emails) && Known(w.org, key)
    requires Gentle(sched, |w.log|, |JoinOne(w, sched, team, members, inv, now).0.log|, emails)
    ensures Known(JoinOne(w, sched, team, members, inv, now).0.org, key)
  {
    hide Perform, Lower, Known, GentleTick, Folded;
    var c := AddUserToTeamByEmail(team, inv.email, 0);
    PerformLengthens(w, sched, c);
    if JoinOne(w, sched, team, members, inv, now).0 != w {
      GentlePerform(w, sched, c, emails, key);
    }
  }

  lemma GentleStage(w: World, sched: Schedule, cr: Resource, team: int, clock: Clock, i: nat)
    requires i < |cr.emails|
    requires Gentle(sched, |w.log|, |UserStage(w, sched, cr, team, clock).0.log|, cr.emails)
    ensures Known(UserStage(w, sched, cr, team, clock).0.org, Lower(cr.emails[i]))
  {
    hide InviteFirst, JoinFirst, Verdict, Upsert, Tally, Index, Lower, GentleTick, Perform, ApplyAll;
    var key := Lower(cr.emails[i]);
    ListedMember(cr.emails, i);
    var (w1, users) := Perform(w, sched, FetchUsers);
    PerformLengthens(w, sched, FetchUsers);
    GentleReply(w, sched, FetchUsers, cr.emails);
    GentleInviteFirst(w1, sched, Folded(users.list), Index(cr.invitations), cr.emails, clock, |cr.emails|, i);
    var (w2, invited, _) := InviteAll(w, sched, cr.emails, cr.invitations, clock);
    assert Known(w2.org, key);
    hide Known;
    if team > 0 {
      var c := FetchTeamUserEmails(team);
      var (w3, members) := Perform(w2, sched, c);
      PerformLengthens(w2, sched, c);
      JoinAllLengthens(w2, sched, team, invited, clock);
      GentlePerform(w2, sched, c, cr.emails, key);
      if members.Emails? {
        GentleJoinFirst(w3, sched, team, Folded(members.list), invited, clock, |invited|, cr.emails, key);
      }
    }
  }

  lemma JoinAllLengthens(w: World, sched: Schedule, team: int, list: seq<Invitation>, clock: Clock)
    ensures |w.log| < |JoinAll(w, sched, team, list, clock).0.log|
  {
    hide JoinFirst, Execute, ApplyAll;
  }

  /** After a pass whose calls go through, everybody listed is invited or in the organisation, unless they
      left or their invitation expired during the pass. */
  lemma PassInvitesAll(s: Sys, sched: Schedule, kube: Kube, clock: Clock)
    requires ValidOrg(s.world.org) && AllWell(kube)
    requires Gentle(sched, |s.world.log|, |Pass(s, sched, kube, clock).sys.world.log|, s.cr.emails)
    ensures var p := Pass(s, sched, kube, clock);
            && !p.failed && p.listed.Some? && p.sys.cr.emails == s.cr.emails
            && forall i :: 0 <= i < |s.cr.emails| ==> Known(p.sys.world.org, Lower(s.cr.emails[i]))
  {
    hide Pass, EnsureTeam, UserStage, ValidOrg, GentleTick, Known, Lower;
    TeamComesFirst(s, sched, kube, clock);
    GentleTeam(s.world, sched, s.cr.project, s.cr.emails);
    var w1, team, cr2 := PassInStages(s, sched, kube, clock);
    forall i | 0 <= i < |s.cr.emails| ensures Known(Pass(s, sched, kube, clock).sys.world.org, Lower(s.cr.emails[i])) {
      GentleStage(w1, sched, cr2, team.id, clock, i);
    }
  }

  lemma GentleTeam(w: World, sched: Schedule, name: string, emails: seq<string>)
    requires ValidOrg(w.org)
    requires Gentle(sched, |w.log|, |EnsureTeam(w, sched, name).0.log|, emails)
    ensures EnsureTeam(w, sched, name).1.TeamIs?
  {
    hide ApplyAll, ValidOrg, Perform, GentleTick, Execute;
    var w1 := Perform(w, sched, FetchTeam(name)).0;
    PerformLengthens(w, sched, FetchTeam(name));
    PerformLengthens(w1, sched, CreateTeam(name));
    if !Perform(w, sched, FetchTeam(name)).1.TeamIs? {
      PerformKeepsValid(w, sched, FetchTeam(name));
      GentleReply(w1, sched, CreateTeam(name), emails);
      StepsKeepValid(w1.org, At(sched, |w1.log|).before);
      TeamReply(ApplyAll(w1.org, At(sched, |w1.log|).before), CreateTeam(name));
    }
  }

  function Accepts(emails: seq<string>): seq<EnvStep> {
    seq(|emails|, i requires 0 <= i < |emails| => Accept(emails[i]))
  }

  lemma {:induction false} AcceptsMakeUsers(o: Org, emails: seq<string>)
    requires forall i :: 0 <= i < |emails| ==> IsUser(o, emails[i]) || IsPending(o, emails[i])
    ensures var o' := ApplyAll(o, Accepts(emails));
      && (forall i :: 0 <= i < |emails| ==> IsUser(o', emails[i]))
      && (forall x :: IsUser(o, x) || IsPending(o, x) ==> IsUser(o', x) || IsPending(o', x))
      && (forall x :: IsUser(o, x) ==> IsUser(o', x))
    decreases |emails|
  {
    if emails != [] {
      var n := |emails| - 1;
      AcceptsMakeUsers(o, emails[..n]);
      assert Accepts(emails)[..n] == Accepts(emails[..n]);
      var o1 := ApplyAll(o, Accepts(emails[..n]));
      FoldedAppend(o1.users, emails[n]);
      assert IsUser(o1, emails[n]) || IsPending(o1, emails[n]);
    }
  }

  /** The whole story, among other people's acts: a pass invites, everyone accepts, and the next pass adds
      them all. Only expiry and departure of somebody listed are excluded, and only where they matter. */
  lemma InviteAcceptJoin(s: Sys, sched: Schedule, kube: Kube, clock: Clock, kube': Kube, clock': Clock)
    requires ValidOrg(s.world.org) && AllWell(kube) && AllWell(kube') && s.cr.emails != []
    requires Gentle(sched, |s.world.log|, |Pass(s, sched, kube, clock).sys.world.log|, s.cr.emails)
    requires var p := Pass(s, sched, kube, clock).sys;
             var accepted := p.(world := World(ApplyAll(p.world.org, Accepts(s.cr.emails)), p.world.log));
             Smooth(sched, |p.world.log|, |Pass(accepted, sched, kube', clock').sys.world.log|, s.cr.emails)
    ensures var p := Pass(s, sched, kube, clock).sys;
            var accepted := p.(world := World(ApplyAll(p.world.org, Accepts(s.cr.emails)), p.world.log));
            var q := Pass(accepted, sched, kube', clock');
            && AllAdded(q, s.cr.emails)
            && (Held(sched, |p.world.log|, |q.sys.world.log|, q.listed.value, s.cr.emails) ==> AllOnTheTeam(q, s.cr.emails))
  {
    hide Pass, AllAdded, AllOnTheTeam, ValidOrg, Lower, SmoothTick, GentleTick, HeldTick;
    var p := Pass(s, sched, kube, clock).sys;
    PassInvitesAll(s, sched, kube, clock);
    PassKeepsValid(s, sched, kube, clock);
    AcceptsMakeUsers(p.world.org, s.cr.emails);
    StepsKeepValid(p.world.org, Accepts(s.cr.emails));
    var accepted := p.(world := World(ApplyAll(p.world.org, Accepts(s.cr.emails)), p.world.log));
    PassConverges(accepted, sched, kube', clock');
  }
}
