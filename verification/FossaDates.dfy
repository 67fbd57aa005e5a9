/** How long the date of an invitation lasts. */
module FossaDates {
  import opened Options
  import opened Text
  import opened FossaService
  import opened FossaPass

  /** Call k asks whether an invitation of the address is pending. */
  predicate AsksAt(log: seq<Entry>, k: nat, email: string) {
    k < |log| && log[k].call == HasPendingInvitation(email)
  }

  ghost predicate Asked(log: seq<Entry>, from: nat, email: string) {
    exists k: nat :: from <= k && AsksAt(log, k, email)
  }

  /** Whenever the service was asked, it answered that the invitation is pending. */
  ghost predicate StillInvited(log: seq<Entry>, from: nat, email: string) {
    forall k: nat :: from <= k && AsksAt(log, k, email) ==> log[k].reply == Flag(true)
  }

  /** What the calls from a position on make of a remembered date. */
  ghost predicate DateFollows(log: seq<Entry>, from: nat, email: string, date: Option<int>, was: Option<int>, now: int) {
    && (!Asked(log, from, email) ==> date == was)
    && (StillInvited(log, from, email) && was.Some? ==> date == was)
    && (Asked(log, from, email) && StillInvited(log, from, email) && was.None? ==> date == Some(now))
    && (!StillInvited(log, from, email) ==> date == None || date == Some(now))
  }

  /** Logs that agree on the questions about an address agree on all that is said of it. */
  lemma SameQuestions(log: seq<Entry>, from: nat, log': seq<Entry>, from': nat, email: string)
    requires forall k: nat :: from <= k && AsksAt(log, k, email) ==>
      from' <= k && AsksAt(log', k, email) && log'[k] == log[k]
    requires forall k: nat :: from' <= k && AsksAt(log', k, email) ==>
      from <= k && AsksAt(log, k, email) && log'[k] == log[k]
    ensures Asked(log, from, email) == Asked(log', from', email)
    ensures StillInvited(log, from, email) == StillInvited(log', from', email)
  {
  }

  lemma InviteOneDate(w: World, sched: Schedule, users: set<string>, index: map<string, Invitation>, email: string, now: int)
    ensures var (w', inv) := InviteOne(w, sched, users, index, email, now);
            DateFollows(w'.log, |w.log|, email, inv.invitedAt, Remembered(index, email), now)
  {
    hide Lower, ApplyAll, At, Remembered;
    var log := InviteOne(w, sched, users, index, email, now).0.log;
    assert Lower(email) !in users ==> AsksAt(log, |w.log|, email);
  }

  lemma InviteOneQuestions(w: World, sched: Schedule, users: set<string>, index: map<string, Invitation>, email: string,
                           now: int, other: string)
    requires other != email
    ensures !Asked(InviteOne(w, sched, users, index, email, now).0.log, |w.log|, other)
  {
    hide Lower, ApplyAll, At, Remembered, Execute;
  }

  ghost predicate NotIn(emails: seq<string>, n: nat, email: string)
    requires n <= |emails|
  {
    forall i :: 0 <= i < n ==> emails[i] != email
  }

  /** A longer log with no further question about the address. */
  lemma NoFurtherQuestion(log: seq<Entry>, more: seq<Entry>, from: nat, email: string)
    requires log <= more && !Asked(more, |log|, email)
    ensures Asked(log, from, email) == Asked(more, from, email)
    ensures StillInvited(log, from, email) == StillInvited(more, from, email)
  {
    forall k: nat | AsksAt(more, k, email) ensures k < |log| && AsksAt(log, k, email) && log[k] == more[k] {
      assert k < |log|;
    }
    SameQuestions(log, from, more, from, email);
  }

  /** A later start with no question about the address before it. */
  lemma NoEarlierQuestion(log: seq<Entry>, more: seq<Entry>, from: nat, email: string)
    requires log <= more && from <= |log| && !Asked(log, from, email)
    ensures Asked(more, |log|, email) == Asked(more, from, email)
    ensures StillInvited(more, |log|, email) == StillInvited(more, from, email)
  {
    forall k: nat | from <= k && AsksAt(more, k, email) ensures |log| <= k {
      assert k < |log| ==> AsksAt(log, k, email);
    }
    SameQuestions(more, |log|, more, from, email);
  }

  lemma {:induction false} InviteFirstQuestions(w: World, sched: Schedule, users: set<string>,
                                                index: map<string, Invitation>, emails: seq<string>, clock: Clock, n: nat,
                                                email: string)
    requires n <= |emails| && NotIn(emails, n, email)
    ensures !Asked(InviteFirst(w, sched, users, index, emails, clock, n).0.log, |w.log|, email)
  {
    if n > 0 {
      hide InviteOne, Asked, StillInvited;
      InviteFirstQuestions(w, sched, users, index, emails, clock, n - 1, email);
      var w1 := InviteFirst(w, sched, users, index, emails, clock, n - 1).0;
      InviteOneQuestions(w1, sched, users, index, emails[n - 1], clock.invite(n - 1), email);
      NoFurtherQuestion(w1.log, InviteFirst(w, sched, users, index, emails, clock, n).0.log, |w.log|, email);
    } else {
      assert forall k: nat :: |w.log| <= k ==> !AsksAt(w.log, k, email);
    }
  }

  lemma {:induction false} InviteFirstDates(w: World, sched: Schedule, users: set<string>, index: map<string, Invitation>,
                                            emails: seq<string>, clock: Clock, n: nat, i: nat)
    requires i < n <= |emails| && forall j, k :: 0 <= j < k < |emails| ==> emails[j] != emails[k]
    ensures var (w', list) := InviteFirst(w, sched, users, index, emails, clock, n);
            DateFollows(w'.log, |w.log|, emails[i], list[i].invitedAt, Remembered(index, emails[i]), clock.invite(i))
  {
    hide InviteOne, Asked, StillInvited, Remembered;
    var w1 := InviteFirst(w, sched, users, index, emails, clock, n - 1).0;
    var w2 := InviteFirst(w, sched, users, index, emails, clock, n).0;
    if i < n - 1 {
      InviteFirstDates(w, sched, users, index, emails, clock, n - 1, i);
      InviteOneQuestions(w1, sched, users, index, emails[n - 1], clock.invite(n - 1), emails[i]);
      NoFurtherQuestion(w1.log, w2.log, |w.log|, emails[i]);
    } else {
      InviteOneDate(w1, sched, users, index, emails[i], clock.invite(i));
      InviteFirstQuestions(w, sched, users, index, emails, clock, n - 1, emails[i]);
      NoEarlierQuestion(w1.log, w2.log, |w.log|, emails[i]);
    }
  }

  lemma PerformQuestion(w: World, sched: Schedule, c: Call, email: string)
    requires c != HasPendingInvitation(email)
    ensures w.log <= Perform(w, sched, c).0.log && !Asked(Perform(w, sched, c).0.log, |w.log|, email)
  {
    hide ApplyAll, At, Execute;
  }

  lemma JoinOneQuestions(w: World, sched: Schedule, team: int, members: set<string>, inv: Invitation, now: int, email: string)
    ensures !Asked(JoinOne(w, sched, team, members, inv, now).0.log, |w.log|, email)
  {
    hide Perform, Lower;
    PerformQuestion(w, sched, AddUserToTeamByEmail(team, inv.email, 0), email);
    assert forall k: nat :: |w.log| <= k ==> !AsksAt(w.log, k, email);
  }

  lemma {:induction false} JoinFirstQuestions(w: World, sched: Schedule, team: int, members: set<string>,
                                              list: seq<Invitation>, clock: Clock, n: nat, email: string)
    requires n <= |list|
    ensures !Asked(JoinFirst(w, sched, team, members, list, clock, n).0.log, |w.log|, email)
  {
    if n > 0 {
      hide JoinOne, Asked, StillInvited;
      JoinFirstQuestions(w, sched, team, members, list, clock, n - 1, email);
      var w1 := JoinFirst(w, sched, team, members, list, clock, n - 1).0;
      JoinOneQuestions(w1, sched, team, members, list[n - 1], clock.member(n - 1), email);
      NoFurtherQuestion(w1.log, JoinFirst(w, sched, team, members, list, clock, n).0.log, |w.log|, email);
    } else {
      assert forall k: nat :: |w.log| <= k ==> !AsksAt(w.log, k, email);
    }
  }

  lemma JoinAllQuestions(w: World, sched: Schedule, team: int, list: seq<Invitation>, clock: Clock, email: string)
    ensures !Asked(JoinAll(w, sched, team, list, clock).0.log, |w.log|, email)
  {
    hide Perform, JoinFirst, Asked, StillInvited;
    var (w1, members) := Perform(w, sched, FetchTeamUserEmails(team));
    PerformQuestion(w, sched, FetchTeamUserEmails(team), email);
    if members.Emails? {
      JoinFirstQuestions(w1, sched, team, Folded(members.list), list, clock, |list|, email);
      NoFurtherQuestion(w1.log, JoinAll(w, sched, team, list, clock).0.log, |w.log|, email);
    }
  }

  lemma TeamQuestions(w: World, sched: Schedule, name: string, email: string)
    ensures !Asked(EnsureTeam(w, sched, name).0.log, |w.log|, email)
  {
    hide Perform, Asked, StillInvited;
    var w1 := Perform(w, sched, FetchTeam(name)).0;
    PerformQuestion(w, sched, FetchTeam(name), email);
    PerformQuestion(w1, sched, CreateTeam(name), email);
    if EnsureTeam(w, sched, name).0 != w1 {
      NoFurtherQuestion(w1.log, EnsureTeam(w, sched, name).0.log, |w.log|, email);
    }
  }

  lemma StageDates(w: World, sched: Schedule, cr: Resource, team: int, clock: Clock, i: nat)
    requires i < |cr.emails| && forall j, k :: 0 <= j < k < |cr.emails| ==> cr.emails[j] != cr.emails[k]
    requires UserStage(w, sched, cr, team, clock).1.invitations != []
    ensures var (w', cr', _) := UserStage(w, sched, cr, team, clock);
            && |cr'.invitations| == |cr.emails|
            && DateFollows(w'.log, |w.log|, cr.emails[i], cr'.invitations[i].invitedAt,
                           Remembered(Index(cr.invitations), cr.emails[i]), clock.invite(i))
  {
    hide Perform, InviteFirst, JoinAll, Verdict, Upsert, Tally, Index, Remembered, Asked, StillInvited;
    var email := cr.emails[i];
    var (w1, users) := Perform(w, sched, FetchUsers);
    PerformQuestion(w, sched, FetchUsers, email);
    var (w2, invited, _) := InviteAll(w, sched, cr.emails, cr.invitations, clock);
    var (w', cr', _) := UserStage(w, sched, cr, team, clock);
    assert FollowsAll(invited, cr'.invitations, |invited|);
    InviteFirstDates(w1, sched, Folded(users.list), Index(cr.invitations), cr.emails, clock, |cr.emails|, i);
    NoEarlierQuestion(w1.log, w2.log, |w.log|, email);
    if team > 0 {
      JoinAllQuestions(w2, sched, team, invited, clock, email);
      NoFurtherQuestion(w2.log, w'.log, |w.log|, email);
    }
    assert Follows(invited[i], cr'.invitations[i]);
  }

  lemma PassDates(s: Sys, sched: Schedule, kube: Kube, clock: Clock, i: nat)
    requires i < |s.cr.emails| && forall j, k :: 0 <= j < k < |s.cr.emails| ==> s.cr.emails[j] != s.cr.emails[k]
    requires Pass(s, sched, kube, clock).listed.Some? && Pass(s, sched, kube, clock).sys.cr.invitations != []
    ensures var p := Pass(s, sched, kube, clock).sys;
            && |p.cr.invitations| == |s.cr.emails|
            && DateFollows(p.world.log, |s.world.log|, s.cr.emails[i], p.cr.invitations[i].invitedAt,
                           Remembered(Index(s.cr.invitations), s.cr.emails[i]), clock.invite(i))
  {
    hide EnsureTeam, UserStage, Upsert, Index, Remembered, Asked, StillInvited;
    var (w1, got) := EnsureTeam(s.world, sched, s.cr.project);
    var cr1 := TeamStep(s.cr, got.team, kube.credentials.organization, clock.condition(0));
    var cr2 := SetCondition(cr1, ConfigMapReady, true, ConfigMapCreated, ConfigMapIsReady, clock.condition(1));
    StageDates(w1, sched, cr2, got.team.id, clock, i);
    TeamQuestions(s.world, sched, s.cr.project, s.cr.emails[i]);
    NoEarlierQuestion(w1.log, Pass(s, sched, kube, clock).sys.world.log, |s.world.log|, s.cr.emails[i]);
  }

  lemma {:induction false} IndexOfDistinct(list: seq<Invitation>, i: nat)
    requires i < |list|
    requires forall j, k :: 0 <= j < k < |list| ==> Lower(list[j].email) != Lower(list[k].email)
    ensures Lower(list[i].email) in Index(list) && Index(list)[Lower(list[i].email)] == list[i]
    decreases |list|
  {
    if i < |list| - 1 {
      IndexOfDistinct(list[..|list| - 1], i);
    }
  }

  /** The stored list has one entry per listed address, in order. */
  predicate AnswersSpec(cr: Resource) {
    |cr.invitations| == |cr.emails| && forall i :: 0 <= i < |cr.emails| ==> cr.invitations[i].email == cr.emails[i]
  }

  /** Under every schedule, whatever came before: when the stored list answers addresses that differ by
      more than case and a pass lists them again, an entry keeps its date if the service, whenever it was
      asked about that address, found the invitation pending (a user's address is never asked about), and
      only then, unless the clock happens to show the same time. */
  lemma InvitationDatesAreStable(s: Sys, sched: Schedule, kube: Kube, clock: Clock, i: nat)
    requires AnswersSpec(s.cr) && DistinctFold(s.cr.emails) && i < |s.cr.emails|
    requires Pass(s, sched, kube, clock).listed.Some? && Pass(s, sched, kube, clock).sys.cr.invitations != []
    ensures var p := Pass(s, sched, kube, clock).sys;
            var was := s.cr.invitations[i].invitedAt;
            var invited := StillInvited(p.world.log, |s.world.log|, s.cr.emails[i]);
            && |p.cr.invitations| == |s.cr.emails|
            && (!Asked(p.world.log, |s.world.log|, s.cr.emails[i]) ==> p.cr.invitations[i].invitedAt == was)
            && (was.Some? && invited ==> p.cr.invitations[i].invitedAt == was)
            && (was.None? && invited && Asked(p.world.log, |s.world.log|, s.cr.emails[i]) ==>
                  p.cr.invitations[i].invitedAt == Some(clock.invite(i)))
            && (was.Some? && was.value != clock.invite(i) ==> (p.cr.invitations[i].invitedAt == was <==> invited))
  {
    hide Pass, Asked, StillInvited, Lower;
    forall j, k | 0 <= j < k < |s.cr.emails| ensures s.cr.emails[j] != s.cr.emails[k] {
      assert Lower(s.cr.emails[j]) != Lower(s.cr.emails[k]);
    }
    IndexOfDistinct(s.cr.invitations, i);
    PassDates(s, sched, kube, clock, i);
  }
}
