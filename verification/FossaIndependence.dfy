/** Two passes that differ only in the stored status and the clock act alike. */
module FossaIndependence {
  import opened Options
  import opened FossaService
  import opened FossaPass
  import Text

  /** Equal up to timestamps. */
  predicate SameNews(a: Invitation, b: Invitation) {
    a.email == b.email && a.status == b.status && a.message == b.message
  }

  predicate SameList(a: seq<Invitation>, b: seq<Invitation>) {
    |a| == |b| && forall i :: 0 <= i < |a| ==> SameNews(a[i], b[i])
  }

  lemma SameInvite(w: World, sched: Schedule, users: set<string>, email: string,
                   index: map<string, Invitation>, now: int, index': map<string, Invitation>, now': int)
    ensures var (w1, a) := InviteOne(w, sched, users, index, email, now);
      var (w2, b) := InviteOne(w, sched, users, index', email, now');
      w1 == w2 && SameNews(a, b)
  {
  }

  lemma {:induction false} SameInvites(w: World, sched: Schedule, users: set<string>, emails: seq<string>, n: nat,
                      index: map<string, Invitation>, clock: Clock, index': map<string, Invitation>, clock': Clock)
    requires n <= |emails|
    ensures var (w1, a) := InviteFirst(w, sched, users, index, emails, clock, n);
      var (w2, b) := InviteFirst(w, sched, users, index', emails, clock', n);
      w1 == w2 && SameList(a, b)
  {
    hide InviteOne;
    if n > 0 {
      SameInvites(w, sched, users, emails, n - 1, index, clock, index', clock');
      var (w1, a) := InviteFirst(w, sched, users, index, emails, clock, n - 1);
      SameInvite(w1, sched, users, emails[n - 1], index, clock.invite(n - 1), index', clock'.invite(n - 1));
    }
  }

  lemma SameJoin(w: World, sched: Schedule, team: int, members: set<string>, a: Invitation, now: int, b: Invitation, now': int)
    requires SameNews(a, b)
    ensures var (w1, a') := JoinOne(w, sched, team, members, a, now);
      var (w2, b') := JoinOne(w, sched, team, members, b, now');
      w1 == w2 && SameNews(a', b')
  {
    hide Execute;
  }

  lemma {:induction false} SameJoins(w: World, sched: Schedule, team: int, members: set<string>,
                    list: seq<Invitation>, clock: Clock, list': seq<Invitation>, clock': Clock, n: nat)
    requires SameList(list, list') && n <= |list|
    ensures var (w1, a) := JoinFirst(w, sched, team, members, list, clock, n);
      var (w2, b) := JoinFirst(w, sched, team, members, list', clock', n);
      w1 == w2 && SameList(a, b)
  {
    hide JoinOne;
    if n > 0 {
      SameJoins(w, sched, team, members, list, clock, list', clock', n - 1);
      var (w1, _) := JoinFirst(w, sched, team, members, list, clock, n - 1);
      SameJoin(w1, sched, team, members, list[n - 1], clock.member(n - 1), list'[n - 1], clock'.member(n - 1));
    }
  }

  lemma {:induction false} SameTally(a: seq<Invitation>, b: seq<Invitation>, s: Status)
    requires SameList(a, b)
    ensures Tally(a, s) == Tally(b, s)
    decreases |a|
  {
    if a != [] {
      var n := |a| - 1;
      SameTally(a[..n], b[..n], s);
      assert SameNews(a[n], b[n]);
    }
  }

  lemma SameInviteAll(w: World, sched: Schedule, emails: seq<string>, stored: seq<Invitation>, clock: Clock,
                      stored': seq<Invitation>, clock': Clock)
    ensures var (wa, a, fa) := InviteAll(w, sched, emails, stored, clock);
      var (wb, b, fb) := InviteAll(w, sched, emails, stored', clock');
      wa == wb && SameList(a, b)
  {
    hide InviteFirst, Execute;
    var (w1, users) := Perform(w, sched, FetchUsers);
    if users.Emails? {
      SameInvites(w1, sched, Text.Folded(users.list), emails, |emails|, Index(stored), clock, Index(stored'), clock');
    }
  }

  lemma SameJoinAll(w: World, sched: Schedule, team: int, list: seq<Invitation>, clock: Clock,
                    list': seq<Invitation>, clock': Clock)
    requires SameList(list, list')
    ensures var (wa, a) := JoinAll(w, sched, team, list, clock);
      var (wb, b) := JoinAll(w, sched, team, list', clock');
      wa == wb && SameList(a, b)
  {
    hide JoinFirst, Execute;
    var (w1, members) := Perform(w, sched, FetchTeamUserEmails(team));
    if members.Emails? {
      SameJoins(w1, sched, team, Text.Folded(members.list), list, clock, list', clock', |list|);
    }
  }

  lemma SamePending(a: seq<Invitation>, b: seq<Invitation>)
    requires SameList(a, b)
    ensures SomePending(a) <==> SomePending(b)
  {
    forall i | 0 <= i < |a| ensures a[i].status == b[i].status { assert SameNews(a[i], b[i]); }
  }

  lemma SameUserStage(w: World, sched: Schedule, cr: Resource, cr': Resource, team: int, clock: Clock, clock': Clock)
    requires cr.emails == cr'.emails
    ensures var (w1, r1, q1) := UserStage(w, sched, cr, team, clock);
      var (w2, r2, q2) := UserStage(w, sched, cr', team, clock');
      w1 == w2 && q1 == q2 && SameList(r1.invitations, r2.invitations)
  {
    hide InviteAll, JoinAll, Verdict, Upsert, Tally;
    if cr.emails != [] {
      var (w1, a, _) := InviteAll(w, sched, cr.emails, cr.invitations, clock);
      var (_, b, _) := InviteAll(w, sched, cr.emails, cr'.invitations, clock');
      SameInviteAll(w, sched, cr.emails, cr.invitations, clock, cr'.invitations, clock');
      SamePending(a, b);
      SameJoinAll(w1, sched, team, a, clock, b, clock');
      var la := if team > 0 then JoinAll(w1, sched, team, a, clock).1 else a;
      var lb := if team > 0 then JoinAll(w1, sched, team, b, clock').1 else b;
      SameTally(la, lb, Accepted);
    }
  }

  /** The two systems want the same thing of the same service; their stored status may differ. */
  predicate SameDemand(s: Sys, t: Sys) {
    && s.world == t.world && s.configMap == t.configMap && s.mapWrites == t.mapWrites
    && s.cr.ref == t.cr.ref && s.cr.project == t.cr.project && s.cr.emails == t.cr.emails
    && s.cr.annotation == t.cr.annotation
  }

  /** Independence: under one schedule, with or without faults and interference, the stored status and
      the clock decide no call, no status and no message; in particular the test of the age of an
      old invitation decides nothing. */
  lemma PassIgnoresHistory(s: Sys, t: Sys, sched: Schedule, kube: Kube, clock: Clock, clock': Clock)
    requires SameDemand(s, t)
    ensures var p := Pass(s, sched, kube, clock);
      var q := Pass(t, sched, kube, clock');
      && p.sys.world == q.sys.world && p.sys.configMap == q.sys.configMap && p.sys.mapWrites == q.sys.mapWrites
      && p.requeue == q.requeue && p.failed == q.failed && p.listed == q.listed
      && (p.listed.Some? ==> SameList(p.sys.cr.invitations, q.sys.cr.invitations))
  {
    hide EnsureTeam, UserStage, Upsert;
    if kube.credentials.Credentials? {
      var (w1, got) := EnsureTeam(s.world, sched, s.cr.project);
      if got.TeamIs? {
        var org := kube.credentials.organization;
        var a := SetCondition(TeamStep(s.cr, got.team, org, clock.condition(0)), ConfigMapReady, true, ConfigMapCreated, ConfigMapIsReady, clock.condition(1));
        var b := SetCondition(TeamStep(t.cr, got.team, org, clock'.condition(0)), ConfigMapReady, true, ConfigMapCreated, ConfigMapIsReady, clock'.condition(1));
        SameUserStage(w1, sched, a, b, got.team.id, clock, clock');
      }
    }
  }
}
