/** How often one pass may invite an address. */
module FossaSends {
  import opened Text
  import opened FossaService
  import opened FossaPass
  import opened FossaHistory

  /** How often the spec lists the address, letter case aside. */
  function Listings(emails: seq<string>, key: string): nat {
    if emails == [] then 0
    else Listings(emails[..|emails| - 1], key) + (if Lower(emails[|emails| - 1]) == key then 1 else 0)
  }

  predicate SendsTo(c: Call, key: string) { c.SendUserInvitation? && Lower(c.email) == key }

  /** The requests to invite the address, successful or not, from a position of the log on. */
  function Sends(log: seq<Entry>, from: nat, key: string): nat {
    if |log| <= from then 0
    else Sends(log[..|log| - 1], from, key) + (if SendsTo(log[|log| - 1].call, key) then 1 else 0)
  }

  lemma SendsPerform(w: World, sched: Schedule, c: Call, from: nat, key: string)
    requires from <= |w.log|
    ensures Sends(Perform(w, sched, c).0.log, from, key) == Sends(w.log, from, key) + (if SendsTo(c, key) then 1 else 0)
  {
    hide Execute, ApplyAll, Lower;
    var w1 := Perform(w, sched, c).0;
    assert w1.log[..|w1.log| - 1] == w.log;
  }

  /* ----- never more often than it is listed ----- */

  lemma InviteOneSends(w: World, sched: Schedule, users: set<string>, index: map<string, Invitation>, email: string,
                       now: int, from: nat, key: string)
    requires from <= |w.log|
    ensures Sends(InviteOne(w, sched, users, index, email, now).0.log, from, key)
         <= Sends(w.log, from, key) + (if Lower(email) == key then 1 else 0)
  {
    hide Perform, Lower, Sends;
    var check := HasPendingInvitation(email);
    SendsPerform(w, sched, check, from, key);
    PerformGrows(w, sched, check);
    SendsPerform(Perform(w, sched, check).0, sched, SendUserInvitation(email), from, key);
  }

  lemma PerformGrows(w: World, sched: Schedule, c: Call)
    ensures w.log <= Perform(w, sched, c).0.log && |Perform(w, sched, c).0.log| == |w.log| + 1
  {
  }

  lemma {:induction false} InviteFirstSends(w: World, sched: Schedule, users: set<string>, index: map<string, Invitation>,
                                            emails: seq<string>, clock: Clock, n: nat, from: nat, key: string)
    requires n <= |emails| && from <= |w.log|
    ensures Sends(InviteFirst(w, sched, users, index, emails, clock, n).0.log, from, key)
         <= Sends(w.log, from, key) + Listings(emails[..n], key)
  {
    hide InviteOne, Lower, Sends;
    if n > 0 {
      InviteFirstSends(w, sched, users, index, emails, clock, n - 1, from, key);
      var w1 := InviteFirst(w, sched, users, index, emails, clock, n - 1).0;
      InviteOneSends(w1, sched, users, index, emails[n - 1], clock.invite(n - 1), from, key);
      assert emails[..n][..n - 1] == emails[..n - 1];
    }
  }

  lemma JoinOneSends(w: World, sched: Schedule, team: int, members: set<string>, inv: Invitation, now: int, from: nat,
                     key: string)
    requires from <= |w.log|
    ensures Sends(JoinOne(w, sched, team, members, inv, now).0.log, from, key) == Sends(w.log, from, key)
  {
    hide Perform, Lower, Sends;
    SendsPerform(w, sched, AddUserToTeamByEmail(team, inv.email, 0), from, key);
  }

  lemma {:induction false} JoinFirstSends(w: World, sched: Schedule, team: int, members: set<string>,
                                          list: seq<Invitation>, clock: Clock, n: nat, from: nat, key: string)
    requires n <= |list| && from <= |w.log|
    ensures Sends(JoinFirst(w, sched, team, members, list, clock, n).0.log, from, key) == Sends(w.log, from, key)
  {
    hide JoinOne, Sends;
    if n > 0 {
      JoinFirstSends(w, sched, team, members, list, clock, n - 1, from, key);
      var w1 := JoinFirst(w, sched, team, members, list, clock, n - 1).0;
      JoinOneSends(w1, sched, team, members, list[n - 1], clock.member(n - 1), from, key);
    }
  }

  lemma InviteAllSends(w: World, sched: Schedule, emails: seq<string>, stored: seq<Invitation>, clock: Clock, from: nat,
                       key: string)
    requires from <= |w.log|
    ensures Sends(InviteAll(w, sched, emails, stored, clock).0.log, from, key)
         <= Sends(w.log, from, key) + Listings(emails, key)
  {
    hide Perform, InviteFirst, Sends;
    var (w1, users) := Perform(w, sched, FetchUsers);
    PerformGrows(w, sched, FetchUsers);
    SendsPerform(w, sched, FetchUsers, from, key);
    if users.Emails? {
      InviteFirstSends(w1, sched, Folded(users.list), Index(stored), emails, clock, |emails|, from, key);
      assert emails[..|emails|] == emails;
    }
  }

  lemma JoinAllSends(w: World, sched: Schedule, team: int, list: seq<Invitation>, clock: Clock, from: nat, key: string)
    requires from <= |w.log|
    ensures Sends(JoinAll(w, sched, team, list, clock).0.log, from, key) == Sends(w.log, from, key)
  {
    hide Perform, JoinFirst, Sends;
    var (w1, members) := Perform(w, sched, FetchTeamUserEmails(team));
    PerformGrows(w, sched, FetchTeamUserEmails(team));
    SendsPerform(w, sched, FetchTeamUserEmails(team), from, key);
    if members.Emails? {
      JoinFirstSends(w1, sched, team, Folded(members.list), list, clock, |list|, from, key);
    }
  }

  lemma StageSends(w: World, sched: Schedule, cr: Resource, team: int, clock: Clock, from: nat, key: string)
    requires from <= |w.log|
    ensures Sends(UserStage(w, sched, cr, team, clock).0.log, from, key) <= Sends(w.log, from, key) + Listings(cr.emails, key)
  {
    hide InviteAll, JoinAll, Sends, Listings, Verdict, Upsert, Tally;
    var (w1, invited, _) := InviteAll(w, sched, cr.emails, cr.invitations, clock);
    InviteAllSends(w, sched, cr.emails, cr.invitations, clock, from, key);
    JoinAllSends(w1, sched, team, invited, clock, from, key);
  }

  lemma TeamSends(w: World, sched: Schedule, name: string, from: nat, key: string)
    requires from <= |w.log|
    ensures Sends(EnsureTeam(w, sched, name).0.log, from, key) == Sends(w.log, from, key)
  {
    hide Perform, Sends;
    PerformGrows(w, sched, FetchTeam(name));
    SendsPerform(w, sched, FetchTeam(name), from, key);
    SendsPerform(Perform(w, sched, FetchTeam(name)).0, sched, CreateTeam(name), from, key);
  }

  /** Under every schedule, a pass asks to invite an address at most as often as the spec lists it. */
  lemma PassSendsAreListed(s: Sys, sched: Schedule, kube: Kube, clock: Clock, key: string)
    ensures Sends(Pass(s, sched, kube, clock).sys.world.log, |s.world.log|, key) <= Listings(s.cr.emails, key)
  {
    var from := |s.world.log|;
    assert Sends(s.world.log, from, key) == 0;
    hide EnsureTeam, UserStage, Upsert, Sends, Listings;
    var (w1, got) := EnsureTeam(s.world, sched, s.cr.project);
    TeamSends(s.world, sched, s.cr.project, from, key);
    if kube.credentials.Credentials? && got.TeamIs? {
      var cr1 := TeamStep(s.cr, got.team, kube.credentials.organization, clock.condition(0));
      var cr2 := SetCondition(cr1, ConfigMapReady, true, ConfigMapCreated, ConfigMapIsReady, clock.condition(1));
      StageSends(w1, sched, cr2, got.team.id, clock, from, key);
    }
  }

  lemma {:induction false} TwoSends(log: seq<Entry>, from: nat, j: nat, k: nat, key: string)
    requires from <= j < |log| && SendsTo(log[j].call, key)
    requires k < |log| && (j < k ==> SendsTo(log[k].call, key)) && j <= k
    ensures Sends(log, from, key) >= if j < k then 2 else 1
  {
    hide SendsTo;
    var n := |log| - 1;
    if k < n {
      TwoSends(log[..n], from, j, k, key);
    } else if j < k {
      TwoSends(log[..n], from, j, j, key);
    }
  }

  /* ----- and that often, if the world forgets it each time ----- */

  /** No two calls of the log from a position on invited the address. */
  ghost predicate InvitedOnce(log: seq<Entry>, from: nat, key: string) {
    forall j, k :: from <= j < k < |log| ==> !(Invites(log[j], key) && Invites(log[k], key))
  }

  /** Before every call the address expires and leaves. */
  ghost predicate Forgetful(sched: Schedule, email: string) {
    forall k :: 0 <= k < |sched| ==> sched[k] == Tick([Expire(email), Leave(email)], NoFault)
  }

  lemma Forgotten(o: Org, email: string)
    ensures !Known(ApplyAll(o, [Expire(email), Leave(email)]), Lower(email))
  {
    hide Without, Lower;
    assert [Expire(email), Leave(email)][..1] == [Expire(email)] && [Expire(email)][..0] == [];
    assert ApplyAll(o, []) == o;
    assert ApplyAll(o, [Expire(email)]) == ApplyStep(o, Expire(email));
  }

  lemma ForgetfulPerform(w: World, sched: Schedule, email: string, c: Call)
    requires Forgetful(sched, email) && |w.log| < |sched|
    ensures var (w1, reply) := Perform(w, sched, c);
            var seen := ApplyAll(w.org, [Expire(email), Leave(email)]);
            && !Known(seen, Lower(email)) && w1.log == w.log + [Entry(c, reply, seen, w1.org)]
            && reply == Execute(seen, c).1
  {
    hide ApplyAll, Execute, Known;
    Forgotten(w.org, email);
  }

  lemma ForgetfulInvite(w: World, sched: Schedule, users: set<string>, index: map<string, Invitation>, email: string,
                        now: int, x: string)
    requires Forgetful(sched, x) && |w.log| + 1 < |sched| && Lower(email) == Lower(x) && Lower(x) !in users
    ensures var log := InviteOne(w, sched, users, index, email, now).0.log;
            |log| == |w.log| + 2 && Invites(log[|w.log| + 1], Lower(x))
  {
    hide ApplyAll, Lower, Perform, Folded;
    ForgetfulPerform(w, sched, x, HasPendingInvitation(email));
    var (w1, check) := Perform(w, sched, HasPendingInvitation(email));
    assert check == Flag(false);
    ForgetfulPerform(w1, sched, x, SendUserInvitation(email));
  }

  lemma {:induction false} InviteFirstGrows(w: World, sched: Schedule, users: set<string>, index: map<string, Invitation>,
                                            emails: seq<string>, clock: Clock, m: nat, n: nat)
    requires m <= n <= |emails|
    ensures var short, long := InviteFirst(w, sched, users, index, emails, clock, m).0.log,
                               InviteFirst(w, sched, users, index, emails, clock, n).0.log;
            short <= long && |long| <= |short| + 2 * (n - m)
  {
    hide InviteOne;
    if m < n {
      InviteFirstGrows(w, sched, users, index, emails, clock, m, n - 1);
      InviteOneGrows(InviteFirst(w, sched, users, index, emails, clock, n - 1).0, sched, users, index, emails[n - 1],
                     clock.invite(n - 1));
    }
  }

  lemma InviteOneGrows(w: World, sched: Schedule, users: set<string>, index: map<string, Invitation>, email: string, now: int)
    ensures |InviteOne(w, sched, users, index, email, now).0.log| <= |w.log| + 2
  {
    hide Execute, ApplyAll;
  }

  lemma FirstOfNone(w: World, sched: Schedule, users: set<string>, index: map<string, Invitation>, emails: seq<string>,
                    clock: Clock)
    ensures InviteFirst(w, sched, users, index, emails, clock, 0).0 == w
  {
  }

  lemma FirstAndNext(w: World, sched: Schedule, users: set<string>, index: map<string, Invitation>, emails: seq<string>,
                     clock: Clock, i: nat)
    requires i < |emails|
    ensures InviteFirst(w, sched, users, index, emails, clock, i + 1).0
         == InviteOne(InviteFirst(w, sched, users, index, emails, clock, i).0, sched, users, index, emails[i], clock.invite(i)).0
  {
    hide InviteOne;
  }

  /** A listed address is invited in its turn. */
  lemma ListedIsInvited(w: World, sched: Schedule, users: set<string>, index: map<string, Invitation>, emails: seq<string>,
                        clock: Clock, i: nat, x: string) returns (k: nat)
    requires i < |emails| && Lower(emails[i]) == Lower(x) && Lower(x) !in users
    requires Forgetful(sched, x) && |w.log| + 2 * |emails| <= |sched|
    ensures var long := InviteFirst(w, sched, users, index, emails, clock, |emails|).0.log;
            |InviteFirst(w, sched, users, index, emails, clock, i).0.log| <= k
              < |InviteFirst(w, sched, users, index, emails, clock, i + 1).0.log| <= |long| && Invites(long[k], Lower(x))
  {
    hide InviteOne, InviteFirst, Lower, Forgetful, Invites;
    FirstOfNone(w, sched, users, index, emails, clock);
    FirstAndNext(w, sched, users, index, emails, clock, i);
    var w1 := InviteFirst(w, sched, users, index, emails, clock, i).0;
    var w2 := InviteFirst(w, sched, users, index, emails, clock, i + 1).0;
    InviteFirstGrows(w, sched, users, index, emails, clock, 0, i);
    InviteFirstGrows(w, sched, users, index, emails, clock, i + 1, |emails|);
    ForgetfulInvite(w1, sched, users, index, emails[i], clock.invite(i), x);
    k := |w1.log| + 1;
    assert w2.log[k] == InviteFirst(w, sched, users, index, emails, clock, |emails|).0.log[k];
  }

  /** The cluster lets a pass get to its invitations. */
  predicate Reaches(kube: Kube) {
    kube.credentials.Credentials? && !kube.ownerFails && !kube.mapGetFails && !kube.mapWriteFails
  }

  lemma ForgetfulTeam(w: World, sched: Schedule, name: string, x: string)
    requires Forgetful(sched, x) && |w.log| + 2 <= |sched|
    ensures var (w1, got) := EnsureTeam(w, sched, name); got.TeamIs? && |w1.log| <= |w.log| + 2
  {
    hide ApplyAll, Known, Lower, Perform;
    ForgetfulPerform(w, sched, x, FetchTeam(name));
    ForgetfulPerform(Perform(w, sched, FetchTeam(name)).0, sched, x, CreateTeam(name));
  }

  lemma StageInvitesTwice(w: World, sched: Schedule, cr: Resource, team: int, clock: Clock, i: nat, j: nat)
    requires i < j < |cr.emails| && Lower(cr.emails[i]) == Lower(cr.emails[j])
    requires Forgetful(sched, cr.emails[i]) && |w.log| + 1 + 2 * |cr.emails| <= |sched|
    ensures !InvitedOnce(UserStage(w, sched, cr, team, clock).0.log, |w.log|, Lower(cr.emails[i]))
  {
    hide JoinAll, Verdict, Upsert, Tally, InviteFirst, Lower, Perform, Forgetful, Invites, Known, ApplyAll;
    var x := cr.emails[i];
    ForgetfulPerform(w, sched, x, FetchUsers);
    var (w1, users) := Perform(w, sched, FetchUsers);
    UsersForget(ApplyAll(w.org, [Expire(x), Leave(x)]), Lower(x));
    var a := ListedIsInvited(w1, sched, Folded(users.list), Index(cr.invitations), cr.emails, clock, i, x);
    var b := ListedIsInvited(w1, sched, Folded(users.list), Index(cr.invitations), cr.emails, clock, j, x);
    InviteFirstGrows(w1, sched, Folded(users.list), Index(cr.invitations), cr.emails, clock, i + 1, j);
    InviteFirstGrows(w1, sched, Folded(users.list), Index(cr.invitations), cr.emails, clock, 0, i);
    var w2 := InviteAll(w, sched, cr.emails, cr.invitations, clock).0;
    var log := UserStage(w, sched, cr, team, clock).0.log;
    assert w2.log <= log;
    assert log[a] == w2.log[a] && log[b] == w2.log[b];
    FirstOfNone(w1, sched, Folded(users.list), Index(cr.invitations), cr.emails, clock);
    assert |w.log| <= a < b < |log|;
  }

  lemma UsersForget(o: Org, key: string)
    requires !Known(o, key)
    ensures key !in Folded(o.users)
  {
  }

  lemma PassInvitesTwice(s: Sys, kube: Kube, clock: Clock, i: nat, j: nat)
    requires Reaches(kube) && i < j < |s.cr.emails| && Lower(s.cr.emails[i]) == Lower(s.cr.emails[j])
    ensures exists sched :: !InvitedOnce(Pass(s, sched, kube, clock).sys.world.log, |s.world.log|, Lower(s.cr.emails[i]))
  {
    hide EnsureTeam, UserStage, Upsert, Lower, InvitedOnce;
    var x := s.cr.emails[i];
    var n := |s.world.log| + 3 + 2 * |s.cr.emails|;
    var sched := seq(n, k requires 0 <= k < n => Tick([Expire(x), Leave(x)], NoFault));
    assert Forgetful(sched, x);
    hide Forgetful;
    ForgetfulTeam(s.world, sched, s.cr.project, x);
    var (w1, got) := EnsureTeam(s.world, sched, s.cr.project);
    var cr1 := TeamStep(s.cr, got.team, kube.credentials.organization, clock.condition(0));
    var cr2 := SetCondition(cr1, ConfigMapReady, true, ConfigMapCreated, ConfigMapIsReady, clock.condition(1));
    StageInvitesTwice(w1, sched, cr2, got.team.id, clock, i, j);
    assert Pass(s, sched, kube, clock).sys.world == UserStage(w1, sched, cr2, got.team.id, clock).0;
    OnceFromEarlier(Pass(s, sched, kube, clock).sys.world.log, |s.world.log|, |w1.log|, Lower(x));
  }

  lemma OnceFromEarlier(log: seq<Entry>, from: nat, later: nat, key: string)
    requires from <= later && !InvitedOnce(log, later, key)
    ensures !InvitedOnce(log, from, key)
  {
    hide Invites;
  }

  lemma {:induction false} ListedTwice(emails: seq<string>, key: string)
    ensures Listings(emails, key) >= 1 <==> exists i :: 0 <= i < |emails| && Lower(emails[i]) == key
    ensures Listings(emails, key) >= 2 <==> exists i, j :: 0 <= i < j < |emails| && Lower(emails[i]) == Lower(emails[j]) == key
  {
    hide Lower;
    if emails != [] {
      var n := |emails| - 1;
      var rest := emails[..n];
      ListedTwice(rest, key);
      assert forall i :: 0 <= i < n ==> rest[i] == emails[i];
      if Listings(rest, key) >= 1 {
        var i :| 0 <= i < n && Lower(rest[i]) == key;
        assert Lower(emails[i]) == key;
      }
      if Listings(rest, key) >= 2 {
        var i, j :| 0 <= i < j < n && Lower(rest[i]) == Lower(rest[j]) == key;
        assert Lower(emails[i]) == Lower(emails[j]) == key;
      }
    }
  }

  lemma DistinctListings(emails: seq<string>)
    ensures DistinctFold(emails) <==> forall key :: Listings(emails, key) <= 1
  {
    hide Lower, Listings;
    if DistinctFold(emails) {
      forall key ensures Listings(emails, key) <= 1 {
        ListedTwice(emails, key);
      }
    } else {
      var i, j :| 0 <= i < j < |emails| && Lower(emails[i]) == Lower(emails[j]);
      ListedTwice(emails, Lower(emails[i]));
    }
  }

  /** Whatever happens around it, the pass invites the address at most once. */
  ghost predicate NeverTwice(s: Sys, kube: Kube, clock: Clock, key: string) {
    forall sched :: InvitedOnce(Pass(s, sched, kube, clock).sys.world.log, |s.world.log|, key)
  }

  /** A pass can invite an address twice, under some schedule, if and only if the spec lists it more
      than once, letter case aside. */
  lemma InvitedOnceExactlyWhen(s: Sys, kube: Kube, clock: Clock, key: string)
    requires Reaches(kube)
    ensures NeverTwice(s, kube, clock, key) <==> Listings(s.cr.emails, key) <= 1
  {
    hide Pass, Lower, Listings, Sends;
    if Listings(s.cr.emails, key) <= 1 {
      forall sched ensures InvitedOnce(Pass(s, sched, kube, clock).sys.world.log, |s.world.log|, key) {
        var log := Pass(s, sched, kube, clock).sys.world.log;
        PassSendsAreListed(s, sched, kube, clock, key);
        forall j, k | |s.world.log| <= j < k < |log| ensures !(Invites(log[j], key) && Invites(log[k], key)) {
          if Invites(log[j], key) && Invites(log[k], key) {
            TwoSends(log, |s.world.log|, j, k, key);
          }
        }
      }
    } else {
      ListedTwice(s.cr.emails, key);
      var i, j :| 0 <= i < j < |s.cr.emails| && Lower(s.cr.emails[i]) == Lower(s.cr.emails[j]) == key;
      PassInvitesTwice(s, kube, clock, i, j);
    }
  }

  /** No address at all can be invited twice in a pass if and only if the listed addresses differ by
      more than letter case. */
  lemma NobodyInvitedTwiceExactlyWhen(s: Sys, kube: Kube, clock: Clock)
    requires Reaches(kube)
    ensures (forall key :: NeverTwice(s, kube, clock, key)) <==> DistinctFold(s.cr.emails)
  {
    hide NeverTwice, Listings, DistinctFold;
    DistinctListings(s.cr.emails);
    if DistinctFold(s.cr.emails) {
      forall key ensures NeverTwice(s, kube, clock, key) {
        InvitedOnceExactlyWhen(s, kube, clock, key);
      }
    } else {
      var key :| Listings(s.cr.emails, key) > 1;
      InvitedOnceExactlyWhen(s, kube, clock, key);
    }
  }
}
