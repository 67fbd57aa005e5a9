/** Passes with no fault and no interference: their exact effect, and the silence of
    a second pass. */
module FossaQuiet {
  import opened Options
  import opened Text
  import opened FossaService
  import opened FossaPass
  import opened FossaHistory

  /** The calls of the range meet neither interference nor fault. Every range of the empty schedule is quiet. */
  ghost predicate Quiet(sched: Schedule, from: nat, to: nat) {
    forall k :: from <= k < to ==> At(sched, k).before == [] && At(sched, k).fault == NoFault
  }

  predicate AllWell(kube: Kube) {
    && kube.credentials.Credentials?
    && !kube.ownerFails && !kube.mapGetFails && !kube.mapWriteFails && !kube.patchFails && !kube.statusFails
  }

  /** No call of the range could change the service. */
  ghost predicate OnlyReads(log: seq<Entry>, from: nat, to: nat) {
    forall k :: from <= k < to <= |log| ==> !log[k].call.Mutates()
  }

  lemma QuietPerform(w: World, sched: Schedule, c: Call)
    requires Quiet(sched, |w.log|, |w.log| + 1)
    ensures Perform(w, sched, c) == (World(Execute(w.org, c).0, w.log + [Entry(c, Execute(w.org, c).1, w.org, Execute(w.org, c).0)]),
                                     Execute(w.org, c).1)
  {
    assert ApplyAll(w.org, []) == w.org;
  }

  /* ----- invitations ----- */

  /** The addresses that belong to nobody in the organisation. */
  ghost function Strangers(users: set<string>, emails: seq<string>): (r: set<string>)
    ensures forall x :: x in r <==> exists i :: 0 <= i < |emails| && Lower(emails[i]) == x && x !in users
  {
    set e | e in emails && Lower(e) !in users :: Lower(e)
  }

  function Standing(o: Org, email: string): Status {
    if IsUser(o, email) then Accepted else Pending
  }

  lemma QuietInviteOne(w: World, sched: Schedule, users: set<string>, index: map<string, Invitation>, email: string, now: int)
    requires users == Folded(w.org.users)
    requires Quiet(sched, |w.log|, |InviteOne(w, sched, users, index, email, now).0.log|)
    ensures var (w', inv) := InviteOne(w, sched, users, index, email, now);
      && inv.status == Standing(w.org, email)
      && w'.org == w.org.(pending := w.org.pending + if IsUser(w.org, email) then {} else {Lower(email)})
      && (IsUser(w.org, email) || IsPending(w.org, email) ==> OnlyReads(w'.log, |w.log|, |w'.log|))
  {
    var check := HasPendingInvitation(email);
    if !IsUser(w.org, email) {
      QuietPerform(w, sched, check);
      if !IsPending(w.org, email) {
        QuietPerform(Perform(w, sched, check).0, sched, SendUserInvitation(email));
      }
    }
  }

  /** The organisation with more pending invitations and nothing else changed. */
  ghost function WithPending(o: Org, more: set<string>): Org {
    o.(pending := o.pending + more)
  }

  lemma StrangersStep(o: Org, users: set<string>, emails: seq<string>, n: nat)
    requires 0 < n <= |emails| && users == Folded(o.users)
    ensures WithPending(o, Strangers(users, emails[..n])) ==
      var o1 := WithPending(o, Strangers(users, emails[..n - 1]));
      o1.(pending := o1.pending + if IsUser(o, emails[n - 1]) then {} else {Lower(emails[n - 1])})
  {
    var more := if IsUser(o, emails[n - 1]) then {} else {Lower(emails[n - 1])};
    assert emails[..n] == emails[..n - 1] + [emails[n - 1]];
    assert Strangers(users, emails[..n]) == Strangers(users, emails[..n - 1]) + more;
    assert o.pending + Strangers(users, emails[..n]) == o.pending + Strangers(users, emails[..n - 1]) + more;
  }

  lemma NoStrangers(o: Org, users: set<string>)
    ensures WithPending(o, Strangers(users, [])) == o
  {
    assert o.pending + Strangers(users, []) == o.pending;
  }

  /** The two parts of a quiet range. */
  lemma QuietInviteParts(w: World, sched: Schedule, users: set<string>, index: map<string, Invitation>,
                         emails: seq<string>, clock: Clock, n: nat)
    requires 0 < n <= |emails|
    requires Quiet(sched, |w.log|, |InviteFirst(w, sched, users, index, emails, clock, n).0.log|)
    ensures var w1 := InviteFirst(w, sched, users, index, emails, clock, n - 1).0;
      && Quiet(sched, |w.log|, |w1.log|)
      && Quiet(sched, |w1.log|, |InviteOne(w1, sched, users, index, emails[n - 1], clock.invite(n - 1)).0.log|)
  {
    hide InviteOne, At;
  }

  lemma OnlyReadsChain(log: seq<Entry>, more: seq<Entry>, from: nat)
    requires log <= more && OnlyReads(log, from, |log|) && OnlyReads(more, |log|, |more|)
    ensures OnlyReads(more, from, |more|)
  {
  }

  lemma {:induction false} QuietInviteFirst(w: World, sched: Schedule, users: set<string>, index: map<string, Invitation>,
                                            emails: seq<string>, clock: Clock, n: nat)
    requires n <= |emails| && users == Folded(w.org.users)
    requires Quiet(sched, |w.log|, |InviteFirst(w, sched, users, index, emails, clock, n).0.log|)
    ensures var (w', list) := InviteFirst(w, sched, users, index, emails, clock, n);
      && w'.org == WithPending(w.org, Strangers(users, emails[..n]))
      && (forall i :: 0 <= i < n ==> list[i].status == Standing(w.org, emails[i]))
  {
    hide InviteOne, Execute, Strangers, Folded, Lower, Quiet;
    if n == 0 {
      assert emails[..0] == [];
      NoStrangers(w.org, users);
    } else {
      var (w1, list) := InviteFirst(w, sched, users, index, emails, clock, n - 1);
      QuietInviteParts(w, sched, users, index, emails, clock, n);
      QuietInviteFirst(w, sched, users, index, emails, clock, n - 1);
      QuietInviteOne(w1, sched, users, index, emails[n - 1], clock.invite(n - 1));
      StrangersStep(w.org, users, emails, n);
    }
  }

  lemma {:induction false} SilentInviteFirst(w: World, sched: Schedule, users: set<string>, index: map<string, Invitation>,
                                             emails: seq<string>, clock: Clock, n: nat)
    requires n <= |emails| && users == Folded(w.org.users) && AllKnown(w.org, emails)
    requires Quiet(sched, |w.log|, |InviteFirst(w, sched, users, index, emails, clock, n).0.log|)
    ensures OnlyReads(InviteFirst(w, sched, users, index, emails, clock, n).0.log, |w.log|,
                      |InviteFirst(w, sched, users, index, emails, clock, n).0.log|)
  {
    hide InviteOne, Execute, Strangers, Folded, Lower, Quiet;
    if n > 0 {
      var (w1, list) := InviteFirst(w, sched, users, index, emails, clock, n - 1);
      QuietInviteParts(w, sched, users, index, emails, clock, n);
      QuietInviteFirst(w, sched, users, index, emails, clock, n - 1);
      SilentInviteFirst(w, sched, users, index, emails, clock, n - 1);
      QuietInviteOne(w1, sched, users, index, emails[n - 1], clock.invite(n - 1));
      assert IsUser(w.org, emails[n - 1]) || IsPending(w.org, emails[n - 1]);
      assert IsUser(w1.org, emails[n - 1]) || IsPending(w1.org, emails[n - 1]);
      hide OnlyReads;
      OnlyReadsChain(w1.log, InviteFirst(w, sched, users, index, emails, clock, n).0.log, |w.log|);
    } else {
      assert OnlyReads(w.log, |w.log|, |w.log|);
    }
  }

  /** Every address belongs to the organisation or has a pending invitation. */
  ghost predicate AllKnown(o: Org, emails: seq<string>) {
    forall i :: 0 <= i < |emails| ==> IsUser(o, emails[i]) || IsPending(o, emails[i])
  }

  /** A list as step 8.1 leaves it: each address accepted if it belongs to the organisation, else pending. */
  ghost predicate Invited(list: seq<Invitation>, emails: seq<string>, o: Org) {
    && |list| == |emails|
    && forall i :: 0 <= i < |emails| ==> list[i].email == emails[i] && list[i].status == Standing(o, emails[i])
  }

  lemma QuietInviteAll(w: World, sched: Schedule, emails: seq<string>, stored: seq<Invitation>, clock: Clock)
    requires Quiet(sched, |w.log|, |InviteAll(w, sched, emails, stored, clock).0.log|)
    ensures var (w', list, failure) := InviteAll(w, sched, emails, stored, clock);
      && failure.None? && Invited(list, emails, w.org)
      && w'.org == WithPending(w.org, Strangers(Folded(w.org.users), emails))
      && (AllKnown(w.org, emails) ==> OnlyReads(w'.log, |w.log|, |w'.log|))
  {
    hide InviteFirst;
    assert emails[..|emails|] == emails;
    QuietPerform(w, sched, FetchUsers);
    var w1 := Perform(w, sched, FetchUsers).0;
    QuietInviteFirst(w1, sched, Folded(w.org.users), Index(stored), emails, clock, |emails|);
    if AllKnown(w.org, emails) {
      SilentInviteFirst(w1, sched, Folded(w.org.users), Index(stored), emails, clock, |emails|);
    }
    var w' := InviteAll(w, sched, emails, stored, clock).0;
    assert w'.log[|w.log|] == w1.log[|w.log|];
  }

  /* ----- membership ----- */

  /** The organisation with more members on one team and nothing else changed. */
  ghost predicate OnlyTeamGrew(o: Org, o': Org, team: int) {
    && team in o.members && team in o'.members
    && o' == o.(members := o.members[team := o'.members[team]])
    && Folded(o.members[team]) <= Folded(o'.members[team])
  }

  lemma QuietJoinOne(w: World, sched: Schedule, team: int, members: set<string>, inv: Invitation, now: int)
    requires team in w.org.members && members <= Folded(w.org.members[team])
    requires Waiting(inv) ==> IsUser(w.org, inv.email)
    requires Quiet(sched, |w.log|, |JoinOne(w, sched, team, members, inv, now).0.log|)
    ensures var (w', inv') := JoinOne(w, sched, team, members, inv, now);
      && OnlyTeamGrew(w.org, w'.org, team)
      && inv'.status == (if Waiting(inv) then AddedToTeam else inv.status)
      && (Waiting(inv) ==> OnTeam(w'.org, team, inv.email))
      && (Waiting(inv) && Lower(inv.email) in members ==> w' == w)
      && (!Waiting(inv) ==> w' == w)
  {
    assert w.org.members[team := w.org.members[team]] == w.org.members;
    if Waiting(inv) && Lower(inv.email) !in members {
      QuietPerform(w, sched, AddUserToTeamByEmail(team, inv.email, 0));
      FoldedAppend(w.org.members[team], inv.email);
    }
  }

  lemma {:induction false} QuietJoinFirst(w: World, sched: Schedule, team: int, members: set<string>,
                                          list: seq<Invitation>, clock: Clock, n: nat)
    requires n <= |list|
    requires team in w.org.members && members <= Folded(w.org.members[team])
    requires forall i :: 0 <= i < |list| && Waiting(list[i]) ==> IsUser(w.org, list[i].email)
    requires Quiet(sched, |w.log|, |JoinFirst(w, sched, team, members, list, clock, n).0.log|)
    ensures var (w', done) := JoinFirst(w, sched, team, members, list, clock, n);
      && OnlyTeamGrew(w.org, w'.org, team)
      && (forall i :: 0 <= i < n ==> done[i].status == if Waiting(list[i]) then AddedToTeam else list[i].status)
      && (forall i :: 0 <= i < n && Waiting(list[i]) ==> OnTeam(w'.org, team, list[i].email))
      && ((forall i :: 0 <= i < n && Waiting(list[i]) ==> Lower(list[i].email) in members) ==> w' == w)
  {
    hide JoinOne, Folded, Lower, At, Execute;
    assert w.org.members[team := w.org.members[team]] == w.org.members;
    if n > 0 {
      var (w1, done) := JoinFirst(w, sched, team, members, list, clock, n - 1);
      QuietJoinFirst(w, sched, team, members, list, clock, n - 1);
      QuietJoinOne(w1, sched, team, members, list[n - 1], clock.member(n - 1));
    }
  }

  /** The second list marks the waiting entries of the first as added, and they are on the team. */
  ghost predicate Joined(list: seq<Invitation>, before: seq<Invitation>, o: Org, team: int) {
    && |list| == |before|
    && forall i :: 0 <= i < |list| ==>
         && list[i].email == before[i].email
         && list[i].status == (if Waiting(before[i]) then AddedToTeam else before[i].status)
         && (Waiting(before[i]) ==> OnTeam(o, team, before[i].email))
  }

  lemma QuietJoinAll(w: World, sched: Schedule, team: int, list: seq<Invitation>, clock: Clock)
    requires team in w.org.members
    requires forall i :: 0 <= i < |list| && Waiting(list[i]) ==> IsUser(w.org, list[i].email)
    requires Quiet(sched, |w.log|, |JoinAll(w, sched, team, list, clock).0.log|)
    ensures var (w', done) := JoinAll(w, sched, team, list, clock);
      && OnlyTeamGrew(w.org, w'.org, team)
      && Joined(done, list, w'.org, team)
      && ((forall i :: 0 <= i < |list| && Waiting(list[i]) ==> OnTeam(w.org, team, list[i].email)) ==>
            w'.org == w.org && OnlyReads(w'.log, |w.log|, |w'.log|))
  {
    hide JoinFirst;
    QuietPerform(w, sched, FetchTeamUserEmails(team));
    QuietJoinFirst(Perform(w, sched, FetchTeamUserEmails(team)).0, sched, team, Folded(w.org.members[team]), list, clock, |list|);
  }

  /* ----- the whole pass ----- */

  lemma QuietEnsureTeam(w: World, sched: Schedule, name: string)
    requires ValidOrg(w.org)
    requires Quiet(sched, |w.log|, |EnsureTeam(w, sched, name).0.log|)
    ensures var (w', got) := EnsureTeam(w, sched, name);
      && w'.org == (if name in w.org.teams then w.org else AddTeam(w.org, name))
      && name in w'.org.teams && got == TeamIs(Team(w'.org.teams[name], name))
      && got.team.id > 0 && got.team.id in w'.org.members
      && (name in w.org.teams ==> OnlyReads(w'.log, |w.log|, |w'.log|))
  {
    QuietPerform(w, sched, FetchTeam(name));
    if name !in w.org.teams {
      QuietPerform(Perform(w, sched, FetchTeam(name)).0, sched, CreateTeam(name));
    }
  }

  /** Every address is on the team if it belongs to the organisation and pending otherwise. */
  ghost predicate Placed(o: Org, team: int, emails: seq<string>) {
    forall i :: 0 <= i < |emails| ==>
      if IsUser(o, emails[i]) then OnTeam(o, team, emails[i]) else IsPending(o, emails[i])
  }

  /** What a pass without fault and interference has made true. */
  ghost predicate Settled(s: Sys) {
    var o := s.world.org;
    && ValidOrg(o)
    && s.cr.project in o.teams && o.teams[s.cr.project] in o.members
    && s.configMap == Some(ScannerData(s.cr.project, Team(o.teams[s.cr.project], s.cr.project)))
    && Placed(o, o.teams[s.cr.project], s.cr.emails)
  }

  /** The status a list must show in a settled system. */
  ghost predicate Shows(list: seq<Invitation>, emails: seq<string>, o: Org) {
    && |list| == |emails|
    && forall i :: 0 <= i < |emails| ==>
         list[i].email == emails[i] && list[i].status == if IsUser(o, emails[i]) then AddedToTeam else Pending
  }

  lemma QuietInviteAndJoin(w: World, sched: Schedule, emails: seq<string>, stored: seq<Invitation>, team: int, clock: Clock,
                           w1: World, invited: seq<Invitation>, w2: World, list: seq<Invitation>)
    requires team in w.org.members
    requires InviteAll(w, sched, emails, stored, clock).0 == w1 && InviteAll(w, sched, emails, stored, clock).1 == invited
    requires JoinAll(w1, sched, team, invited, clock) == (w2, list)
    requires Quiet(sched, |w.log|, |w2.log|)
    ensures OnlyTeamGrew(WithPending(w.org, Strangers(Folded(w.org.users), emails)), w2.org, team)
    ensures Shows(list, emails, w.org) && Placed(w2.org, team, emails)
  {
    hide InviteAll, JoinAll, Shows, Placed, Strangers, OnlyTeamGrew, Invited, Joined, IsUser;
    QuietInviteAll(w, sched, emails, stored, clock);
    WaitingAreUsers(emails, w.org, w1.org, invited);
    QuietJoinAll(w1, sched, team, invited, clock);
    InvitedThenJoined(emails, w.org, w2.org, team, invited, list);
  }

  lemma WaitingAreUsers(emails: seq<string>, o: Org, o': Org, invited: seq<Invitation>)
    requires Invited(invited, emails, o) && o'.users == o.users
    ensures forall i :: 0 <= i < |invited| && Waiting(invited[i]) ==> IsUser(o', invited[i].email)
  {
  }

  lemma SilentInviteAndJoin(w: World, sched: Schedule, emails: seq<string>, stored: seq<Invitation>, team: int, clock: Clock,
                            w1: World, invited: seq<Invitation>, w2: World, list: seq<Invitation>)
    requires team in w.org.members && Placed(w.org, team, emails)
    requires InviteAll(w, sched, emails, stored, clock).0 == w1 && InviteAll(w, sched, emails, stored, clock).1 == invited
    requires JoinAll(w1, sched, team, invited, clock) == (w2, list)
    requires Quiet(sched, |w.log|, |w2.log|)
    ensures w2.org == w.org && OnlyReads(w2.log, |w.log|, |w2.log|)
  {
    hide InviteAll, JoinAll;
    QuietInviteAll(w, sched, emails, stored, clock);
    assert w.org.pending + Strangers(Folded(w.org.users), emails) == w.org.pending;
    WaitingAreUsers(emails, w.org, w1.org, invited);
    QuietJoinAll(w1, sched, team, invited, clock);
    assert forall k :: 0 <= k < |w1.log| ==> w2.log[k] == w1.log[k];
  }

  lemma InvitedThenJoined(emails: seq<string>, o: Org, o': Org, team: int, invited: seq<Invitation>, list: seq<Invitation>)
    requires Invited(invited, emails, o) && Joined(list, invited, o', team)
    requires OnlyTeamGrew(WithPending(o, Strangers(Folded(o.users), emails)), o', team)
    ensures Shows(list, emails, o) && Placed(o', team, emails)
  {
    forall i | 0 <= i < |emails|
      ensures if IsUser(o', emails[i]) then OnTeam(o', team, emails[i]) else IsPending(o', emails[i])
    {
      assert list[i].email == emails[i] && invited[i].email == emails[i];
    }
  }

  lemma QuietUserStage(w: World, sched: Schedule, cr: Resource, team: int, clock: Clock)
    requires team > 0 && team in w.org.members
    requires Quiet(sched, |w.log|, |UserStage(w, sched, cr, team, clock).0.log|)
    ensures var (w', cr', requeue) := UserStage(w, sched, cr, team, clock);
      && OnlyTeamGrew(WithPending(w.org, Strangers(Folded(w.org.users), cr.emails)), w'.org, team)
      && Shows(cr'.invitations, cr.emails, w.org)
      && Placed(w'.org, team, cr.emails)
      && (Placed(w.org, team, cr.emails) ==> w'.org == w.org && OnlyReads(w'.log, |w.log|, |w'.log|))
  {
    hide InviteAll, JoinAll, Verdict, Upsert, Tally;
    if cr.emails == [] {
      assert w.org.members[team := w.org.members[team]] == w.org.members;
      assert w.org.pending + Strangers(Folded(w.org.users), cr.emails) == w.org.pending;
    } else {
      var (w1, invited, _) := InviteAll(w, sched, cr.emails, cr.invitations, clock);
      var (w2, list) := JoinAll(w1, sched, team, invited, clock);
      QuietInviteAndJoin(w, sched, cr.emails, cr.invitations, team, clock, w1, invited, w2, list);
      if Placed(w.org, team, cr.emails) {
        SilentInviteAndJoin(w, sched, cr.emails, cr.invitations, team, clock, w1, invited, w2, list);
      }
    }
  }

  lemma TeamComesFirst(s: Sys, sched: Schedule, kube: Kube, clock: Clock)
    requires AllWell(kube)
    ensures |EnsureTeam(s.world, sched, s.cr.project).0.log| <= |Pass(s, sched, kube, clock).sys.world.log|
  {
    hide EnsureTeam, UserStage;
  }

  /** A pass in which the cluster cooperates, as its two service stages. */
  lemma PassInStages(s: Sys, sched: Schedule, kube: Kube, clock: Clock) returns (w1: World, team: Team, cr2: Resource)
    requires AllWell(kube) && EnsureTeam(s.world, sched, s.cr.project).1.TeamIs?
    ensures EnsureTeam(s.world, sched, s.cr.project) == (w1, TeamIs(team))
    ensures cr2.emails == s.cr.emails && cr2.invitations == s.cr.invitations && cr2.project == s.cr.project
    ensures var p := Pass(s, sched, kube, clock);
      var (w2, cr3, requeue) := UserStage(w1, sched, cr2, team.id, clock);
      && p.sys.world == w2 && p.requeue == requeue && !p.failed && p.listed == Some(team.id)
      && p.sys.configMap == Some(ScannerData(s.cr.project, team))
      && p.sys.mapWrites == s.mapWrites + (if s.configMap != p.sys.configMap then 1 else 0)
      && p.sys.cr.invitations == cr3.invitations && p.sys.cr.conditions == cr3.conditions
      && p.sys.cr.emails == s.cr.emails && p.sys.cr.project == s.cr.project
  {
    w1 := EnsureTeam(s.world, sched, s.cr.project).0;
    team := EnsureTeam(s.world, sched, s.cr.project).1.team;
    var cr1 := TeamStep(s.cr, team, kube.credentials.organization, clock.condition(0));
    cr2 := SetCondition(cr1, ConfigMapReady, true, ConfigMapCreated, ConfigMapIsReady, clock.condition(1));
  }

  /** The exact effect of a pass without fault and interference, from any service state and any
      stored status: it settles the system, and lists each address as on the team if it belongs
      to the organisation and as pending otherwise. */
  lemma QuietPassSettles(s: Sys, sched: Schedule, kube: Kube, clock: Clock)
    requires ValidOrg(s.world.org) && AllWell(kube)
    requires Quiet(sched, |s.world.log|, |Pass(s, sched, kube, clock).sys.world.log|)
    ensures var p := Pass(s, sched, kube, clock);
      && !p.failed && p.listed.Some?
      && p.sys.cr.project == s.cr.project && p.sys.cr.emails == s.cr.emails
      && p.sys.world.org.users == s.world.org.users
      && Settled(p.sys)
      && Shows(p.sys.cr.invitations, s.cr.emails, s.world.org)
  {
    hide Pass, EnsureTeam, UserStage;
    TeamComesFirst(s, sched, kube, clock);
    QuietEnsureTeam(s.world, sched, s.cr.project);
    var w1, team, cr2 := PassInStages(s, sched, kube, clock);
    QuietUserStage(w1, sched, cr2, team.id, clock);
    PassKeepsValid(s, sched, kube, clock);
    assert forall e :: IsUser(w1.org, e) == IsUser(s.world.org, e);
  }

  /** In a settled system such a pass changes nothing in the service, issues only reads and does
      not write the ConfigMap. */
  lemma SettledPassIsSilent(s: Sys, sched: Schedule, kube: Kube, clock: Clock)
    requires Settled(s) && AllWell(kube)
    requires Quiet(sched, |s.world.log|, |Pass(s, sched, kube, clock).sys.world.log|)
    ensures var p := Pass(s, sched, kube, clock);
      && p.sys.world.org == s.world.org
      && OnlyReads(p.sys.world.log, |s.world.log|, |p.sys.world.log|)
      && p.sys.mapWrites == s.mapWrites && p.sys.configMap == s.configMap
  {
    hide Pass, EnsureTeam, UserStage;
    TeamComesFirst(s, sched, kube, clock);
    QuietEnsureTeam(s.world, sched, s.cr.project);
    var w1, team, cr2 := PassInStages(s, sched, kube, clock);
    QuietUserStage(w1, sched, cr2, team.id, clock);
    var p := Pass(s, sched, kube, clock);
    assert forall k :: 0 <= k < |w1.log| ==> p.sys.world.log[k] == w1.log[k];
  }

  function Statuses(list: seq<Invitation>): seq<(string, Status)> {
    seq(|list|, i requires 0 <= i < |list| => (list[i].email, list[i].status))
  }

  /** Idempotence of effect: after one such pass from any state, a second one creates, sends, adds
      and writes nothing, and lists the same addresses with the same statuses, duplicates included. */
  lemma SecondPassIsSilent(s: Sys, sched: Schedule, kube: Kube, clock: Clock, kube': Kube, clock': Clock)
    requires ValidOrg(s.world.org) && AllWell(kube) && AllWell(kube')
    requires var p := Pass(s, sched, kube, clock);
      Quiet(sched, |s.world.log|, |Pass(p.sys, sched, kube', clock').sys.world.log|)
    ensures var p := Pass(s, sched, kube, clock);
      var p' := Pass(p.sys, sched, kube', clock');
      && p'.sys.world.org == p.sys.world.org
      && OnlyReads(p'.sys.world.log, |p.sys.world.log|, |p'.sys.world.log|)
      && p'.sys.mapWrites == p.sys.mapWrites
      && Statuses(p'.sys.cr.invitations) == Statuses(p.sys.cr.invitations)
  {
    hide Pass;
    QuietPassSettles(s, sched, kube, clock);
    var p := Pass(s, sched, kube, clock);
    SettledPassIsSilent(p.sys, sched, kube', clock');
    QuietPassSettles(p.sys, sched, kube', clock');
  }

  /* ----- counting and conditions ----- */

  lemma {:induction false} TallyUniform(list: seq<Invitation>, s: Status, t: Status)
    requires forall i :: 0 <= i < |list| ==> list[i].status == s
    ensures Tally(list, t) == if t == s then |list| else 0
    decreases |list|
  {
    if list != [] { TallyUniform(list[..|list| - 1], s, t); }
  }

  lemma {:induction false} UpsertShows(cs: seq<Condition>, c: Condition)
    ensures var found := Find(Upsert(cs, c), c.kind);
      found.Some? && found.value.ok == c.ok && found.value.reason == c.reason
  {
    if cs != [] && cs[0].kind != c.kind {
      UpsertShows(cs[1..], c);
    }
  }
}
