/** What one command does, and what a second one adds to it. */
module WebhookEffects {
  import opened Options
  import opened Text
  import opened MockFossa
  import opened Webhook

  /* ----- the invitation loop in closed form ----- */

  predicate Before(ms: seq<Maintainer>, n: nat, email: string)
    requires n <= |ms|
  {
    exists k :: 0 <= k < n && ms[k].email == email
  }

  /** The fate of the k-th maintainer, read off the state before the loop. */
  function ExpectedFate(r: Remote, team: int, ms: seq<Maintainer>, k: nat): Fate
    requires k < |ms|
  {
    var e := ms[k].email;
    if e in r.trouble.send then SendFailed
    else if e !in r.users then Invited
    else if e in r.trouble.add || e in Members(r, team) || Before(ms, k, e) then AddFailed
    else Joined
  }

  function EmailsWith<T(==)>(ms: seq<Maintainer>, fates: seq<T>, f: T): seq<string>
    requires |fates| <= |ms|
  {
    if fates == [] then []
    else EmailsWith(ms, fates[..|fates| - 1], f) + (if fates[|fates| - 1] == f then [ms[|fates| - 1].email] else [])
  }

  lemma EmailsWithStep<T>(ms: seq<Maintainer>, fates: seq<T>, fate: T, f: T)
    requires |fates| < |ms|
    ensures EmailsWith(ms, fates + [fate], f)
         == EmailsWith(ms, fates, f) + (if fate == f then [ms[|fates|].email] else [])
  {
    assert (fates + [fate])[..|fates|] == fates;
  }

  /** Two states that differ at most in the call log, the invitations and one team's list. */
  ghost predicate SameElsewhere(r: Remote, r1: Remote, team: int) {
    && r1.(sent := r.sent, invitations := r.invitations, members := r.members) == r
    && r.members.Keys <= r1.members.Keys <= r.members.Keys + {team}
    && forall t :: t != team ==> Members(r1, t) == Members(r, t)
  }

  ghost predicate CanInvite(r: Remote, e: string) {
    e !in r.trouble.send && e !in r.users
  }

  ghost predicate CanJoin(r: Remote, e: string) {
    e in r.users && e !in r.trouble.send && e !in r.trouble.add
  }

  ghost predicate InvitedSoFar(r: Remote, r1: Remote, ms: seq<Maintainer>, n: nat)
    requires n <= |ms|
  {
    forall e :: e in r1.invitations <==> e in r.invitations || (CanInvite(r, e) && Before(ms, n, e))
  }

  ghost predicate JoinedSoFar(r: Remote, r1: Remote, team: int, ms: seq<Maintainer>, n: nat)
    requires n <= |ms|
  {
    forall e :: e in Members(r1, team) <==> e in Members(r, team) || (CanJoin(r, e) && Before(ms, n, e))
  }

  lemma BeforeStep(ms: seq<Maintainer>, n: nat, e: string)
    requires n < |ms|
    ensures Before(ms, n + 1, e) <==> Before(ms, n, e) || ms[n].email == e
  {
    if ms[n].email == e {
      assert Before(ms, n + 1, e);
    }
  }

  /** One turn, told from the state the loop started in. */
  lemma TurnOutcome(r: Remote, r1: Remote, team: int, ms: seq<Maintainer>, n: nat)
    requires n < |ms|
    requires SameElsewhere(r, r1, team) && InvitedSoFar(r, r1, ms, n) && JoinedSoFar(r, r1, team, ms, n)
    ensures var (r2, fate) := Treat(r1, team, ms[n]);
            && fate == ExpectedFate(r, team, ms, n)
            && SameElsewhere(r, r2, team) && InvitedSoFar(r, r2, ms, n + 1) && JoinedSoFar(r, r2, team, ms, n + 1)
            && r2.sent == r1.sent + [ms[n].email]
            && Members(r2, team) == Members(r1, team) + (if fate == Joined then [ms[n].email] else [])
  {
    TurnFate(r, r1, team, ms, n);
    TurnInvites(r, r1, team, ms, n);
    TurnJoins(r, r1, team, ms, n);
    hide Treat, ExpectedFate, SameElsewhere, InvitedSoFar, JoinedSoFar, Members;
  }

  lemma TurnFate(r: Remote, r1: Remote, team: int, ms: seq<Maintainer>, n: nat)
    requires n < |ms| && SameElsewhere(r, r1, team) && JoinedSoFar(r, r1, team, ms, n)
    ensures var (r2, fate) := Treat(r1, team, ms[n]);
            && fate == ExpectedFate(r, team, ms, n) && SameElsewhere(r, r2, team)
            && r2.sent == r1.sent + [ms[n].email]
            && Members(r2, team) == Members(r1, team) + (if fate == Joined then [ms[n].email] else [])
  {
    hide Before;
  }

  lemma TurnInvites(r: Remote, r1: Remote, team: int, ms: seq<Maintainer>, n: nat)
    requires n < |ms| && SameElsewhere(r, r1, team) && InvitedSoFar(r, r1, ms, n)
    ensures InvitedSoFar(r, Treat(r1, team, ms[n]).0, ms, n + 1)
  {
    forall e ensures Before(ms, n + 1, e) <==> Before(ms, n, e) || ms[n].email == e {
      BeforeStep(ms, n, e);
    }
    hide Before, Members;
  }

  lemma TurnJoins(r: Remote, r1: Remote, team: int, ms: seq<Maintainer>, n: nat)
    requires n < |ms| && SameElsewhere(r, r1, team) && JoinedSoFar(r, r1, team, ms, n)
    ensures JoinedSoFar(r, Treat(r1, team, ms[n]).0, team, ms, n + 1)
  {
    forall e ensures Before(ms, n + 1, e) <==> Before(ms, n, e) || ms[n].email == e {
      BeforeStep(ms, n, e);
    }
    hide Before;
  }

  /** Every fate is decided before the loop starts: by the faults, by who is a user or a member
      already, and by repeated addresses. The members gained are those who joined, in order. */
  lemma {:induction false} InvitationsOutcome(r: Remote, team: int, ms: seq<Maintainer>, n: nat)
    requires n <= |ms|
    ensures var (r1, fates) := TreatFirst(r, team, ms, n);
            && (forall k :: 0 <= k < n ==> fates[k] == ExpectedFate(r, team, ms, k))
            && SameElsewhere(r, r1, team) && InvitedSoFar(r, r1, ms, n) && JoinedSoFar(r, r1, team, ms, n)
            && Members(r1, team) == Members(r, team) + EmailsWith(ms, fates, Joined)
  {
    hide SameElsewhere, InvitedSoFar, JoinedSoFar, ExpectedFate, Treat, Members, EmailsWith;
    if n == 0 {
      BeforeAnyTurn(r, team, ms);
    } else {
      InvitationsOutcome(r, team, ms, n - 1);
      var (r1, fates) := TreatFirst(r, team, ms, n - 1);
      TurnOutcome(r, r1, team, ms, n - 1);
      EmailsWithStep(ms, fates, Treat(r1, team, ms[n - 1]).1, Joined);
    }
  }

  lemma BeforeAnyTurn(r: Remote, team: int, ms: seq<Maintainer>)
    ensures SameElsewhere(r, r, team) && InvitedSoFar(r, r, ms, 0) && JoinedSoFar(r, r, team, ms, 0)
    ensures Members(r, team) == Members(r, team) + EmailsWith<Fate>(ms, [], Joined)
  {
  }

  /** One request is sent to each maintainer, in order. */
  lemma {:induction false} RequestsInOrder(r: Remote, team: int, ms: seq<Maintainer>, n: nat)
    requires n <= |ms|
    ensures TreatFirst(r, team, ms, n).0.sent == r.sent + FirstEmails(ms, n)
  {
    if n > 0 {
      RequestsInOrder(r, team, ms, n - 1);
    }
  }

  function FirstEmails(ms: seq<Maintainer>, n: nat): seq<string>
    requires n <= |ms|
  {
    if n == 0 then [] else FirstEmails(ms, n - 1) + [ms[n - 1].email]
  }

  function FirstHandles(ms: seq<Maintainer>, n: nat): seq<string>
    requires n <= |ms|
  {
    if n == 0 then [] else FirstHandles(ms, n - 1) + [ms[n - 1].handle]
  }

  /** Each eligible maintainer is announced once: as invited, as joined, or with a problem. */
  lemma {:induction false} EachIsAnnouncedOnce(ms: seq<Maintainer>, fates: seq<Fate>)
    requires |fates| <= |ms|
    ensures multiset(With(ms, fates, Invited)) + multiset(With(ms, fates, Joined)) + multiset(Named(Problems(ms, fates)))
         == multiset(FirstHandles(ms, |fates|))
  {
    if fates != [] {
      var n := |fates| - 1;
      EachIsAnnouncedOnce(ms, fates[..n]);
      NamedStep(ms, fates);
      hide Named, Problems;
    }
  }

  lemma NamedStep(ms: seq<Maintainer>, fates: seq<Fate>)
    requires 0 < |fates| <= |ms|
    ensures var n := |fates| - 1;
            Named(Problems(ms, fates)) == Named(Problems(ms, fates[..n]))
              + (if fates[n].AddFailed? || fates[n].SendFailed? then [ms[n].handle] else [])
  {
    hide Named;
    var n := |fates| - 1;
    var problem := ProblemOf(ms[n], fates[n]);
    NamedAppend(Problems(ms, fates[..n]), problem);
    NamedOne(problem);
  }

  lemma NamedOne(problem: seq<Action>)
    requires |problem| <= 1
    ensures problem == [] ==> Named(problem) == []
    ensures |problem| == 1 && problem[0].AddProblem? ==> Named(problem) == [problem[0].handle]
    ensures |problem| == 1 && problem[0].SendProblem? ==> Named(problem) == [problem[0].handle]
  {
  }

  function Named(actions: seq<Action>): seq<string> {
    if actions == [] then []
    else
      Named(actions[..|actions| - 1]) +
      (match actions[|actions| - 1]
       case AddProblem(h) => [h]
       case SendProblem(h) => [h]
       case _ => [])
  }

  lemma {:induction false} NamedAppend(a: seq<Action>, b: seq<Action>)
    ensures Named(a + b) == Named(a) + Named(b)
  {
    if b == [] {
      assert a + b == a;
    } else {
      NamedAppend(a, b[..|b| - 1]);
      assert (a + b)[..|a + b| - 1] == a + b[..|b| - 1];
    }
  }

  /* ----- signing up twice ----- */

  /** Nothing left to do for this maintainer. */
  ghost predicate Handled(r: Remote, team: int, m: Maintainer) {
    || m.email in r.trouble.send
    || (m.email !in r.users && m.email in r.invitations)
    || (m.email in r.users && (m.email in r.trouble.add || m.email in Members(r, team)))
  }

  ghost predicate AllHandled(r: Remote, team: int, ms: seq<Maintainer>) {
    forall k :: 0 <= k < |ms| ==> Handled(r, team, ms[k])
  }

  /** The same state but for the log of invitations sent. */
  predicate SameButLog(r: Remote, r1: Remote) {
    r1.(sent := r.sent) == r
  }

  lemma LoopHandlesAll(r: Remote, team: int, ms: seq<Maintainer>)
    ensures AllHandled(TreatFirst(r, team, ms, |ms|).0, team, ms)
  {
    InvitationsOutcome(r, team, ms, |ms|);
    var r1 := TreatFirst(r, team, ms, |ms|).0;
    forall k | 0 <= k < |ms| ensures Handled(r1, team, ms[k]) {
      assert Before(ms, |ms|, ms[k].email);
    }
  }

  lemma {:induction false} HandledStaysQuiet(r: Remote, team: int, ms: seq<Maintainer>, n: nat)
    requires AllHandled(r, team, ms) && n <= |ms|
    ensures SameButLog(r, TreatFirst(r, team, ms, n).0)
  {
    if n > 0 {
      HandledStaysQuiet(r, team, ms, n - 1);
      assert Handled(r, team, ms[n - 1]);
    }
  }

  lemma FindLast(rows: seq<Row>, row: Row, service: nat, project: nat)
    ensures Find(rows + [row], service, project)
         == if row.service == service && row.project == project then Some(row.team) else Find(rows, service, project)
  {
    assert (rows + [row])[..|rows|] == rows;
  }

  /** Opening the team again changes nothing, and yields the same team or none. */
  lemma OpenTeamAgain(w: World, p: Project, a: Weather, b: Weather, r: Remote)
    requires a.first == b.first
    requires var base := OpenTeam(w, p, a).world.remote; r.teams == base.teams && r.trouble == base.trouble
    ensures var base := OpenTeam(w, p, a);
            var again := OpenTeam(World(base.world.store, r), p, b);
            && again.world == World(base.world.store, r)
            && (again.team.None? || again.team == base.team)
  {
    hide Find, Taken;
    if w.store.fossa.Some? {
      FindLast(w.store.rows, Row(1, w.remote.nextTeam, p.id), w.store.fossa.value, p.id);
    }
  }

  /** Signing a project up a second time leaves the same teams, invitations, members and records,
      whatever the later database calls of either run do. */
  lemma SigningTwiceIsOnce(w: World, p: Project, a: Weather, b: Weather)
    requires a.roster == b.roster && a.first == b.first
    ensures var once := Sign(w, p, a).0;
            var twice := Sign(once, p, b).0;
            twice.store == once.store && SameButLog(once.remote, twice.remote)
  {
    hide OpenTeam, TreatFirst, AllHandled, Introduction, Summary, ReposReport;
    var once := Sign(w, p, a).0;
    OpenKeepsRoster(w, p, a);
    var roster := Roster(w, p, a);
    if roster.Some? {
      var base := OpenTeam(w, p, a);
      if base.team.Some? && roster.value != [] {
        InvitationsOutcome(base.world.remote, base.team.value, roster.value, |roster.value|);
        LoopHandlesAll(base.world.remote, base.team.value, roster.value);
        HandledStaysQuiet(once.remote, base.team.value, roster.value, |roster.value|);
      }
      OpenTeamAgain(w, p, a, b, once.remote);
    }
  }

  /** When the first run found its team records readable, a repeat leaves everything as it was if and only if
      it does not open a second team: its own lookup works, it stops before that, or the name is taken, or
      creation is refused. */
  lemma SigningAgainIsQuietExactlyWhen(w: World, p: Project, a: Weather, b: Weather)
    requires !a.roster && !a.first
    ensures var once := Sign(w, p, a).0;
            var twice := Sign(once, p, b).0;
            (twice.store == once.store && SameButLog(once.remote, twice.remote)) <==>
              !b.first || b.roster || p.id !in w.store.roster || p.name in once.remote.teams || once.remote.trouble.create
  {
    hide TreatFirst, AllHandled, Introduction, Summary, ReposReport, EligibleOf, Find, SameButLog;
    var once := Sign(w, p, a).0;
    OpenKeepsRoster(w, p, a);
    SameIsSame(once.remote);
    if p.id in w.store.roster && !b.roster {
      SignKeepsRoster(w, p, a);
      if !b.first {
        SigningTwiceIsOnce(w, p, a, b);
      } else {
        BlindRepeat(once, p, b);
      }
    } else {
      SignKeepsRoster(w, p, a);
    }
  }

  lemma SameIsSame(r: Remote)
    ensures SameButLog(r, r)
  {
  }

  lemma SignKeepsRoster(w: World, p: Project, a: Weather)
    ensures Sign(w, p, a).0.store.roster == w.store.roster && Sign(w, p, a).0.store.fossa == w.store.fossa
  {
    hide OpenTeam, TreatFirst, Introduction, Summary, ReposReport, EligibleOf;
    OpenKeepsRoster(w, p, a);
  }

  /** A command that cannot read the records opens a team whenever the service lets it. */
  lemma BlindRepeat(w: World, p: Project, b: Weather)
    requires b.first && !b.roster && p.id in w.store.roster
    ensures var w1 := Sign(w, p, b).0;
            if p.name in w.remote.teams || w.remote.trouble.create then w1 == w
            else p.name in w1.remote.teams && !SameButLog(w.remote, w1.remote)
  {
    hide TreatFirst, Introduction, Summary, ReposReport, EligibleOf;
    var base := OpenTeam(w, p, b);
    var roster := Roster(w, p, b);
    if base.team.Some? {
      InvitationsOutcome(base.world.remote, base.team.value, roster.value, |roster.value|);
    }
  }

  lemma OpenKeepsRoster(w: World, p: Project, a: Weather)
    ensures OpenTeam(w, p, a).world.store.roster == w.store.roster
    ensures OpenTeam(w, p, a).world.store.fossa == w.store.fossa
  {
  }

  /* ----- the crash ----- */

  /** The command crashes on a missing record exactly when it had to create the team and the new
      row cannot be seen afterwards: the write failed, another row holds that team id, or the
      FOSSA service is not the one the row is written for. */
  lemma CrashesExactlyWhen(w: World, p: Project, weather: Weather)
    ensures Sign(w, p, weather).1.Panicked? <==>
      && !weather.roster && p.id in w.store.roster && EligibleOf(w.store.roster[p.id]) != []
      && !weather.second && w.store.fossa.Some? && Find(w.store.rows, w.store.fossa.value, p.id).None?
      && !w.remote.trouble.create && p.name !in w.remote.teams
      && (weather.record || (exists row :: row in w.store.rows && row.team == w.remote.nextTeam) || w.store.fossa.value != 1)
  {
    hide TreatFirst, EligibleOf, Introduction, Summary, ReposReport, Taken;
    TakenIs(w.store.rows, w.remote.nextTeam);
    if w.store.fossa.Some? {
      FindLast(w.store.rows, Row(1, w.remote.nextTeam, p.id), w.store.fossa.value, p.id);
    }
  }

  lemma TakenIs(rows: seq<Row>, team: int)
    ensures Taken(rows, team) <==> exists row :: row in rows && row.team == team
  {
    if row :| row in rows && row.team == team {
      var i :| 0 <= i < |rows| && rows[i] == row;
      assert rows[i].team == team;
    }
  }

  /** It happens: one eligible maintainer, no rows, and a database that fails to store the new one. */
  lemma CrashHappens()
    ensures var m := Maintainer(1, "Bob", "bob@example.org", "bob");
            var p := Project(7, "cedar");
            var r := Remote(map[], {}, map[], {}, 1000, map[], [], Trouble(false, {}, {}, {}, false, false));
            Sign(World(Store(map[7 := [m]], Some(1), [], []), r), p, Weather(false, false, true, false, {})).1.Panicked?
  {
    hide Sign;
    var m := Maintainer(1, "Bob", "bob@example.org", "bob");
    var p := Project(7, "cedar");
    var r := Remote(map[], {}, map[], {}, 1000, map[], [], Trouble(false, {}, {}, {}, false, false));
    var w := World(Store(map[7 := [m]], Some(1), [], []), r);
    assert Eligible(m) by { PlainText(m); }
    assert [m][..0] == [];
    assert EligibleOf([m]) == [m];
    CrashesExactlyWhen(w, p, Weather(false, false, true, false, {}));
  }

  lemma PlainText(m: Maintainer)
    requires m.email == "bob@example.org" && m.handle == "bob"
    ensures Eligible(m)
  {
    hide Trim;
    assert Trim(m.email) == m.email && Trim(m.handle) == m.handle;
  }

  /* ----- adding those who accepted ----- */

  function ExpectedAddFate(r: Remote, existing: seq<string>, ms: seq<Maintainer>, k: nat): AddFate
    requires k < |ms|
  {
    var e := ms[k].email;
    if HasPendingInvitation(r, e) then Pending
    else if e in existing then Already
    else if e in r.trouble.add || e !in r.users then Refused
    else if Before(ms, k, e) then Already
    else Joining
  }

  ghost predicate CanBeAdded(r: Remote, e: string) {
    !HasPendingInvitation(r, e) && e in r.users && e !in r.trouble.add
  }

  ghost predicate AddedSoFar(r: Remote, existing: seq<string>, seen: seq<string>, ms: seq<Maintainer>, n: nat)
    requires n <= |ms|
  {
    forall e :: e in seen <==> e in existing || (Before(ms, n, e) && CanBeAdded(r, e))
  }

  ghost predicate SameInvitations(r: Remote, r1: Remote) {
    r1.invitations == r.invitations && r1.sent == r.sent
  }

  lemma TurnOfAdding(r: Remote, r1: Remote, existing: seq<string>, seen: seq<string>, team: int, ms: seq<Maintainer>, n: nat)
    requires n < |ms| && team in r.members
    requires SameElsewhere(r, r1, team) && SameInvitations(r, r1) && seen == Members(r1, team)
    requires AddedSoFar(r, existing, seen, ms, n)
    ensures var (r2, seen2, fate) := AddOne(r1, seen, team, ms[n]);
            && fate == ExpectedAddFate(r, existing, ms, n)
            && SameElsewhere(r, r2, team) && SameInvitations(r, r2) && seen2 == Members(r2, team)
            && seen2 == seen + (if fate == Joining then [ms[n].email] else [])
            && AddedSoFar(r, existing, seen2, ms, n + 1)
  {
    forall e ensures Before(ms, n + 1, e) <==> Before(ms, n, e) || ms[n].email == e {
      BeforeStep(ms, n, e);
    }
  }

  /** The list kept by the loop is the service's own list throughout, so no call answers
      "already a member"; each fate is decided by the state before the loop. */
  lemma {:induction false} AddingOutcome(r: Remote, team: int, ms: seq<Maintainer>, n: nat)
    requires n <= |ms| && team in r.members
    ensures var (r1, seen, fates) := AddFirst(r, r.members[team], team, ms, n);
            && (forall k :: 0 <= k < n ==> fates[k] == ExpectedAddFate(r, r.members[team], ms, k))
            && SameElsewhere(r, r1, team) && SameInvitations(r, r1)
            && seen == Members(r1, team) == r.members[team] + EmailsWith(ms, fates, Joining)
            && AddedSoFar(r, r.members[team], seen, ms, n)
  {
    if n == 0 {
      assert r.members[team] + [] == r.members[team];
    } else {
      hide Members, ExpectedAddFate, SameElsewhere, SameInvitations, AddedSoFar, AddOne, EmailsWith;
      AddingOutcome(r, team, ms, n - 1);
      var (r1, seen, fates) := AddFirst(r, r.members[team], team, ms, n - 1);
      TurnOfAdding(r, r1, r.members[team], seen, team, ms, n - 1);
      EmailsWithStep(ms, fates, AddOne(r1, seen, team, ms[n - 1]).2, Joining);
    }
  }

  lemma {:induction false} ActionsInOrder(ms: seq<Maintainer>, fates: seq<AddFate>)
    requires |fates| <= |ms|
    ensures |ActionsOf(ms, fates)| == |fates|
    ensures forall k :: 0 <= k < |fates| ==> ActionsOf(ms, fates)[k] == ActionOf(ms[k], fates[k])
  {
    if fates != [] {
      ActionsInOrder(ms, fates[..|fates| - 1]);
    }
  }

  /** With no event lost there is one event for each address gained. */
  lemma {:induction false} OneEventEach(p: Project, ms: seq<Maintainer>, fates: seq<AddFate>, lost: set<nat>)
    requires |fates| <= |ms|
    ensures |AuditsOf(p, ms, fates, lost)| <= |EmailsWith(ms, fates, Joining)|
    ensures lost == {} ==> |AuditsOf(p, ms, fates, lost)| == |EmailsWith(ms, fates, Joining)|
  {
    if fates != [] {
      OneEventEach(p, ms, fates[..|fates| - 1], lost);
    }
  }

  /** One line per eligible maintainer, in order, each saying what the state before the command
      decides; the team grows by as many members as audit events are written, unless events are lost. */
  lemma AddingIsAccountedFor(w: World, p: Project, team: int, weather: Weather)
    requires Roster(w, p, weather).Some? && Roster(w, p, weather).value != []
    requires !w.remote.trouble.fetch && team in w.remote.members
    ensures var ms := Roster(w, p, weather).value;
            var (w1, out) := AddMaintainers(w, p, team, weather);
            && out.Done? && |out.actions| == |ms|
            && (forall k :: 0 <= k < |ms| ==>
                  out.actions[k] == ActionOf(ms[k], ExpectedAddFate(w.remote, w.remote.members[team], ms, k)))
            && w.store.audits <= w1.store.audits && w.remote.members[team] <= Members(w1.remote, team)
            && SameElsewhere(w.remote, w1.remote, team) && SameInvitations(w.remote, w1.remote)
            && (weather.audits == {} ==>
                  |w1.store.audits| - |w.store.audits| == |Members(w1.remote, team)| - |w.remote.members[team]|)
  {
    hide ActionOf, ExpectedAddFate, SameElsewhere, SameInvitations, AddOne, EmailsWith, EligibleOf, ActionsOf, AuditsOf,
      AddedSoFar;
    var ms := Roster(w, p, weather).value;
    var fates := AddFirst(w.remote, w.remote.members[team], team, ms, |ms|).2;
    AddingOutcome(w.remote, team, ms, |ms|);
    ActionsInOrder(ms, fates);
    OneEventEach(p, ms, fates, weather.audits);
  }

  /** Who is on the team afterwards: the old members, and the eligible users whose invitation is
      over and whom the service accepts. */
  lemma WhoIsOnTheTeam(w: World, p: Project, team: int, weather: Weather, e: string)
    requires Roster(w, p, weather).Some? && !w.remote.trouble.fetch && team in w.remote.members
    ensures var ms := Roster(w, p, weather).value;
            e in Members(AddMaintainers(w, p, team, weather).0.remote, team) <==>
              e in w.remote.members[team] || (e in Emails(ms) && CanBeAdded(w.remote, e))
  {
    hide EligibleOf, ActionsOf, AuditsOf, AddFirst, HasPendingInvitation;
    var ms := Roster(w, p, weather).value;
    AddingOutcome(w.remote, team, ms, |ms|);
    assert e in Emails(ms) <==> Before(ms, |ms|, e);
  }

  ghost predicate NothingToAdd(r: Remote, existing: seq<string>, ms: seq<Maintainer>) {
    forall k :: 0 <= k < |ms| ==> CanBeAdded(r, ms[k].email) ==> ms[k].email in existing
  }

  lemma {:induction false} NothingAdded(r: Remote, p: Project, team: int, ms: seq<Maintainer>, n: nat, lost: set<nat>)
    requires n <= |ms| && team in r.members && NothingToAdd(r, r.members[team], ms)
    ensures var (r1, seen, fates) := AddFirst(r, r.members[team], team, ms, n);
            r1 == r && seen == r.members[team] && AuditsOf(p, ms, fates, lost) == []
  {
    if n > 0 {
      NothingAdded(r, p, team, ms, n - 1, lost);
      var (r1, seen, fates) := AddFirst(r, r.members[team], team, ms, n - 1);
      var fate := AddOne(r1, seen, team, ms[n - 1]).2;
      assert (fates + [fate])[..n - 1] == fates;
      assert CanBeAdded(r, ms[n - 1].email) ==> ms[n - 1].email in seen;
    }
  }

  /** Repeating the accepted command at once adds nobody and writes no event. */
  lemma AddingTwiceIsOnce(w: World, p: Project, team: int, a: Weather, b: Weather)
    requires a.roster == b.roster
    ensures var once := AddMaintainers(w, p, team, a).0;
            AddMaintainers(once, p, team, b).0 == once
  {
    hide EligibleOf, ActionsOf, AuditsOf, AddFirst;
    var roster := Roster(w, p, a);
    if roster.Some? && roster.value != [] && !w.remote.trouble.fetch && team in w.remote.members {
      var ms, once := roster.value, AddMaintainers(w, p, team, a).0;
      AddingOutcome(w.remote, team, ms, |ms|);
      forall k | 0 <= k < |ms| && CanBeAdded(once.remote, ms[k].email)
        ensures ms[k].email in once.remote.members[team]
      {
        assert Before(ms, |ms|, ms[k].email) && CanBeAdded(w.remote, ms[k].email);
      }
      NothingAdded(once.remote, p, team, ms, |ms|, b.audits);
    }
  }
}
