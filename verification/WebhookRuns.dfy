/** Runs of the onboarding commands between steps by other people. */
module WebhookRuns {
  import opened Options
  import opened MockFossa
  import opened Webhook
  import opened WebhookEffects

  datatype Step =
    | CreateByHand(name: string) | InviteByHand(email: string) | Accept(email: string)
    | SetTrouble(trouble: Trouble) | SetRoster(project: nat, ms: seq<Maintainer>)
    | SignUp(p: Project, weather: Weather) | AddAccepted(p: Project, weather: Weather)

  function Apply(w: World, s: Step): World {
    match s
    case CreateByHand(name) => w.(remote := CreateTeam(w.remote, name).0)
    case InviteByHand(email) => w.(remote := SendUserInvitation(w.remote, email).0)
    case Accept(email) => w.(remote := AcceptInvitation(w.remote, email))
    case SetTrouble(trouble) => w.(remote := w.remote.(trouble := trouble))
    case SetRoster(project, ms) => w.(store := w.store.(roster := w.store.roster[project := ms]))
    case SignUp(p, weather) => Sign(w, p, weather).0
    case AddAccepted(p, weather) => Accepted(w, p, weather).0
  }

  function Run(w: World, steps: seq<Step>): World
    decreases |steps|
  {
    if steps == [] then w else Run(Apply(w, steps[0]), steps[1..])
  }

  ghost predicate GoodRow(r: Remote, row: Row) {
    row.team < r.nextTeam
  }

  /** The service is consistent, no team id is recorded twice, and recorded teams were handed out. */
  ghost predicate ValidWorld(w: World) {
    && ValidRemote(w.remote)
    && (forall i, j :: 0 <= i < j < |w.store.rows| ==> w.store.rows[i].team != w.store.rows[j].team)
    && (forall i :: 0 <= i < |w.store.rows| ==> GoodRow(w.remote, w.store.rows[i]))
  }

  lemma {:induction false} FindIsARow(rows: seq<Row>, service: nat, project: nat)
    requires Find(rows, service, project).Some?
    ensures Row(service, Find(rows, service, project).value, project) in rows
  {
    if !(rows[|rows| - 1].service == service && rows[|rows| - 1].project == project) {
      FindIsARow(rows[..|rows| - 1], service, project);
    }
  }

  lemma {:induction false} LoopKeepsValid(r: Remote, team: int, ms: seq<Maintainer>, n: nat)
    requires ValidRemote(r) && team < r.nextTeam && n <= |ms|
    ensures var r1 := TreatFirst(r, team, ms, n).0; ValidRemote(r1) && r1.nextTeam == r.nextTeam
  {
    if n > 0 {
      hide ValidRemote, SendUserInvitation, AddUserToTeam;
      LoopKeepsValid(r, team, ms, n - 1);
      TurnKeepsValid(TreatFirst(r, team, ms, n - 1).0, team, ms[n - 1]);
    }
  }

  lemma TurnKeepsValid(r: Remote, team: int, m: Maintainer)
    requires ValidRemote(r) && team < r.nextTeam
    ensures var r1 := Treat(r, team, m).0; ValidRemote(r1) && r1.nextTeam == r.nextTeam
  {
    hide ValidRemote;
    SendKeepsValid(r, m.email);
    AddKeepsValid(SendUserInvitation(r, m.email).0, team, m.email);
  }

  lemma {:induction false} AddingKeepsValid(r: Remote, existing: seq<string>, team: int, ms: seq<Maintainer>, n: nat)
    requires ValidRemote(r) && team < r.nextTeam && n <= |ms|
    ensures var r1 := AddFirst(r, existing, team, ms, n).0; ValidRemote(r1) && r1.nextTeam == r.nextTeam
  {
    if n > 0 {
      hide ValidRemote;
      AddingKeepsValid(r, existing, team, ms, n - 1);
      AddKeepsValid(AddFirst(r, existing, team, ms, n - 1).0, team, ms[n - 1].email);
    }
  }

  lemma OpenKeepsValid(w: World, p: Project, weather: Weather)
    requires ValidWorld(w)
    ensures var base := OpenTeam(w, p, weather);
            && ValidWorld(base.world)
            && (base.team.Some? ==> base.team.value < base.world.remote.nextTeam)
  {
    hide ValidRemote;
    CreateKeepsValid(w.remote, p.name);
    var found := Lookup(w.store, weather.first, p.id);
    if found.Some? && found.value.Some? {
      FindIsARow(w.store.rows, w.store.fossa.value, p.id);
    }
  }

  lemma SignKeepsValid(w: World, p: Project, weather: Weather)
    requires ValidWorld(w)
    ensures ValidWorld(Sign(w, p, weather).0)
  {
    hide ValidRemote, OpenTeam, TreatFirst, EligibleOf, Introduction, Summary, ReposReport, Find;
    OpenKeepsValid(w, p, weather);
    var base := OpenTeam(w, p, weather);
    var roster := Roster(w, p, weather);
    if roster.Some? && base.team.Some? {
      LoopKeepsValid(base.world.remote, base.team.value, roster.value, |roster.value|);
    }
  }

  lemma AcceptedKeepsValid(w: World, p: Project, weather: Weather)
    requires ValidWorld(w)
    ensures ValidWorld(Accepted(w, p, weather).0)
  {
    hide ValidRemote, AddFirst, EligibleOf, Find, ActionsOf, AuditsOf;
    var found := Lookup(w.store, weather.first, p.id);
    var roster := Roster(w, p, weather);
    if found.Some? && found.value.Some? && roster.Some? {
      var team := found.value.value;
      FindIsARow(w.store.rows, w.store.fossa.value, p.id);
      if team in w.remote.members {
        AddingKeepsValid(w.remote, w.remote.members[team], team, roster.value, |roster.value|);
      }
    }
  }

  lemma StepKeepsValid(w: World, s: Step)
    requires ValidWorld(w)
    ensures ValidWorld(Apply(w, s))
  {
    match s
    case CreateByHand(name) => CreateKeepsValid(w.remote, name);
    case InviteByHand(email) => SendKeepsValid(w.remote, email);
    case Accept(email) => AcceptKeepsValid(w.remote, email);
    case SetTrouble(trouble) =>
      assert forall t :: GoodList(w.remote, t) ==> GoodList(w.remote.(trouble := trouble), t);
    case SetRoster(_, _) =>
    case SignUp(p, weather) => SignKeepsValid(w, p, weather);
    case AddAccepted(p, weather) => AcceptedKeepsValid(w, p, weather);
  }

  /** Every run keeps invitations and users apart, lists each member once and only users, and
      gives every team its own id. */
  lemma {:induction false} RunKeepsValid(w: World, steps: seq<Step>)
    requires ValidWorld(w)
    ensures ValidWorld(Run(w, steps))
    decreases |steps|
  {
    if steps != [] {
      hide ValidWorld, Apply;
      StepKeepsValid(w, steps[0]);
      RunKeepsValid(Apply(w, steps[0]), steps[1..]);
    }
  }

  /* ----- a team takes only its own project's maintainers ----- */

  /** The store records the team for the project. */
  predicate Recorded(w: World, team: int, project: nat) {
    w.store.fossa.Some? && Row(w.store.fossa.value, team, project) in w.store.rows
  }

  function EligibleEmails(w: World, project: nat): set<string> {
    if project in w.store.roster then Emails(EligibleOf(w.store.roster[project])) else {}
  }

  lemma OneProjectEach(w: World, team: int, project: nat, other: nat)
    requires ValidWorld(w) && Recorded(w, team, project) && Recorded(w, team, other)
    ensures project == other
  {
  }

  lemma OpenedTeam(w: World, p: Project, weather: Weather, team: int, project: nat)
    requires ValidWorld(w) && Recorded(w, team, project)
    ensures var base := OpenTeam(w, p, weather);
            && Recorded(base.world, team, project)
            && Members(base.world.remote, team) == Members(w.remote, team)
            && base.world.store.roster == w.store.roster
            && (base.team == Some(team) ==> p.id == project)
  {
    hide ValidRemote;
    assert GoodRow(w.remote, Row(w.store.fossa.value, team, project));
    var found := Lookup(w.store, weather.first, p.id);
    if found.Some? && found.value.Some? {
      FindIsARow(w.store.rows, w.store.fossa.value, p.id);
      if found.value.value == team {
        OneProjectEach(w, team, project, p.id);
      }
    }
  }

  lemma SignConfined(w: World, p: Project, weather: Weather, team: int, project: nat, e: string)
    requires ValidWorld(w) && Recorded(w, team, project)
    requires e in Members(Sign(w, p, weather).0.remote, team)
    ensures e in Members(w.remote, team) || e in EligibleEmails(w, project)
  {
    hide ValidWorld, OpenTeam, TreatFirst, EligibleOf, Introduction, Summary, ReposReport, Find, Members, Recorded;
    OpenedTeam(w, p, weather, team, project);
    var base := OpenTeam(w, p, weather);
    var roster := Roster(w, p, weather);
    if roster.Some? && base.team.Some? {
      InvitationsOutcome(base.world.remote, base.team.value, roster.value, |roster.value|);
      if base.team.value == team && Before(roster.value, |roster.value|, e) {
        assert e in EligibleEmails(w, project);
      }
    }
  }

  lemma AcceptedConfined(w: World, p: Project, weather: Weather, team: int, project: nat, e: string)
    requires ValidWorld(w) && Recorded(w, team, project)
    requires e in Members(Accepted(w, p, weather).0.remote, team)
    ensures e in Members(w.remote, team) || e in EligibleEmails(w, project)
  {
    hide ValidRemote, AddFirst, EligibleOf, Find, ActionsOf, AuditsOf;
    var found := Lookup(w.store, weather.first, p.id);
    var roster := Roster(w, p, weather);
    if found.Some? && found.value.Some? && roster.Some? && found.value.value in w.remote.members {
      var own := found.value.value;
      FindIsARow(w.store.rows, w.store.fossa.value, p.id);
      AddingOutcome(w.remote, own, roster.value, |roster.value|);
      if own == team {
        OneProjectEach(w, team, project, p.id);
      }
    }
  }

  lemma StepConfined(w: World, s: Step, team: int, project: nat)
    requires ValidWorld(w) && Recorded(w, team, project)
    ensures Recorded(Apply(w, s), team, project)
    ensures forall e :: e in Members(Apply(w, s).remote, team) ==>
                          e in Members(w.remote, team) || e in EligibleEmails(w, project)
  {
    hide ValidRemote, Sign, Accepted, EligibleOf;
    assert GoodRow(w.remote, Row(w.store.fossa.value, team, project));
    match s
    case SignUp(p, weather) =>
      SignKeepsRecord(w, p, weather, team, project);
      forall e | e in Members(Apply(w, s).remote, team)
        ensures e in Members(w.remote, team) || e in EligibleEmails(w, project)
      {
        SignConfined(w, p, weather, team, project, e);
      }
    case AddAccepted(p, weather) =>
      AcceptedKeepsRows(w, p, weather);
      forall e | e in Members(Apply(w, s).remote, team)
        ensures e in Members(w.remote, team) || e in EligibleEmails(w, project)
      {
        AcceptedConfined(w, p, weather, team, project, e);
      }
    case _ =>
  }

  lemma SignKeepsRecord(w: World, p: Project, weather: Weather, team: int, project: nat)
    requires ValidWorld(w) && Recorded(w, team, project)
    ensures Recorded(Sign(w, p, weather).0, team, project)
  {
    hide ValidWorld, OpenTeam, TreatFirst, EligibleOf, Introduction, Summary, ReposReport, Find, Members;
    OpenedTeam(w, p, weather, team, project);
  }

  lemma AcceptedKeepsRows(w: World, p: Project, weather: Weather)
    ensures Accepted(w, p, weather).0.store.rows == w.store.rows
    ensures Accepted(w, p, weather).0.store.fossa == w.store.fossa
  {
  }

  /** Every roster of the project along the run keeps its eligible addresses inside the set. */
  ghost predicate RostersWithin(w: World, steps: seq<Step>, project: nat, allowed: set<string>)
    decreases |steps|
  {
    && EligibleEmails(w, project) <= allowed
    && (steps != [] ==> RostersWithin(Apply(w, steps[0]), steps[1..], project, allowed))
  }

  /** The members of the project's recorded teams were there in w0 or are allowed. */
  ghost predicate Within(w0: World, w: World, project: nat, allowed: set<string>) {
    forall team, e :: Recorded(w, team, project) && e in Members(w.remote, team) ==>
      e in Members(w0.remote, team) || e in allowed
  }

  /** A team recorded during a command was created by it, for the project of the command. */
  lemma NewlyRecorded(w: World, p: Project, weather: Weather, team: int, project: nat)
    requires ValidWorld(w) && Recorded(OpenTeam(w, p, weather).world, team, project) && !Recorded(w, team, project)
    ensures p.id == project && OpenTeam(w, p, weather).team == Some(team)
    ensures Members(OpenTeam(w, p, weather).world.remote, team) == []
  {
    hide ValidRemote, Find;
  }

  lemma NewTeamConfined(w: World, p: Project, weather: Weather, team: int, project: nat, e: string)
    requires ValidWorld(w) && Recorded(Sign(w, p, weather).0, team, project) && !Recorded(w, team, project)
    requires e in Members(Sign(w, p, weather).0.remote, team)
    ensures e in EligibleEmails(w, project)
  {
    hide ValidWorld, OpenTeam, TreatFirst, EligibleOf, Introduction, Summary, ReposReport, Find, Members;
    NewlyRecorded(w, p, weather, team, project);
    OpenKeepsRoster(w, p, weather);
    var base := OpenTeam(w, p, weather);
    var roster := Roster(w, p, weather);
    InvitationsOutcome(base.world.remote, team, roster.value, |roster.value|);
    assert Before(roster.value, |roster.value|, e);
  }

  lemma StepWithin(w0: World, w: World, s: Step, project: nat, allowed: set<string>)
    requires ValidWorld(w) && Within(w0, w, project, allowed) && EligibleEmails(w, project) <= allowed
    ensures Within(w0, Apply(w, s), project, allowed)
  {
    hide ValidWorld, Recorded, Members, EligibleEmails, Apply;
    var w1 := Apply(w, s);
    forall team, e | Recorded(w1, team, project) && e in Members(w1.remote, team)
      ensures e in Members(w0.remote, team) || e in allowed
    {
      if Recorded(w, team, project) {
        StepConfined(w, s, team, project);
      } else {
        OnlySignRecords(w, s, team, project);
        NewTeamConfined(w, s.p, s.weather, team, project, e);
      }
    }
  }

  lemma OnlySignRecords(w: World, s: Step, team: int, project: nat)
    requires Recorded(Apply(w, s), team, project) && !Recorded(w, team, project)
    ensures s.SignUp? && Apply(w, s) == Sign(w, s.p, s.weather).0
  {
    hide Sign, AddFirst;
  }

  /** Whatever is run for whichever projects, a team that ends up recorded for a project, be it from
      the start or since some command of the run, gains only eligible maintainers of that project. */
  lemma RunConfined(w: World, steps: seq<Step>, team: int, project: nat, allowed: set<string>)
    requires ValidWorld(w) && RostersWithin(w, steps, project, allowed)
    requires Recorded(Run(w, steps), team, project)
    ensures forall e :: e in Members(Run(w, steps).remote, team) ==> e in Members(w.remote, team) || e in allowed
  {
    hide ValidWorld, Recorded, RostersWithin, Run, Members;
    RunWithin(w, w, steps, project, allowed);
  }

  lemma {:induction false} RunWithin(w0: World, w: World, steps: seq<Step>, project: nat, allowed: set<string>)
    requires ValidWorld(w) && RostersWithin(w, steps, project, allowed) && Within(w0, w, project, allowed)
    ensures Within(w0, Run(w, steps), project, allowed)
    decreases |steps|
  {
    if steps != [] {
      hide ValidWorld, Apply, Within, EligibleEmails;
      StepKeepsValid(w, steps[0]);
      StepWithin(w0, w, steps[0], project, allowed);
      RunWithin(w0, Apply(w, steps[0]), steps[1..], project, allowed);
    }
  }

  /** A record is never lost. */
  lemma {:induction false} RecordsStay(w: World, steps: seq<Step>, team: int, project: nat)
    requires ValidWorld(w) && Recorded(w, team, project)
    ensures Recorded(Run(w, steps), team, project)
    decreases |steps|
  {
    if steps != [] {
      hide ValidWorld, Apply, Recorded, Members, EligibleEmails;
      StepKeepsValid(w, steps[0]);
      StepConfined(w, steps[0], team, project);
      RecordsStay(Apply(w, steps[0]), steps[1..], team, project);
    }
  }

  /* ----- a crash is for good ----- */

  /** The team's name is taken and no row leads to it. */
  ghost predicate Stuck(w: World, p: Project) {
    && p.name in w.remote.teams
    && w.store.fossa.Some? && Find(w.store.rows, w.store.fossa.value, p.id).None?
  }

  /** Commands for the project use its name. */
  predicate NamesProject(s: Step, p: Project) {
    s.SignUp? && s.p.id == p.id ==> s.p == p
  }

  lemma SignStaysStuck(w: World, p: Project, q: Project, weather: Weather)
    requires Stuck(w, p) && (q.id == p.id ==> q == p)
    ensures Stuck(Sign(w, q, weather).0, p)
    ensures q == p && Roster(w, p, weather).Some? ==>
      Sign(w, q, weather).0 == w && Sign(w, q, weather).1.Failed? && Sign(w, q, weather).1.why == CannotCreateTeam
  {
    hide EligibleOf, Introduction, Summary, ReposReport, Taken, TreatFirst, Find;
    var base := OpenTeam(w, q, weather);
    FindLast(w.store.rows, Row(1, w.remote.nextTeam, q.id), w.store.fossa.value, p.id);
    var roster := Roster(w, q, weather);
    if roster.Some? && base.team.Some? {
      InvitationsOutcome(base.world.remote, base.team.value, roster.value, |roster.value|);
    }
  }

  lemma AcceptedKeepsTeams(w: World, p: Project, weather: Weather)
    ensures Accepted(w, p, weather).0.remote.teams == w.remote.teams
  {
    hide EligibleOf, Find, ActionsOf, AuditsOf, AddFirst;
    var found := Lookup(w.store, weather.first, p.id);
    var roster := Roster(w, p, weather);
    if found.Some? && found.value.Some? && roster.Some? && found.value.value in w.remote.members {
      AddingOutcome(w.remote, found.value.value, roster.value, |roster.value|);
    }
  }

  lemma {:induction false} RunStaysStuck(w: World, steps: seq<Step>, p: Project)
    requires Stuck(w, p) && forall s :: s in steps ==> NamesProject(s, p)
    ensures Stuck(Run(w, steps), p)
    decreases |steps|
  {
    if steps != [] {
      hide Stuck, Sign, Accepted;
      var s := steps[0];
      assert NamesProject(s, p);
      assert Stuck(Apply(w, s), p) by { StepStaysStuck(w, s, p); }
      RunStaysStuck(Apply(w, s), steps[1..], p);
    }
  }

  lemma StepStaysStuck(w: World, s: Step, p: Project)
    requires Stuck(w, p) && NamesProject(s, p)
    ensures Stuck(Apply(w, s), p)
  {
    hide Sign, Accepted, Find;
    match s
    case SignUp(q, weather) => SignStaysStuck(w, p, q, weather);
    case AddAccepted(q, weather) =>
      AcceptedKeepsRows(w, q, weather);
      AcceptedKeepsTeams(w, q, weather);
    case _ =>
  }

  /** After a crash, whatever is run in between, signing the project up only ever fails, since the
      team exists but is not on record. */
  lemma CrashIsForGood(w: World, p: Project, a: Weather, steps: seq<Step>, b: Weather)
    requires Sign(w, p, a).1.Panicked? && forall s :: s in steps ==> NamesProject(s, p)
    requires Roster(Run(Sign(w, p, a).0, steps), p, b).Some?
    ensures var later := Run(Sign(w, p, a).0, steps);
            var (w2, out) := Sign(later, p, b);
            out.Failed? && out.why == CannotCreateTeam && w2 == later
  {
    hide Run, Roster;
    assert Stuck(Sign(w, p, a).0, p) by { CrashIsStuck(w, p, a); }
    hide Sign;
    RunStaysStuck(Sign(w, p, a).0, steps, p);
    SignStaysStuck(Run(Sign(w, p, a).0, steps), p, p, b);
  }

  lemma CrashIsStuck(w: World, p: Project, a: Weather)
    requires Sign(w, p, a).1.Panicked?
    ensures Stuck(Sign(w, p, a).0, p)
  {
    hide EligibleOf, Introduction, Summary, ReposReport, Taken, TreatFirst, Find;
    var base := OpenTeam(w, p, a);
    InvitationsOutcome(base.world.remote, base.team.value, Roster(w, p, a).value, |Roster(w, p, a).value|);
    FindLast(w.store.rows, Row(1, w.remote.nextTeam, p.id), w.store.fossa.value, p.id);
    CrashesExactlyWhen(w, p, a);
  }

  /* ----- from sign-up to membership ----- */

  /** Everyone with an open invitation accepts it. */
  function AcceptAll(r: Remote, emails: seq<string>): Remote {
    if emails == [] then r
    else
      var rest := AcceptAll(r, emails[..|emails| - 1]);
      var e := emails[|emails| - 1];
      if e in rest.invitations then AcceptInvitation(rest, e) else rest
  }

  lemma {:induction false} AfterAccepting(r: Remote, emails: seq<string>)
    ensures var r1 := AcceptAll(r, emails);
            && r1 == r.(invitations := r1.invitations, users := r1.users)
            && (forall e :: e in r1.invitations <==> e in r.invitations && e !in emails)
            && (forall e :: e in r1.users <==> e in r.users || (e in r.invitations && e in emails))
  {
    if emails != [] {
      AfterAccepting(r, emails[..|emails| - 1]);
    }
  }

  /** The recorded FOSSA teams are teams the service knows, and none has id zero. */
  ghost predicate TeamsKnown(w: World) {
    && 0 < w.remote.nextTeam
    && forall row :: row in w.store.rows ==> row.team in w.remote.members && row.team != 0
  }

  lemma OpenedTeamKnown(w: World, p: Project, a: Weather)
    requires TeamsKnown(w)
    ensures TeamsKnown(OpenTeam(w, p, a).world)
    ensures OpenTeam(w, p, a).world.remote.users == w.remote.users
    ensures OpenTeam(w, p, a).world.remote.trouble == w.remote.trouble
    ensures OpenTeam(w, p, a).world.store.roster == w.store.roster
  {
  }

  /** After a successful sign-up each eligible maintainer is a user or has an invitation. */
  lemma SignedUp(w: World, p: Project, a: Weather)
    requires Sign(w, p, a).1.Done? && w.remote.trouble.send == {} && TeamsKnown(w)
    ensures var w1 := Sign(w, p, a).0;
            && TeamsKnown(w1) && w1.remote.trouble == w.remote.trouble && w1.store.roster == w.store.roster
            && w1.store.fossa.Some? && Find(w1.store.rows, w1.store.fossa.value, p.id).Some?
            && !a.roster && p.id in w.store.roster
            && forall m :: m in EligibleOf(w.store.roster[p.id]) ==> m.email in w1.remote.users + w1.remote.invitations
  {
    hide OpenTeam, TreatFirst, EligibleOf, Introduction, Summary, ReposReport, Find, Members;
    OpenedTeamKnown(w, p, a);
    var base := OpenTeam(w, p, a);
    var ms := Roster(w, p, a).value;
    InvitationsOutcome(base.world.remote, base.team.value, ms, |ms|);
    forall m | m in ms ensures m.email in Sign(w, p, a).0.remote.users + Sign(w, p, a).0.remote.invitations {
      assert Before(ms, |ms|, m.email);
    }
  }

  lemma {:induction false} FirstEmailsAll(ms: seq<Maintainer>, n: nat)
    requires n <= |ms|
    ensures forall k :: 0 <= k < n ==> ms[k].email in FirstEmails(ms, n)
  {
    if n > 0 {
      FirstEmailsAll(ms, n - 1);
    }
  }

  /** Signing up, everyone accepting, and the accepted command put every eligible maintainer on the
      team recorded for the project, when the calls these steps need go through. */
  lemma OnboardingCompletes(w: World, p: Project, a: Weather, b: Weather)
    requires Sign(w, p, a).1.Done? && !b.first && !b.roster && TeamsKnown(w)
    requires w.remote.trouble.send == {} && w.remote.trouble.add == {} && !w.remote.trouble.fetch
    requires p.id in w.store.roster
    ensures var ms := EligibleOf(w.store.roster[p.id]);
            var signed := Sign(w, p, a).0;
            var ready := signed.(remote := AcceptAll(signed.remote, FirstEmails(ms, |ms|)));
            var done := Accepted(ready, p, b).0;
            && done.store.fossa.Some? && Find(done.store.rows, done.store.fossa.value, p.id).Some?
            && forall m :: m in ms ==>
                 m.email in Members(done.remote, Find(done.store.rows, done.store.fossa.value, p.id).value)
  {
    hide EligibleOf, Sign, AddMaintainers, Find, Members, AcceptAll, FirstEmails;
    SignedUp(w, p, a);
    var ms := EligibleOf(w.store.roster[p.id]);
    var signed := Sign(w, p, a).0;
    var emails := FirstEmails(ms, |ms|);
    var ready := signed.(remote := AcceptAll(signed.remote, emails));
    AfterAccepting(signed.remote, emails);
    FirstEmailsAll(ms, |ms|);
    AcceptedKeepsRows(ready, p, b);
    FindIsARow(ready.store.rows, ready.store.fossa.value, p.id);
    var team := Find(ready.store.rows, ready.store.fossa.value, p.id).value;
    forall m | m in ms ensures m.email in Members(Accepted(ready, p, b).0.remote, team) {
      WhoIsOnTheTeam(ready, p, team, b, m.email);
    }
  }
}
