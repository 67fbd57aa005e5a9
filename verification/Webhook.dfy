/** The two onboarding commands: signing a project up, and adding its maintainers once they accepted. */
module Webhook {
  import opened Options
  import opened Text
  import opened MockFossa

  datatype Project = Project(id: nat, name: string)
  datatype Maintainer = Maintainer(id: nat, name: string, email: string, handle: string)

  /** A service-team row: which team of which service belongs to which project. */
  datatype Row = Row(service: nat, team: int, project: nat)
  datatype Audit = Audit(project: nat, maintainer: nat, handle: string)
  datatype Store = Store(roster: map<nat, seq<Maintainer>>, fossa: Option<nat>, rows: seq<Row>, audits: seq<Audit>)

  /** Which database calls fail during one command; `audits` holds the maintainers whose event is lost. */
  datatype Weather = Weather(roster: bool, first: bool, record: bool, second: bool, audits: set<nat>)

  datatype World = World(store: Store, remote: Remote)

  datatype Field = EmailField | HandleField
  datatype Gap = Gap(display: string, fields: seq<Field>)
  datatype Action =
    | NotInDb | Registered(count: nat) | MissingFields(gaps: seq<Gap>) | LookupFailed
    | TeamThere(id: int) | TeamFailed | TeamCreated(id: int) | NobodyYet
    | AddProblem(handle: string) | SendProblem(handle: string)
    | InvitedThese(handles: seq<string>) | JoinedThese(handles: seq<string>)
    | ReposProblem | NoRepos | Repos(count: nat)
    | NoneRegistered | StillPending(handle: string) | AlreadyMember(handle: string)
    | AddError(handle: string) | Added(handle: string)
  datatype Why = RosterUnknown | CannotCreateTeam | NoMaintainers | LookupError | CannotFetchMembers
  datatype Outcome = Done(actions: seq<Action>) | Failed(actions: seq<Action>, why: Why) | Panicked
                   | TeamMissing | Silent

  /* ----- who takes part ----- */

  predicate Eligible(m: Maintainer) {
    && Trim(m.email) != "" && Trim(m.email) != "EMAIL_MISSING"
    && Trim(m.handle) != "" && Trim(m.handle) != "GITHUB_MISSING"
  }

  function EligibleOf(ms: seq<Maintainer>): (r: seq<Maintainer>)
    ensures forall m :: m in r <==> m in ms && Eligible(m)
  {
    if ms == [] then []
    else
      assert ms == ms[..|ms| - 1] + [ms[|ms| - 1]];
      EligibleOf(ms[..|ms| - 1]) + (if Eligible(ms[|ms| - 1]) then [ms[|ms| - 1]] else [])
  }

  function GapOf(m: Maintainer): Gap {
    var handle, name := Trim(m.handle), Trim(m.name);
    Gap(if handle != "" && handle != "GITHUB_MISSING" then "@" + handle
        else if name != "" then name else "UNKNOWN_MAINTAINER",
        (if Trim(m.email) == "" || m.email == "EMAIL_MISSING" then [EmailField] else []) +
        (if Trim(m.handle) == "" || m.handle == "GITHUB_MISSING" then [HandleField] else []))
  }

  function GapsOf(ms: seq<Maintainer>): seq<Gap> {
    if ms == [] then []
    else GapsOf(ms[..|ms| - 1]) + (if Eligible(ms[|ms| - 1]) then [] else [GapOf(ms[|ms| - 1])])
  }

  function Emails(ms: seq<Maintainer>): (r: set<string>)
    ensures forall m :: m in ms ==> m.email in r
  {
    set m | m in ms :: m.email
  }

  function Roster(w: World, p: Project, weather: Weather): Option<seq<Maintainer>> {
    if weather.roster || p.id !in w.store.roster then None else Some(EligibleOf(w.store.roster[p.id]))
  }

  /* ----- recorded teams ----- */

  /** The last FOSSA row of the project wins, as it overwrites the map entry. */
  function Find(rows: seq<Row>, service: nat, project: nat): Option<int> {
    if rows == [] then None
    else if rows[|rows| - 1].service == service && rows[|rows| - 1].project == project then Some(rows[|rows| - 1].team)
    else Find(rows[..|rows| - 1], service, project)
  }

  /** None when the lookup itself fails. */
  function Lookup(s: Store, down: bool, project: nat): Option<Option<int>> {
    if down || s.fossa.None? then None else Some(Find(s.rows, s.fossa.value, project))
  }

  function Entry(teams: Option<map<nat, int>>, project: nat): Option<Option<int>> {
    if teams.None? then None
    else Some(if project in teams.value then Some(teams.value[project]) else None)
  }

  predicate Taken(rows: seq<Row>, team: int) {
    exists i :: 0 <= i < |rows| && rows[i].team == team
  }

  /** First-or-create on the team id alone, always for service 1. */
  function Record(s: Store, down: bool, project: nat, team: int): Store {
    if down || Taken(s.rows, team) then s else s.(rows := s.rows + [Row(1, team, project)])
  }

  /* ----- signing up ----- */

  datatype Fate = Invited | Joined | AddFailed | SendFailed

  function Treat(r: Remote, team: int, m: Maintainer): (Remote, Fate) {
    var (r1, answer) := SendUserInvitation(r, m.email);
    if answer.InviteExists? then (r1, Invited)
    else if answer.UserIsMember? then
      var (r2, added) := AddUserToTeam(r1, team, m.email);
      (r2, if added.Ok? then Joined else AddFailed)
    else if !answer.Ok? then (r1, SendFailed)
    else (r1, Invited)
  }

  /** The first n turns of the invitation loop. */
  function TreatFirst(r: Remote, team: int, ms: seq<Maintainer>, n: nat): (out: (Remote, seq<Fate>))
    requires n <= |ms|
    ensures |out.1| == n
  {
    if n == 0 then (r, [])
    else
      var (r1, fates) := TreatFirst(r, team, ms, n - 1);
      var (r2, fate) := Treat(r1, team, ms[n - 1]);
      (r2, fates + [fate])
  }

  /** The handles whose fate is f, in order. */
  function With(ms: seq<Maintainer>, fates: seq<Fate>, f: Fate): seq<string>
    requires |fates| <= |ms|
  {
    if fates == [] then []
    else With(ms, fates[..|fates| - 1], f) + (if fates[|fates| - 1] == f then [ms[|fates| - 1].handle] else [])
  }

  function Problems(ms: seq<Maintainer>, fates: seq<Fate>): seq<Action>
    requires |fates| <= |ms|
  {
    if fates == [] then []
    else
      var n := |fates| - 1;
      Problems(ms, fates[..n]) + ProblemOf(ms[n], fates[n])
  }

  function ProblemOf(m: Maintainer, fate: Fate): seq<Action> {
    match fate
    case AddFailed => [AddProblem(m.handle)]
    case SendFailed => [SendProblem(m.handle)]
    case _ => []
  }

  lemma OneMoreFate(ms: seq<Maintainer>, fates: seq<Fate>, fate: Fate)
    requires |fates| < |ms|
    ensures forall f :: With(ms, fates + [fate], f)
                     == With(ms, fates, f) + (if fate == f then [ms[|fates|].handle] else [])
    ensures Problems(ms, fates + [fate]) == Problems(ms, fates) + ProblemOf(ms[|fates|], fate)
  {
    assert (fates + [fate])[..|fates|] == fates;
  }

  function Introduction(ms: seq<Maintainer>): seq<Action> {
    [Registered(|EligibleOf(ms)|)] + (if GapsOf(ms) == [] then [] else [MissingFields(GapsOf(ms))])
  }

  datatype Opened = Opened(world: World, actions: seq<Action>, team: Option<int>)

  /** Finds the recorded team or creates one; a failed lookup reads as no team. */
  function OpenTeam(w: World, p: Project, weather: Weather): Opened {
    var found := Lookup(w.store, weather.first, p.id);
    var warned := if found.None? then [LookupFailed] else [];
    if found.Some? && found.value.Some? then Opened(w, [TeamThere(found.value.value)], found.value)
    else
      var (r, answer) := CreateTeam(w.remote, p.name);
      if !answer.Team? then Opened(w.(remote := r), warned + [TeamFailed], None)
      else
        Opened(World(Record(w.store, weather.record, p.id, answer.id), r), warned + [TeamCreated(answer.id)],
               Some(answer.id))
  }

  function Summary(ms: seq<Maintainer>, fates: seq<Fate>): seq<Action>
    requires |fates| <= |ms|
  {
    Problems(ms, fates) +
    (if With(ms, fates, Invited) == [] then [] else [InvitedThese(With(ms, fates, Invited))]) +
    (if With(ms, fates, Joined) == [] then [] else [JoinedThese(With(ms, fates, Joined))])
  }

  function ReposReport(r: Remote, team: int): seq<Action> {
    var count := if r.trouble.repos || team !in r.repos then 0 else r.repos[team];
    (if r.trouble.repos then [ReposProblem] else []) + [if count == 0 then NoRepos else Repos(count)]
  }

  function Sign(w: World, p: Project, weather: Weather): (World, Outcome) {
    var roster := Roster(w, p, weather);
    if roster.None? then (w, Failed([NotInDb], RosterUnknown))
    else
      var intro := Introduction(w.store.roster[p.id]);
      var base := OpenTeam(w, p, weather);
      if base.team.None? then (base.world, Failed(intro + base.actions, CannotCreateTeam))
      else if roster.value == [] then (base.world, Failed(intro + base.actions + [NobodyYet], NoMaintainers))
      else
        var (r, fates) := TreatFirst(base.world.remote, base.team.value, roster.value, |roster.value|);
        var w2 := base.world.(remote := r);
        var again := Lookup(w2.store, weather.second, p.id);
        if again.None? then (w2, Failed([], LookupError))
        else if again.value.None? then (w2, Panicked)
        else (w2, Done(intro + base.actions + Summary(roster.value, fates) + ReposReport(r, again.value.value)))
  }

  /* ----- adding those who accepted ----- */

  datatype AddFate = Pending | Already | Refused | Joining

  function AddOne(r: Remote, existing: seq<string>, team: int, m: Maintainer): (Remote, seq<string>, AddFate) {
    if HasPendingInvitation(r, m.email) then (r, existing, Pending)
    else if m.email in existing then (r, existing, Already)
    else
      var (r1, answer) := AddUserToTeam(r, team, m.email);
      if answer.UserIsMember? then (r1, existing, Already)
      else if !answer.Ok? then (r1, existing, Refused)
      else (r1, existing + [m.email], Joining)
  }

  function AddFirst(r: Remote, existing: seq<string>, team: int, ms: seq<Maintainer>, n: nat)
    : (out: (Remote, seq<string>, seq<AddFate>))
    requires n <= |ms|
    ensures |out.2| == n
  {
    if n == 0 then (r, existing, [])
    else
      var (r1, seen, fates) := AddFirst(r, existing, team, ms, n - 1);
      var (r2, seen2, fate) := AddOne(r1, seen, team, ms[n - 1]);
      (r2, seen2, fates + [fate])
  }

  function ActionOf(m: Maintainer, fate: AddFate): Action {
    match fate
    case Pending => StillPending(m.handle)
    case Already => AlreadyMember(m.handle)
    case Refused => AddError(m.handle)
    case Joining => Added(m.handle)
  }

  function ActionsOf(ms: seq<Maintainer>, fates: seq<AddFate>): seq<Action>
    requires |fates| <= |ms|
  {
    if fates == [] then []
    else ActionsOf(ms, fates[..|fates| - 1]) + [ActionOf(ms[|fates| - 1], fates[|fates| - 1])]
  }

  /** The events written for the members added, except those the database lost. */
  function AuditsOf(p: Project, ms: seq<Maintainer>, fates: seq<AddFate>, lost: set<nat>): seq<Audit>
    requires |fates| <= |ms|
  {
    if fates == [] then []
    else
      var n := |fates| - 1;
      AuditsOf(p, ms, fates[..n], lost) +
      (if fates[n].Joining? && ms[n].id !in lost then [Audit(p.id, ms[n].id, ms[n].handle)] else [])
  }

  lemma OneMoreAddFate(p: Project, ms: seq<Maintainer>, fates: seq<AddFate>, fate: AddFate, lost: set<nat>)
    requires |fates| < |ms|
    ensures var m := ms[|fates|];
            && ActionsOf(ms, fates + [fate]) == ActionsOf(ms, fates) + [ActionOf(m, fate)]
            && AuditsOf(p, ms, fates + [fate], lost) == AuditsOf(p, ms, fates, lost)
                 + (if fate.Joining? && m.id !in lost then [Audit(p.id, m.id, m.handle)] else [])
  {
    assert (fates + [fate])[..|fates|] == fates;
  }

  function AddMaintainers(w: World, p: Project, team: int, weather: Weather): (World, Outcome) {
    var roster := Roster(w, p, weather);
    if roster.None? then (w, Failed([], RosterUnknown))
    else if roster.value == [] then (w, Done([NoneRegistered]))
    else if w.remote.trouble.fetch || team !in w.remote.members then (w, Failed([], CannotFetchMembers))
    else
      var (r, _, fates) := AddFirst(w.remote, w.remote.members[team], team, roster.value, |roster.value|);
      var audits := AuditsOf(p, roster.value, fates, weather.audits);
      (World(w.store.(audits := w.store.audits + audits), r), Done(ActionsOf(roster.value, fates)))
  }

  /** The comment "/fossa-invite accepted": team id zero counts as no team. */
  function Accepted(w: World, p: Project, weather: Weather): (World, Outcome) {
    var found := Lookup(w.store, weather.first, p.id);
    if found.None? then (w, Silent)
    else if found.value.None? || found.value.value == 0 then (w, TeamMissing)
    else AddMaintainers(w, p, found.value.value, weather)
  }

  /* ----- the listener ----- */

  class EventListener {
    var roster: map<nat, seq<Maintainer>>
    var fossa: Option<nat>
    var rows: seq<Row>
    var audits: seq<Audit>
    const client: Client

    constructor (s: Store, client: Client)
      ensures Now() == World(s, client.Now()) && this.client == client
    {
      roster, fossa, rows, audits := s.roster, s.fossa, s.rows, s.audits;
      this.client := client;
    }

    function Now(): World
      reads this, client
    {
      World(Store(roster, fossa, rows, audits), client.Now())
    }

    method FilterEligible(ms: seq<Maintainer>) returns (eligible: seq<Maintainer>, gaps: seq<Gap>)
      ensures eligible == EligibleOf(ms) && gaps == GapsOf(ms)
    {
      eligible, gaps := [], [];
      for i := 0 to |ms|
        invariant eligible == EligibleOf(ms[..i]) && gaps == GapsOf(ms[..i])
      {
        assert ms[..i + 1][..i] == ms[..i];
        if Eligible(ms[i]) {
          eligible := eligible + [ms[i]];
        } else {
          gaps := gaps + [GapOf(ms[i])];
        }
      }
      assert ms[..|ms|] == ms;
    }

    /** The team map is rebuilt from the rows, later rows overwriting earlier ones. */
    method TeamMap(down: bool) returns (found: Option<map<nat, int>>)
      ensures forall p: nat :: Lookup(Now().store, down, p) == Entry(found, p)
    {
      if down || fossa.None? {
        return None;
      }
      var teams: map<nat, int> := map[];
      for i := 0 to |rows|
        invariant forall p: nat :: Find(rows[..i], fossa.value, p) == if p in teams then Some(teams[p]) else None
      {
        assert rows[..i + 1][..i] == rows[..i];
        if rows[i].service == fossa.value {
          teams := teams[rows[i].project := rows[i].team];
        }
      }
      assert rows[..|rows|] == rows;
      found := Some(teams);
    }

    method CreateServiceTeam(down: bool, project: nat, team: int)
      modifies this`rows
      ensures Now() == old(Now()).(store := Record(old(Now()).store, down, project, team))
    {
      if !down {
        var i := 0;
        while i < |rows|
          invariant 0 <= i <= |rows| && rows == old(rows) && !Taken(rows[..i], team)
        {
          if rows[i].team == team {
            return;
          }
          i := i + 1;
        }
        assert rows[..i] == rows;
        rows := rows + [Row(1, team, project)];
      }
    }

    /** The recorded team, or a new one recorded as far as the database allows. */
    method EnsureTeam(p: Project, weather: Weather) returns (actions: seq<Action>, team: Option<int>)
      modifies this`rows, client
      ensures Opened(Now(), actions, team) == OpenTeam(old(Now()), p, weather)
    {
      hide Lookup, CreateTeam, Record;
      actions, team := [], None;
      var teams := TeamMap(weather.first);
      assert Lookup(Now().store, weather.first, p.id) == Entry(teams, p.id);
      if teams.None? {
        actions := actions + [LookupFailed];
      }
      assert actions == if teams.None? then [LookupFailed] else [];
      if teams.Some? && p.id in teams.value {
        team := Some(teams.value[p.id]);
        actions := actions + [TeamThere(team.value)];
        return;
      }
      var answer := client.Create(p.name);
      if !answer.Team? {
        actions := actions + [TeamFailed];
        return;
      }
      team := Some(answer.id);
      actions := actions + [TeamCreated(answer.id)];
      CreateServiceTeam(weather.record, p.id, answer.id);
    }

    method CountRepos(team: int) returns (actions: seq<Action>)
      ensures actions == ReposReport(client.Now(), team)
    {
      actions := [];
      var count := 0;
      if client.trouble.repos {
        actions := actions + [ReposProblem];
      } else if team in client.repos {
        count := client.repos[team];
      }
      actions := actions + [if count == 0 then NoRepos else Repos(count)];
    }

    method SignProjectUp(p: Project, weather: Weather) returns (out: Outcome)
      modifies this`rows, client
      ensures (Now(), out) == Sign(old(Now()), p, weather)
    {
      hide Lookup, OpenTeam, TreatFirst, EligibleOf, GapsOf, Summary, ReposReport;
      if weather.roster || p.id !in roster {
        return Failed([NotInDb], RosterUnknown);
      }
      var eligible, gaps := FilterEligible(roster[p.id]);
      var actions := [Registered(|eligible|)];
      if |gaps| > 0 {
        actions := actions + [MissingFields(gaps)];
      }
      assert actions == Introduction(roster[p.id]);
      hide Introduction;
      var more, team := EnsureTeam(p, weather);
      actions := actions + more;
      if team.None? {
        return Failed(actions, CannotCreateTeam);
      }
      if |eligible| == 0 {
        return Failed(actions + [NobodyYet], NoMaintainers);
      }
      var news := InviteAll(team.value, eligible);
      actions := actions + news;
      var again := TeamMap(weather.second);
      if again.None? {
        return Failed([], LookupError);
      }
      if p.id !in again.value {
        return Panicked;
      }
      var report := CountRepos(again.value[p.id]);
      return Done(actions + report);
    }

    method InviteAll(team: int, eligible: seq<Maintainer>) returns (actions: seq<Action>)
      modifies client
      ensures var (r, fates) := TreatFirst(old(client.Now()), team, eligible, |eligible|);
              client.Now() == r && actions == Summary(eligible, fates)
    {
      actions := [];
      var invited, joined := [], [];
      ghost var fates: seq<Fate> := [];
      assert With(eligible, fates, Invited) == [] && With(eligible, fates, Joined) == [];
      assert Problems(eligible, fates) == [];
      hide SendUserInvitation, AddUserToTeam, With, Problems;
      for i := 0 to |eligible|
        invariant (client.Now(), fates) == TreatFirst(old(client.Now()), team, eligible, i)
        invariant actions == Problems(eligible, fates)
        invariant invited == With(eligible, fates, Invited) && joined == With(eligible, fates, Joined)
      {
        var m := eligible[i];
        ghost var fate := Treat(client.Now(), team, m).1;
        OneMoreFate(eligible, fates, fate);
        var answer := client.Send(m.email);
        if answer.InviteExists? {
          invited := invited + [m.handle];
        } else if answer.UserIsMember? {
          var added := client.Add(team, m.email);
          if !added.Ok? {
            actions := actions + [AddProblem(m.handle)];
          } else {
            joined := joined + [m.handle];
          }
        } else if !answer.Ok? {
          actions := actions + [SendProblem(m.handle)];
        } else {
          invited := invited + [m.handle];
        }
        fates := fates + [fate];
      }
      if |invited| > 0 {
        actions := actions + [InvitedThese(invited)];
      }
      if |joined| != 0 {
        actions := actions + [JoinedThese(joined)];
      }
    }

    /** One turn of the loop: asks about the invitation, the list, then the service. */
    method AddMaintainer(p: Project, existing: seq<string>, team: int, m: Maintainer, lost: set<nat>)
      returns (seen: seq<string>, action: Action, ghost fate: AddFate)
      modifies this`audits, client
      ensures (client.Now(), seen, fate) == AddOne(old(client.Now()), existing, team, m)
      ensures action == ActionOf(m, fate)
      ensures audits == old(audits) + (if fate.Joining? && m.id !in lost then [Audit(p.id, m.id, m.handle)] else [])
    {
      hide AddUserToTeam;
      seen := existing;
      fate := AddOne(client.Now(), existing, team, m).2;
      if m.email in client.invitations && m.email !in client.trouble.pending {
        action := StillPending(m.handle);
        return;
      }
      if m.email in existing {
        action := AlreadyMember(m.handle);
        return;
      }
      var answer := client.Add(team, m.email);
      if !answer.Ok? {
        action := if answer.UserIsMember? then AlreadyMember(m.handle) else AddError(m.handle);
        return;
      }
      action := Added(m.handle);
      if m.id !in lost {
        audits := audits + [Audit(p.id, m.id, m.handle)];
      }
      seen := existing + [m.email];
    }

    method AddProjectMaintainers(p: Project, team: int, weather: Weather) returns (out: Outcome)
      modifies this`audits, client
      ensures (Now(), out) == AddMaintainers(old(Now()), p, team, weather)
    {
      hide AddFirst, EligibleOf, ActionsOf, AuditsOf;
      if weather.roster || p.id !in roster {
        return Failed([], RosterUnknown);
      }
      var eligible, _ := FilterEligible(roster[p.id]);
      if |eligible| == 0 {
        return Done([NoneRegistered]);
      }
      var known, existing := client.FetchEmails(team);
      if !known {
        return Failed([], CannotFetchMembers);
      }
      var actions := AddEach(p, existing, team, eligible, weather.audits);
      return Done(actions);
    }

    method AddEach(p: Project, members: seq<string>, team: int, eligible: seq<Maintainer>, lost: set<nat>)
      returns (actions: seq<Action>)
      modifies this`audits, client
      ensures var (r, _, fates) := AddFirst(old(client.Now()), members, team, eligible, |eligible|);
              && client.Now() == r && actions == ActionsOf(eligible, fates)
              && audits == old(audits) + AuditsOf(p, eligible, fates, lost)
    {
      actions := [];
      var existing := members;
      ghost var fates: seq<AddFate> := [];
      assert ActionsOf(eligible, fates) == [] && AuditsOf(p, eligible, fates, lost) == [];
      hide AddOne, ActionOf, ActionsOf, AuditsOf;
      for i := 0 to |eligible|
        invariant (client.Now(), existing, fates) == AddFirst(old(client.Now()), members, team, eligible, i)
        invariant actions == ActionsOf(eligible, fates)
        invariant audits == old(audits) + AuditsOf(p, eligible, fates, lost)
      {
        var seen, action, fate := AddMaintainer(p, existing, team, eligible[i], lost);
        OneMoreAddFate(p, eligible, fates, fate, lost);
        existing, actions, fates := seen, actions + [action], fates + [fate];
      }
    }

    method OnAccepted(p: Project, weather: Weather) returns (out: Outcome)
      modifies this`audits, client
      ensures (Now(), out) == Accepted(old(Now()), p, weather)
    {
      hide Find, AddMaintainers;
      var teams := TeamMap(weather.first);
      if teams.None? {
        return Silent;
      }
      if p.id !in teams.value || teams.value[p.id] == 0 {
        return TeamMissing;
      }
      out := AddProjectMaintainers(p, teams.value[p.id], weather);
    }
  }
}
