/** The remote FOSSA service as its callers may rely on it, together with the
    other actors that change it and the ways a call can fail.

    A schedule fixes, for the k-th API call ever made, what the other actors do
    just before the service handles it and whether the call fails.  A run makes
    finitely many calls, so quantifying over schedules is quantifying over its
    interleavings and faults. */
module FossaService {
  import opened Options
  import opened Text

  datatype Failure = InviteAlreadyExists | UserAlreadyMember | OtherFailure(text: string)

  datatype Team = Team(id: int, name: string)

  /** Users and team members keep their spelling; pending addresses are folded. */
  datatype Org = Org(
    users: seq<string>,
    pending: set<string>,
    teams: map<string, int>,
    members: map<int, seq<string>>,
    nextTeam: int)

  ghost predicate ValidOrg(o: Org) {
    && o.pending !! Folded(o.users)
    && 1 <= o.nextTeam
    && (forall n :: n in o.teams ==> 1 <= o.teams[n] < o.nextTeam && o.teams[n] in o.members)
    && (forall m, n :: m in o.teams && n in o.teams && o.teams[m] == o.teams[n] ==> m == n)
    && (forall id :: id in o.members ==>
          id < o.nextTeam && Folded(o.members[id]) <= Folded(o.users) && DistinctFold(o.members[id]))
  }

  predicate IsUser(o: Org, email: string) { Lower(email) in Folded(o.users) }

  predicate IsPending(o: Org, email: string) { Lower(email) in o.pending }

  predicate OnTeam(o: Org, team: int, email: string) {
    team in o.members && Lower(email) in Folded(o.members[team])
  }

  /* ----- other actors ----- */

  datatype EnvStep =
    | Accept(email: string)
    | Expire(email: string)
    | Join(email: string)
    | Leave(email: string)
    | OpenTeam(name: string)
    | AddByHand(team: int, email: string)
    | RemoveByHand(team: int, email: string)

  function JoinOrg(o: Org, email: string): Org {
    if IsUser(o, email) then o
    else o.(users := o.users + [email], pending := o.pending - {Lower(email)})
  }

  function ApplyStep(o: Org, e: EnvStep): Org {
    match e
    case Accept(x) => if IsPending(o, x) then JoinOrg(o, x) else o
    case Expire(x) => o.(pending := o.pending - {Lower(x)})
    case Join(x) => JoinOrg(o, x)
    case Leave(x) =>
      o.(users := Without(o.users, x), members := map id | id in o.members :: Without(o.members[id], x))
    case OpenTeam(n) => if n in o.teams then o else AddTeam(o, n)
    case AddByHand(t, x) => if t in o.members && IsUser(o, x) && !OnTeam(o, t, x) then AddMember(o, t, x) else o
    case RemoveByHand(t, x) =>
      if t in o.members then o.(members := o.members[t := Without(o.members[t], x)]) else o
  }

  function ApplyAll(o: Org, es: seq<EnvStep>): Org
    decreases |es|
  {
    if es == [] then o else ApplyStep(ApplyAll(o, es[..|es| - 1]), es[|es| - 1])
  }

  /* ----- API calls ----- */

  datatype Call =
    | FetchTeam(name: string)
    | CreateTeam(name: string)
    | FetchUsers
    | HasPendingInvitation(email: string)
    | SendUserInvitation(email: string)
    | FetchTeamUserEmails(team: int)
    | AddUserToTeamByEmail(team: int, email: string, role: int)
  {
    predicate Mutates() { CreateTeam? || SendUserInvitation? || AddUserToTeamByEmail? }
  }

  datatype Reply = Done | Flag(on: bool) | Emails(list: seq<string>) | TeamIs(team: Team) | Error(why: Failure)

  function AddTeam(o: Org, name: string): Org {
    o.(teams := o.teams[name := o.nextTeam], members := o.members[o.nextTeam := []], nextTeam := o.nextTeam + 1)
  }

  function AddMember(o: Org, team: int, email: string): Org
    requires team in o.members
  {
    o.(members := o.members[team := o.members[team] + [email]])
  }

  /** What the service does with a call that gets through. */
  function Execute(o: Org, c: Call): (Org, Reply) {
    match c
    case FetchTeam(n) =>
      (o, if n in o.teams then TeamIs(Team(o.teams[n], n)) else Error(OtherFailure("team not found")))
    case CreateTeam(n) =>
      if n in o.teams then (o, TeamIs(Team(o.teams[n], n)))
      else (AddTeam(o, n), TeamIs(Team(o.nextTeam, n)))
    case FetchUsers => (o, Emails(o.users))
    case HasPendingInvitation(x) => (o, Flag(IsPending(o, x)))
    case SendUserInvitation(x) =>
      if IsUser(o, x) then (o, Error(UserAlreadyMember))
      else if IsPending(o, x) then (o, Error(InviteAlreadyExists))
      else (o.(pending := o.pending + {Lower(x)}), Done)
    case FetchTeamUserEmails(t) =>
      (o, if t in o.members then Emails(o.members[t]) else Error(OtherFailure("team not found")))
    case AddUserToTeamByEmail(t, x, _) =>
      if t !in o.members || !IsUser(o, x) then (o, Error(OtherFailure("user not found")))
      else if OnTeam(o, t, x) then (o, Error(UserAlreadyMember))
      else (AddMember(o, t, x), Done)
  }

  /** A team that is there is found under its name, and creating it again creates none. */
  lemma TeamIsCreatedOnce(o: Org, n: string)
    ensures var (o1, created) := Execute(o, CreateTeam(n));
            && created.TeamIs? && created.team.name == n
            && Execute(o1, CreateTeam(n)) == (o1, created) && Execute(o1, FetchTeam(n)) == (o1, created)
            && (Execute(o, FetchTeam(n)).1.TeamIs? ==> o1 == o)
  {
    assert n in Execute(o, CreateTeam(n)).0.teams;
  }

  /** A refused call has no effect; a lost reply has its effect but reports failure. */
  datatype Fault = NoFault | Refused(text: string) | LostReply(text: string)

  datatype Tick = Tick(before: seq<EnvStep>, fault: Fault)

  /** The ticks of the calls to come; calls beyond its end meet no interference and no fault. */
  type Schedule = seq<Tick>

  function At(sched: Schedule, k: nat): Tick {
    if k < |sched| then sched[k] else Tick([], NoFault)
  }

  /** One API call: the state it met, its answer, and the state it left. */
  datatype Entry = Entry(call: Call, reply: Reply, seen: Org, left: Org)

  datatype World = World(org: Org, log: seq<Entry>)

  function Perform(w: World, sched: Schedule, c: Call): (World, Reply) {
    var t := At(sched, |w.log|);
    var seen := ApplyAll(w.org, t.before);
    var done := Execute(seen, c);
    var left := if t.fault.Refused? then seen else done.0;
    var reply := if t.fault.NoFault? then done.1 else Error(OtherFailure(t.fault.text));
    (World(left, w.log + [Entry(c, reply, seen, left)]), reply)
  }

  /* ----- service invariant ----- */

  lemma StepKeepsValid(o: Org, e: EnvStep)
    requires ValidOrg(o)
    ensures ValidOrg(ApplyStep(o, e))
  {
    match e
    case Accept(x) => FoldedAppend(o.users, x);
    case Join(x) => FoldedAppend(o.users, x);
    case AddByHand(t, x) => if t in o.members { AddMemberKeepsValid(o, t, x); }
    case OpenTeam(n) =>
    case _ =>
  }

  lemma AddMemberKeepsValid(o: Org, t: int, x: string)
    requires ValidOrg(o) && t in o.members
    ensures IsUser(o, x) && !OnTeam(o, t, x) ==> ValidOrg(AddMember(o, t, x))
  {
    FoldedAppend(o.members[t], x);
    if !OnTeam(o, t, x) {
      DistinctFoldAppend(o.members[t], x);
    }
  }

  lemma {:induction false} StepsKeepValid(o: Org, es: seq<EnvStep>)
    requires ValidOrg(o)
    ensures ValidOrg(ApplyAll(o, es))
    decreases |es|
  {
    if es != [] {
      StepsKeepValid(o, es[..|es| - 1]);
      StepKeepsValid(ApplyAll(o, es[..|es| - 1]), es[|es| - 1]);
    }
  }

  lemma ExecuteKeepsValid(o: Org, c: Call)
    requires ValidOrg(o)
    ensures ValidOrg(Execute(o, c).0)
  {
    match c
    case AddUserToTeamByEmail(t, x, _) => if t in o.members { AddMemberKeepsValid(o, t, x); }
    case _ =>
  }

  /** Whatever the schedule does around a call, the service invariant survives. */
  lemma PerformKeepsValid(w: World, sched: Schedule, c: Call)
    requires ValidOrg(w.org)
    ensures ValidOrg(Perform(w, sched, c).0.org)
  {
    var t := At(sched, |w.log|);
    StepsKeepValid(w.org, t.before);
    ExecuteKeepsValid(ApplyAll(w.org, t.before), c);
  }

  /** The service as an object: the state, the history of calls, and its schedule. */
  class Service {
    var org: Org
    var log: seq<Entry>
    const schedule: Schedule

    constructor (org: Org, schedule: Schedule)
      ensures Now() == World(org, []) && this.schedule == schedule
    {
      this.org := org;
      this.log := [];
      this.schedule := schedule;
    }

    function Now(): World
      reads this
    {
      World(org, log)
    }

    /** One API call over the network. */
    method Do(c: Call) returns (reply: Reply)
      modifies this
      ensures (Now(), reply) == Perform(old(Now()), schedule, c)
    {
      var tick := At(schedule, |log|);
      var i := 0;
      while i < |tick.before|
        invariant 0 <= i <= |tick.before|
        invariant org == ApplyAll(old(org), tick.before[..i])
        invariant log == old(log)
      {
        org := ApplyStep(org, tick.before[i]);
        i := i + 1;
        assert tick.before[..i][..i - 1] == tick.before[..i - 1];
      }
      assert tick.before[..i] == tick.before;
      var seen := org;
      var (after, answer) := Execute(seen, c);
      reply := if tick.fault.NoFault? then answer else Error(OtherFailure(tick.fault.text));
      if !tick.fault.Refused? {
        org := after;
      }
      log := log + [Entry(c, reply, seen, org)];
    }
  }
}
