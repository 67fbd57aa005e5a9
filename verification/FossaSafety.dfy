/** Safety over whole runs: an entry the controller marks as added to the team
    was a member of that team at a moment of the pass that marked it. */
module FossaSafety {
  import opened Options
  import opened Text
  import opened FossaService
  import opened FossaPass
  import opened FossaHistory

  /** Some call of the log between the two positions met or left the address on the team. */
  ghost predicate Witnessed(log: seq<Entry>, from: nat, to: nat, team: int, email: string) {
    exists k :: from <= k < to <= |log| && (OnTeam(log[k].seen, team, email) || OnTeam(log[k].left, team, email))
  }

  ghost predicate AllWitnessed(log: seq<Entry>, from: nat, to: nat, team: int, list: seq<Invitation>) {
    forall i :: 0 <= i < |list| && list[i].status == AddedToTeam ==> Witnessed(log, from, to, team, list[i].email)
  }

  lemma WitnessedGrows(log: seq<Entry>, more: seq<Entry>, from: nat, to: nat, from': nat, to': nat, team: int, email: string)
    requires Witnessed(log, from, to, team, email)
    requires log <= more && from' <= from && to <= to' <= |more|
    ensures Witnessed(more, from', to', team, email)
  {
    var k :| from <= k < to <= |log| && (OnTeam(log[k].seen, team, email) || OnTeam(log[k].left, team, email));
    assert more[k] == log[k];
  }

  lemma AllWitnessedGrows(log: seq<Entry>, more: seq<Entry>, from: nat, to: nat, from': nat, to': nat,
                          team: int, list: seq<Invitation>)
    requires AllWitnessed(log, from, to, team, list)
    requires log <= more && from' <= from && to <= to' <= |more|
    ensures AllWitnessed(more, from', to', team, list)
  {
    forall i | 0 <= i < |list| && list[i].status == AddedToTeam
      ensures Witnessed(more, from', to', team, list[i].email)
    {
      WitnessedGrows(log, more, from, to, from', to', team, list[i].email);
    }
  }

  /** Membership comes either from the list fetched at `from`, or from a call of its own. */
  lemma JoinOneWitnessed(w: World, sched: Schedule, team: int, members: set<string>, inv: Invitation, now: int, from: nat)
    requires from < |w.log| && team in w.log[from].seen.members
    requires members == Folded(w.log[from].seen.members[team])
    requires inv.status != AddedToTeam
    ensures var (w', inv') := JoinOne(w, sched, team, members, inv, now);
      inv'.status == AddedToTeam ==> Witnessed(w'.log, from, |w'.log|, team, inv'.email)
  {
    var (w', inv') := JoinOne(w, sched, team, members, inv, now);
    if inv'.status == AddedToTeam {
      if Lower(inv.email) in members {
        assert OnTeam(w'.log[from].seen, team, inv.email);
      } else {
        var k := |w.log|;
        if !OnTeam(w'.log[k].seen, team, inv.email) {
          FoldedAppend(w'.log[k].seen.members[team], inv.email);
          assert OnTeam(w'.log[k].left, team, inv.email);
        }
      }
    }
  }

  lemma {:induction false} JoinFirstWitnessed(w: World, sched: Schedule, team: int, members: set<string>,
                                              list: seq<Invitation>, clock: Clock, n: nat, from: nat)
    requires from < |w.log| && team in w.log[from].seen.members
    requires members == Folded(w.log[from].seen.members[team])
    requires n <= |list| && forall i :: 0 <= i < |list| ==> list[i].status != AddedToTeam
    ensures var (w', done) := JoinFirst(w, sched, team, members, list, clock, n);
      AllWitnessed(w'.log, from, |w'.log|, team, done)
  {
    hide JoinOne;
    if n > 0 {
      JoinFirstWitnessed(w, sched, team, members, list, clock, n - 1, from);
      var (w1, done) := JoinFirst(w, sched, team, members, list, clock, n - 1);
      var (w2, inv) := JoinOne(w1, sched, team, members, list[n - 1], clock.member(n - 1));
      assert w1.log[from] == w.log[from];
      JoinOneWitnessed(w1, sched, team, members, list[n - 1], clock.member(n - 1), from);
      AllWitnessedGrows(w1.log, w2.log, from, |w1.log|, from, |w2.log|, team, done);
    }
  }

  lemma JoinAllWitnessed(w: World, sched: Schedule, team: int, list: seq<Invitation>, clock: Clock)
    requires forall i :: 0 <= i < |list| ==> list[i].status != AddedToTeam
    ensures var (w', done) := JoinAll(w, sched, team, list, clock);
      AllWitnessed(w'.log, |w.log|, |w'.log|, team, done)
  {
    hide JoinFirst;
    var (w1, members) := Perform(w, sched, FetchTeamUserEmails(team));
    if members.Emails? {
      JoinFirstWitnessed(w1, sched, team, Folded(members.list), list, clock, |list|, |w.log|);
    }
  }

  /** One pass that stores a list: every entry marked AddedToTeam, whatever the stored list said
      before, was on the team at a moment between the first and the last call of this very pass. */
  lemma PassWitnessed(s: Sys, sched: Schedule, kube: Kube, clock: Clock)
    ensures var p := Pass(s, sched, kube, clock);
      p.listed.Some? ==>
        AllWitnessed(p.sys.world.log, |s.world.log|, |p.sys.world.log|, p.listed.value, p.sys.cr.invitations)
  {
    hide EnsureTeam, InviteAll, JoinAll, Verdict, Upsert, Tally;
    var p := Pass(s, sched, kube, clock);
    if p.listed.Some? && s.cr.emails != [] {
      var (w1, got) := EnsureTeam(s.world, sched, s.cr.project);
      var (w2, invited, _) := InviteAll(w1, sched, s.cr.emails, s.cr.invitations, clock);
      if got.team.id > 0 {
        JoinAllWitnessed(w2, sched, got.team.id, invited, clock);
        AllWitnessedGrows(p.sys.world.log, p.sys.world.log, |w2.log|, |p.sys.world.log|, |s.world.log|,
                          |p.sys.world.log|, got.team.id, p.sys.cr.invitations);
      }
    }
  }

  /* ----- passes during which nobody else acts ----- */

  /** No other actor interferes with the calls of the range; calls may still fail. */
  ghost predicate Calm(sched: Schedule, from: nat, to: nat) {
    forall k :: from <= k < to ==> At(sched, k).before == []
  }

  ghost predicate KeepsTeam(o: Org, o': Org, team: int) {
    team in o.members && team in o'.members && Folded(o.members[team]) <= Folded(o'.members[team])
  }

  lemma CalmJoinOne(w: World, sched: Schedule, team: int, members: set<string>, inv: Invitation, now: int)
    requires inv.status != AddedToTeam
    requires team in w.org.members && members <= Folded(w.org.members[team])
    requires Calm(sched, |w.log|, |JoinOne(w, sched, team, members, inv, now).0.log|)
    ensures var (w', inv') := JoinOne(w, sched, team, members, inv, now);
      KeepsTeam(w.org, w'.org, team) && (inv'.status == AddedToTeam ==> OnTeam(w'.org, team, inv.email))
  {
    assert ApplyAll(w.org, []) == w.org;
    FoldedAppend(w.org.members[team], inv.email);
  }

  lemma {:induction false} CalmJoinFirst(w: World, sched: Schedule, team: int, members: set<string>,
                                         list: seq<Invitation>, clock: Clock, n: nat)
    requires n <= |list| && forall i :: 0 <= i < |list| ==> list[i].status != AddedToTeam
    requires team in w.org.members && members <= Folded(w.org.members[team])
    requires Calm(sched, |w.log|, |JoinFirst(w, sched, team, members, list, clock, n).0.log|)
    ensures var (w', done) := JoinFirst(w, sched, team, members, list, clock, n);
      && KeepsTeam(w.org, w'.org, team)
      && (forall i :: 0 <= i < n && done[i].status == AddedToTeam ==> OnTeam(w'.org, team, done[i].email))
  {
    hide JoinOne;
    if n > 0 {
      var (w1, done) := JoinFirst(w, sched, team, members, list, clock, n - 1);
      var (w2, inv) := JoinOne(w1, sched, team, members, list[n - 1], clock.member(n - 1));
      CalmJoinFirst(w, sched, team, members, list, clock, n - 1);
      CalmJoinOne(w1, sched, team, members, list[n - 1], clock.member(n - 1));
    }
  }

  lemma CalmJoinAll(w: World, sched: Schedule, team: int, list: seq<Invitation>, clock: Clock)
    requires forall i :: 0 <= i < |list| ==> list[i].status != AddedToTeam
    requires Calm(sched, |w.log|, |JoinAll(w, sched, team, list, clock).0.log|)
    ensures var (w', done) := JoinAll(w, sched, team, list, clock);
      forall i :: 0 <= i < |done| && done[i].status == AddedToTeam ==> OnTeam(w'.org, team, done[i].email)
  {
    hide JoinFirst;
    var (w1, members) := Perform(w, sched, FetchTeamUserEmails(team));
    assert ApplyAll(w.org, []) == w.org;
    if members.Emails? {
      CalmJoinFirst(w1, sched, team, Folded(members.list), list, clock, |list|);
    }
  }

  /** When no other actor touches the service during the pass, the entries marked AddedToTeam are
      still on the team when the pass ends, even if some of its calls failed. */
  lemma CalmPassEndsOnTeam(s: Sys, sched: Schedule, kube: Kube, clock: Clock)
    requires Calm(sched, |s.world.log|, |Pass(s, sched, kube, clock).sys.world.log|)
    ensures var p := Pass(s, sched, kube, clock);
      p.listed.Some? ==> forall i :: 0 <= i < |p.sys.cr.invitations| && p.sys.cr.invitations[i].status == AddedToTeam ==>
        OnTeam(p.sys.world.org, p.listed.value, p.sys.cr.invitations[i].email)
  {
    hide EnsureTeam, InviteAll, JoinAll, Verdict, Upsert, Tally;
    var p := Pass(s, sched, kube, clock);
    if p.listed.Some? && s.cr.emails != [] && p.listed.value > 0 {
      var (w1, got) := EnsureTeam(s.world, sched, s.cr.project);
      var (w2, invited, _) := InviteAll(w1, sched, s.cr.emails, s.cr.invitations, clock);
      CalmJoinAll(w2, sched, got.team.id, invited, clock);
    }
  }

  /* ----- runs ----- */

  datatype Step =
    | Reconcile(kube: Kube, clock: Clock)
    | Outside(act: EnvStep)
    | EditSpec(project: string, emails: seq<string>)

  /** The calls, and the team, of the last pass that stored an invitation list. */
  datatype Window = Window(from: nat, to: nat, team: int)

  datatype Tracked = Tracked(sys: Sys, window: Option<Window>)

  function RunStep(t: Tracked, sched: Schedule, step: Step): Tracked {
    match step
    case Reconcile(kube, clock) =>
      var p := Pass(t.sys, sched, kube, clock);
      Tracked(p.sys,
              if p.listed.None? then t.window
              else Some(Window(|t.sys.world.log|, |p.sys.world.log|, p.listed.value)))
    case Outside(act) =>
      t.(sys := t.sys.(world := World(ApplyStep(t.sys.world.org, act), t.sys.world.log)))
    case EditSpec(project, emails) =>
      t.(sys := t.sys.(cr := t.sys.cr.(project := project, emails := emails, generation := t.sys.cr.generation + 1)))
  }

  function Run(t: Tracked, sched: Schedule, steps: seq<Step>): Tracked
    decreases |steps|
  {
    if steps == [] then t
    else RunStep(Run(t, sched, steps[..|steps| - 1]), sched, steps[|steps| - 1])
  }

  /** The service is well formed, and the stored list is backed by the calls of the pass that stored it. */
  ghost predicate Safe(t: Tracked) {
    && ValidOrg(t.sys.world.org)
    && (t.window.Some? ==>
          var v := t.window.value;
          && v.from <= v.to <= |t.sys.world.log|
          && AllWitnessed(t.sys.world.log, v.from, v.to, v.team, t.sys.cr.invitations))
  }

  /** Every step keeps Safe: a pass, any act of another actor, and any edit of the spec. */
  lemma StepKeepsSafe(t: Tracked, sched: Schedule, step: Step)
    requires Safe(t)
    ensures Safe(RunStep(t, sched, step))
  {
    hide Pass;
    match step
    case Outside(act) => StepKeepsValid(t.sys.world.org, act);
    case EditSpec(_, _) =>
    case Reconcile(kube, clock) =>
      PassKeepsValid(t.sys, sched, kube, clock);
      var p := Pass(t.sys, sched, kube, clock);
      PassWitnessed(t.sys, sched, kube, clock);
      if p.listed.None? && t.window.Some? {
        var v := t.window.value;
        UnlistedPassKeepsList(t.sys, sched, kube, clock);
        AllWitnessedGrows(t.sys.world.log, p.sys.world.log, v.from, v.to, v.from, v.to, v.team, t.sys.cr.invitations);
      }
  }

  /** A pass that stores no list leaves the stored list as it was. */
  lemma UnlistedPassKeepsList(s: Sys, sched: Schedule, kube: Kube, clock: Clock)
    ensures var p := Pass(s, sched, kube, clock);
      p.listed.None? ==> p.sys.cr.invitations == s.cr.invitations
  {
  }

  /** Over every run, from any stored list: once some pass has stored a list, every stored
      AddedToTeam is backed by a moment of the pass that stored it. */
  lemma {:induction false} RunSafety(sys: Sys, sched: Schedule, steps: seq<Step>)
    requires ValidOrg(sys.world.org)
    ensures Safe(Run(Tracked(sys, None), sched, steps))
    decreases |steps|
  {
    if steps != [] {
      RunSafety(sys, sched, steps[..|steps| - 1]);
      StepKeepsSafe(Run(Tracked(sys, None), sched, steps[..|steps| - 1]), sched, steps[|steps| - 1]);
    }
  }
}
