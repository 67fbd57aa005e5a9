/** The condition list behaves as a map from kinds to conditions. */
module FossaConditions {
  import opened Options
  import opened FossaService
  import opened FossaPass
  import opened FossaSafety

  ghost predicate UniqueKinds(cs: seq<Condition>) {
    forall i, j :: 0 <= i < j < |cs| ==> cs[i].kind != cs[j].kind
  }

  ghost function Kinds(cs: seq<Condition>): set<Kind> {
    set c | c in cs :: c.kind
  }

  lemma {:induction false} UpsertKinds(cs: seq<Condition>, c: Condition)
    ensures Kinds(Upsert(cs, c)) == Kinds(cs) + {c.kind}
    ensures UniqueKinds(cs) ==> UniqueKinds(Upsert(cs, c))
  {
    if cs != [] {
      assert cs == [cs[0]] + cs[1..];
      assert Kinds(cs) == {cs[0].kind} + Kinds(cs[1..]);
      if cs[0].kind != c.kind {
        UpsertKinds(cs[1..], c);
        var rest := Upsert(cs[1..], c);
        assert Kinds([cs[0]] + rest) == {cs[0].kind} + Kinds(rest);
        if UniqueKinds(cs) {
          assert forall k :: k in rest ==> k.kind in Kinds(rest);
          assert cs[0].kind !in Kinds(cs[1..]);
        }
      } else {
        assert Kinds([c] + cs[1..]) == {c.kind} + Kinds(cs[1..]);
      }
    } else {
      assert Kinds([c]) == {c.kind};
    }
  }

  /** The condition `setCondition` leaves for a kind, given the one it found. */
  function Settle(was: Option<Condition>, c: Condition): Condition {
    if was.Some? && was.value.ok == c.ok && was.value.reason == c.reason then was.value else c
  }

  /** Refinement: on the map of visible conditions `setCondition` changes its own kind only, and that
      only when status or reason differs. */
  lemma {:induction false} UpsertIsMapUpdate(cs: seq<Condition>, c: Condition, kind: Kind)
    ensures Find(Upsert(cs, c), kind) ==
      if kind != c.kind then Find(cs, kind)
      else Some(Settle(Find(cs, kind), c))
  {
    if cs != [] && cs[0].kind != c.kind {
      UpsertIsMapUpdate(cs[1..], c, kind);
    }
  }

  lemma UserStageConditions(w: World, sched: Schedule, cr: Resource, team: int, clock: Clock, kind: Kind)
    ensures var cs := UserStage(w, sched, cr, team, clock).1.conditions;
      && Kinds(cs) == Kinds(cr.conditions) + {UserInvitationsProcessed}
      && (UniqueKinds(cr.conditions) ==> UniqueKinds(cs))
      && (kind != UserInvitationsProcessed ==> Find(cs, kind) == Find(cr.conditions, kind))
  {
    hide InviteAll, JoinAll, Verdict, Upsert, Find, Kinds, UniqueKinds;
    if cr.emails == [] {
      var c := Condition(UserInvitationsProcessed, true, NoInvitations, NoneRequested, cr.generation, clock.condition(2));
      UpsertKinds(cr.conditions, c);
      UpsertIsMapUpdate(cr.conditions, c, kind);
    } else {
      var (w1, invited, failure) := InviteAll(w, sched, cr.emails, cr.invitations, clock);
      var list := if team > 0 then JoinAll(w1, sched, team, invited, clock).1 else invited;
      var (ok, reason, note) := Verdict(list);
      var cs1 := cr.conditions;
      if failure.Some? {
        var c1 := Condition(UserInvitationsProcessed, false, InvitationsFailed, CallProblem(failure.value), cr.generation, clock.condition(2));
        UpsertKinds(cs1, c1);
        UpsertIsMapUpdate(cs1, c1, kind);
        cs1 := Upsert(cs1, c1);
      }
      var c2 := Condition(UserInvitationsProcessed, ok, reason, note, cr.generation, clock.condition(3));
      UpsertKinds(cs1, c2);
      UpsertIsMapUpdate(cs1, c2, kind);
    }
  }

  /** A pass that completes has exactly one condition of each of its three kinds, leaves every other
      kind as it was, and reports the team and the ConfigMap as ready. */
  lemma PassConditions(s: Sys, sched: Schedule, kube: Kube, clock: Clock, other: Kind)
    requires UniqueKinds(s.cr.conditions)
    requires Pass(s, sched, kube, clock).listed.Some?
    ensures var cs := Pass(s, sched, kube, clock).sys.cr.conditions;
      && UniqueKinds(cs)
      && Kinds(cs) == Kinds(s.cr.conditions) + {FossaTeamReady, ConfigMapReady, UserInvitationsProcessed}
      && (other !in {FossaTeamReady, ConfigMapReady, UserInvitationsProcessed} ==>
            Find(cs, other) == Find(s.cr.conditions, other))
      && (other in {FossaTeamReady, ConfigMapReady} ==> Find(cs, other).Some? && Find(cs, other).value.ok)
  {
    hide EnsureTeam, UserStage, Upsert, Find, Kinds, UniqueKinds;
    var (w1, got) := EnsureTeam(s.world, sched, s.cr.project);
    var team := Condition(FossaTeamReady, true, TeamCreated, TeamReady(got.team), s.cr.generation, clock.condition(0));
    var ready := Condition(ConfigMapReady, true, ConfigMapCreated, ConfigMapIsReady, s.cr.generation, clock.condition(1));
    var cr1 := TeamStep(s.cr, got.team, kube.credentials.organization, clock.condition(0));
    var cr2 := SetCondition(cr1, ConfigMapReady, true, ConfigMapCreated, ConfigMapIsReady, clock.condition(1));
    UpsertKinds(s.cr.conditions, team);
    UpsertIsMapUpdate(s.cr.conditions, team, other);
    UpsertKinds(cr1.conditions, ready);
    UpsertIsMapUpdate(cr1.conditions, ready, other);
    UserStageConditions(w1, sched, cr2, got.team.id, clock, other);
    UserStageConditions(w1, sched, cr2, got.team.id, clock, FossaTeamReady);
  }

  ghost predicate KeepsConditions(was: seq<Condition>, now: seq<Condition>) {
    && (UniqueKinds(was) ==> UniqueKinds(now))
    && Kinds(was) <= Kinds(now) <= Kinds(was) + {FossaTeamReady, ConfigMapReady, UserInvitationsProcessed}
    && (forall kind :: kind !in {FossaTeamReady, ConfigMapReady, UserInvitationsProcessed} ==> Find(now, kind) == Find(was, kind))
  }

  lemma ConditionSet(cr: Resource, kind: Kind, ok: bool, reason: Reason, note: Note, at: int)
    requires kind in {FossaTeamReady, ConfigMapReady, UserInvitationsProcessed}
    ensures KeepsConditions(cr.conditions, SetCondition(cr, kind, ok, reason, note, at).conditions)
  {
    hide Upsert, Find, Kinds, UniqueKinds;
    var c := Condition(kind, ok, reason, note, cr.generation, at);
    UpsertKinds(cr.conditions, c);
    forall other ensures other != kind ==> Find(Upsert(cr.conditions, c), other) == Find(cr.conditions, other) {
      UpsertIsMapUpdate(cr.conditions, c, other);
    }
  }

  lemma StageKeepsConditions(w: World, sched: Schedule, cr: Resource, team: int, clock: Clock)
    ensures KeepsConditions(cr.conditions, UserStage(w, sched, cr, team, clock).1.conditions)
  {
    hide UserStage, Find, Kinds, UniqueKinds;
    var now := UserStage(w, sched, cr, team, clock).1.conditions;
    forall kind ensures kind != UserInvitationsProcessed ==> Find(now, kind) == Find(cr.conditions, kind) {
      UserStageConditions(w, sched, cr, team, clock, kind);
    }
    UserStageConditions(w, sched, cr, team, clock, UserInvitationsProcessed);
  }

  lemma KeepsTwice(a: seq<Condition>, b: seq<Condition>, c: seq<Condition>)
    requires KeepsConditions(a, b) && KeepsConditions(b, c)
    ensures KeepsConditions(a, c)
  {
    hide Find, Kinds, UniqueKinds;
  }

  /** Every pass, however it ends, leaves at most one condition of a kind, loses no condition, and touches
      its own three kinds only. */
  lemma PassKeepsConditions(s: Sys, sched: Schedule, kube: Kube, clock: Clock)
    ensures KeepsConditions(s.cr.conditions, Pass(s, sched, kube, clock).sys.cr.conditions)
  {
    hide EnsureTeam, UserStage, Upsert, SetCondition, KeepsConditions;
    assert KeepsConditions(s.cr.conditions, s.cr.conditions) by { NothingSet(s.cr.conditions); }
    var (w1, got) := EnsureTeam(s.world, sched, s.cr.project);
    if kube.credentials.NoCredentials? {
      ConditionSet(s.cr, FossaTeamReady, false, CredentialsNotFound, Problem(kube.credentials.text), clock.condition(0));
    } else if !got.TeamIs? {
      ConditionSet(s.cr, FossaTeamReady, false, ApiError, CallProblem(got.why), clock.condition(0));
    } else {
      var cr1 := TeamStep(s.cr, got.team, kube.credentials.organization, clock.condition(0));
      var named := Some(TeamRef(got.team.id, got.team.name, kube.credentials.organization));
      ConditionSet(s.cr.(observed := s.cr.generation, team := named), FossaTeamReady, true, TeamCreated,
                   TeamReady(got.team), clock.condition(0));
      var cr2 := SetCondition(cr1, ConfigMapReady, true, ConfigMapCreated, ConfigMapIsReady, clock.condition(1));
      ConditionSet(cr1, ConfigMapReady, true, ConfigMapCreated, ConfigMapIsReady, clock.condition(1));
      KeepsTwice(s.cr.conditions, cr1.conditions, cr2.conditions);
      StageKeepsConditions(w1, sched, cr2, got.team.id, clock);
      KeepsTwice(s.cr.conditions, cr2.conditions, UserStage(w1, sched, cr2, got.team.id, clock).1.conditions);
    }
  }

  lemma NothingSet(cs: seq<Condition>)
    ensures KeepsConditions(cs, cs)
  {
    hide Find, Kinds, UniqueKinds;
  }

  /** So over every run, with passes that fail, edits of the spec and the acts of everybody else. */
  lemma {:induction false} RunKeepsConditions(sys: Sys, sched: Schedule, steps: seq<Step>)
    ensures KeepsConditions(sys.cr.conditions, Run(Tracked(sys, None), sched, steps).sys.cr.conditions)
    decreases |steps|
  {
    hide KeepsConditions, Pass, ApplyStep;
    if steps == [] {
      NothingSet(sys.cr.conditions);
    } else {
      var before, last := steps[..|steps| - 1], steps[|steps| - 1];
      RunKeepsConditions(sys, sched, before);
      var s := Run(Tracked(sys, None), sched, before).sys;
      if last.Reconcile? {
        PassKeepsConditions(s, sched, last.kube, last.clock);
        KeepsTwice(sys.cr.conditions, s.cr.conditions, Pass(s, sched, last.kube, last.clock).sys.cr.conditions);
      }
    }
  }

  predicate SameVerdict(a: Condition, b: Condition) { a.ok == b.ok && a.reason == b.reason }

  /** The visible condition about invitations after step 8.  Its transition time stays when status and
      reason end as they began, unless FetchUsers failed: then the reason is written twice, the second
      write hides the first, and the time moves although nothing visible changed. */
  lemma InvitationCondition(w: World, sched: Schedule, cr: Resource, team: int, clock: Clock)
    requires cr.emails != []
    ensures var was := Find(cr.conditions, UserInvitationsProcessed);
      var now := Find(UserStage(w, sched, cr, team, clock).1.conditions, UserInvitationsProcessed);
      && now.Some?
      && (Perform(w, sched, FetchUsers).1.Emails? && was.Some? && SameVerdict(was.value, now.value) ==> now == was)
      && (Perform(w, sched, FetchUsers).1.Error? ==>
            !now.value.ok && now.value.reason == InvitationsPartial && now.value.since == clock.condition(3))
  {
    hide JoinAll, Upsert, Find;
    var (w1, invited, failure) := InviteAll(w, sched, cr.emails, cr.invitations, clock);
    var list := if team > 0 then JoinAll(w1, sched, team, invited, clock).1 else invited;
    var (ok, reason, note) := Verdict(list);
    var c2 := Condition(UserInvitationsProcessed, ok, reason, note, cr.generation, clock.condition(3));
    if failure.Some? {
      var c1 := Condition(UserInvitationsProcessed, false, InvitationsFailed, CallProblem(failure.value), cr.generation, clock.condition(2));
      UpsertIsMapUpdate(cr.conditions, c1, UserInvitationsProcessed);
      UpsertIsMapUpdate(Upsert(cr.conditions, c1), c2, UserInvitationsProcessed);
    } else {
      UpsertIsMapUpdate(cr.conditions, c2, UserInvitationsProcessed);
    }
  }

  /** A condition keeps its transition time while its status and reason stay, and otherwise has the
      time it was written. */
  predicate MovesWithVerdict(was: Option<Condition>, now: Option<Condition>, at: int) {
    now.Some? && if was.Some? && SameVerdict(was.value, now.value) then now == was else now.value.since == at
  }

  lemma SettleMoves(was: Option<Condition>, c: Condition)
    ensures MovesWithVerdict(was, Some(Settle(was, c)), c.since)
  {
  }

  lemma StageTransition(w: World, sched: Schedule, cr: Resource, team: int, clock: Clock)
    ensures var was := Find(cr.conditions, UserInvitationsProcessed);
      var now := Find(UserStage(w, sched, cr, team, clock).1.conditions, UserInvitationsProcessed);
      if cr.emails == [] then MovesWithVerdict(was, now, clock.condition(2))
      else if Perform(w, sched, FetchUsers).1.Error? then now.Some? && now.value.since == clock.condition(3)
      else MovesWithVerdict(was, now, clock.condition(3))
  {
    hide JoinAll, Upsert, Find, Settle;
    var was := Find(cr.conditions, UserInvitationsProcessed);
    if cr.emails == [] {
      var c := Condition(UserInvitationsProcessed, true, NoInvitations, NoneRequested, cr.generation, clock.condition(2));
      UpsertIsMapUpdate(cr.conditions, c, UserInvitationsProcessed);
      SettleMoves(was, c);
    } else {
      InvitationCondition(w, sched, cr, team, clock);
      var (w1, invited, failure) := InviteAll(w, sched, cr.emails, cr.invitations, clock);
      if failure.None? {
        var list := if team > 0 then JoinAll(w1, sched, team, invited, clock).1 else invited;
        var (ok, reason, note) := Verdict(list);
        var c := Condition(UserInvitationsProcessed, ok, reason, note, cr.generation, clock.condition(3));
        UpsertIsMapUpdate(cr.conditions, c, UserInvitationsProcessed);
        SettleMoves(was, c);
      }
    }
  }

  /** Over a completed pass the transition time of each of its three conditions moves only when status or
      reason changes, with one exception: after a failed FetchUsers the time of the third always moves. */
  lemma PassTransitions(s: Sys, sched: Schedule, kube: Kube, clock: Clock)
    requires Pass(s, sched, kube, clock).listed.Some?
    ensures var was, now := s.cr.conditions, Pass(s, sched, kube, clock).sys.cr.conditions;
      && MovesWithVerdict(Find(was, FossaTeamReady), Find(now, FossaTeamReady), clock.condition(0))
      && MovesWithVerdict(Find(was, ConfigMapReady), Find(now, ConfigMapReady), clock.condition(1))
      && var w, n := Find(was, UserInvitationsProcessed), Find(now, UserInvitationsProcessed);
         if s.cr.emails == [] then MovesWithVerdict(w, n, clock.condition(2))
         else if UsersUnknown(s, sched) then n.Some? && n.value.since == clock.condition(3)
         else MovesWithVerdict(w, n, clock.condition(3))
  {
    hide EnsureTeam, UserStage, Upsert, Find, Kinds, UniqueKinds, Settle, MovesWithVerdict, Perform;
    var (w1, got) := EnsureTeam(s.world, sched, s.cr.project);
    var team := Condition(FossaTeamReady, true, TeamCreated, TeamReady(got.team), s.cr.generation, clock.condition(0));
    var ready := Condition(ConfigMapReady, true, ConfigMapCreated, ConfigMapIsReady, s.cr.generation, clock.condition(1));
    var cr1 := TeamStep(s.cr, got.team, kube.credentials.organization, clock.condition(0));
    var cr2 := SetCondition(cr1, ConfigMapReady, true, ConfigMapCreated, ConfigMapIsReady, clock.condition(1));
    forall kind ensures Find(cr2.conditions, kind) ==
      if kind == FossaTeamReady then Some(Settle(Find(s.cr.conditions, kind), team))
      else if kind == ConfigMapReady then Some(Settle(Find(s.cr.conditions, kind), ready))
      else Find(s.cr.conditions, kind)
    {
      UpsertIsMapUpdate(s.cr.conditions, team, kind);
      UpsertIsMapUpdate(cr1.conditions, ready, kind);
    }
    SettleMoves(Find(s.cr.conditions, FossaTeamReady), team);
    SettleMoves(Find(s.cr.conditions, ConfigMapReady), ready);
    UserStageConditions(w1, sched, cr2, got.team.id, clock, FossaTeamReady);
    UserStageConditions(w1, sched, cr2, got.team.id, clock, ConfigMapReady);
    StageTransition(w1, sched, cr2, got.team.id, clock);
  }
}
