/** The controller itself: the loops that append to lists and update the resource
    in place, proved to compute the pass of FossaPass. */
module FossaReconciler {
  import opened Options
  import opened Text
  import opened FossaService
  import opened FossaPass

  const INVITATION_TTL: int := 48 * 3600

  /** The copy of the custom resource that one pass edits before it is written back. */
  class ResourceCopy {
    const spec: Resource
    var observed: int
    var configMapRef: string
    var team: Option<TeamRef>
    var invitations: seq<Invitation>
    var conditions: seq<Condition>

    constructor (r: Resource)
      ensures Value() == r
    {
      spec := r;
      observed, configMapRef, team := r.observed, r.configMapRef, r.team;
      invitations, conditions := r.invitations, r.conditions;
    }

    function Value(): Resource
      reads this
    {
      spec.(observed := observed, configMapRef := configMapRef, team := team,
            invitations := invitations, conditions := conditions)
    }

    /** Updates the first condition of the kind in place, or appends one. */
    method Set(kind: Kind, ok: bool, reason: Reason, message: Note, now: int)
      modifies this`conditions
      ensures Value() == SetCondition(old(Value()), kind, ok, reason, message, now)
    {
      var c := Condition(kind, ok, reason, message, spec.generation, now);
      var i := 0;
      while i < |conditions|
        invariant 0 <= i <= |conditions| && conditions == old(conditions)
        invariant Upsert(conditions, c) == conditions[..i] + Upsert(conditions[i..], c)
      {
        if conditions[i].kind == kind {
          if conditions[i].ok != ok || conditions[i].reason != reason {
            assert conditions[i := c] == conditions[..i] + ([c] + conditions[i..][1..]);
            conditions := conditions[i := c];
          } else {
            assert conditions == conditions[..i] + conditions[i..];
          }
          return;
        }
        assert conditions[i..][1..] == conditions[i + 1..];
        assert conditions[..i] + ([conditions[i]] + Upsert(conditions[i + 1..], c))
            == conditions[..i + 1] + Upsert(conditions[i + 1..], c);
        i := i + 1;
      }
      conditions := conditions + [c];
    }
  }

  method FoldAll(xs: seq<string>) returns (keys: set<string>)
    ensures keys == Folded(xs)
  {
    keys := {};
    var i := 0;
    while i < |xs|
      invariant 0 <= i <= |xs| && keys == Folded(xs[..i])
    {
      assert xs[..i + 1] == xs[..i] + [xs[i]];
      FoldedAppend(xs[..i], xs[i]);
      keys := keys + {Lower(xs[i])};
      i := i + 1;
    }
    assert xs[..i] == xs;
  }

  class Reconciler {
    var cr: Resource                      // as stored in the cluster
    var configMap: Option<ConfigData>
    var mapWrites: nat
    const service: Service

    constructor (cr: Resource, configMap: Option<ConfigData>, service: Service)
      ensures this.service == service && Now() == Sys(cr, configMap, 0, service.Now())
    {
      this.cr, this.configMap, this.mapWrites, this.service := cr, configMap, 0, service;
    }

    function Now(): Sys
      reads this, service
    {
      Sys(cr, configMap, mapWrites, service.Now())
    }

    method EnsureFossaTeam(name: string) returns (reply: Reply)
      modifies service
      ensures (service.Now(), reply) == EnsureTeam(old(service.Now()), service.schedule, name)
    {
      hide Perform;
      reply := service.Do(FetchTeam(name));
      if reply.TeamIs? {
        return;
      }
      reply := service.Do(CreateTeam(name));
    }

    method EnsureUserInvitations(emails: seq<string>, stored: seq<Invitation>, clock: Clock, wall: nat -> int)
      returns (list: seq<Invitation>, hasPending: bool, failure: Option<Failure>)
      modifies service
      ensures (service.Now(), list, failure) == InviteAll(old(service.Now()), service.schedule, emails, stored, clock)
      ensures hasPending == SomePending(list)
    {
      hide ApplyAll, Lower, Folded;
      var existing: map<string, Invitation> := map[];
      var i := 0;
      while i < |stored|
        invariant 0 <= i <= |stored| && existing == Index(stored[..i])
      {
        assert stored[..i + 1][..i] == stored[..i];
        existing := existing[Lower(stored[i].email) := stored[i]];
        i := i + 1;
      }
      assert stored[..i] == stored;
      list, hasPending, failure := [], false, None;
      var fetched := service.Do(FetchUsers);
      if !fetched.Emails? {
        failure := Some(fetched.why);
        return;
      }
      ghost var w1 := service.Now();
      var users := FoldAll(fetched.list);
      var n := 0;
      while n < |emails|
        invariant 0 <= n <= |emails|
        invariant (service.Now(), list) == InviteFirst(w1, service.schedule, users, existing, emails, clock, n)
        invariant hasPending == SomePending(list)
      {
        var inv := Invite(users, existing, emails[n], clock.invite(n), wall(n));
        hide InviteOne;
        if inv.status == Pending {
          hasPending := true;
          assert (list + [inv])[|list|].status == Pending;
        }
        PendingAppend(list, inv);
        list := list + [inv];
        n := n + 1;
      }
    }

    /** The body of the invitation loop. `wall` is the clock the age of an old invitation is read from. */
    method Invite(users: set<string>, existing: map<string, Invitation>, email: string, now: int, wall: int)
      returns (inv: Invitation)
      modifies service
      ensures (service.Now(), inv) == InviteOne(old(service.Now()), service.schedule, users, existing, email, now)
    {
      hide Perform;
      var key := Lower(email);
      if key in users {
        inv := Invitation(email, Accepted, UserIsOrgMember, None, Some(now), None);
        if key in existing && existing[key].invitedAt.Some? {
          inv := inv.(invitedAt := existing[key].invitedAt);
        }
        return;
      }
      var check := service.Do(HasPendingInvitation(email));
      if check.Error? {
        inv := Invitation(email, Failed, CheckFailed(check.why), None, None, None);
        return;
      }
      if check == Flag(true) {
        inv := Invitation(email, Pending, PendingExpiresAfter48h, None, None, None);
        if key in existing && existing[key].invitedAt.Some? {
          inv := inv.(invitedAt := existing[key].invitedAt);
        } else {
          inv := inv.(invitedAt := Some(now));
        }
        return;
      }
      if key in existing && existing[key].status == Pending && existing[key].invitedAt.Some? {
        if wall - existing[key].invitedAt.value > INVITATION_TTL {
          // The controller logs that the old invitation expired, and goes on as it would have anyway.
        }
      }
      var sent := service.Do(SendUserInvitation(email));
      if sent.Error? {
        if sent.why == InviteAlreadyExists {
          inv := Invitation(email, Pending, PendingAfterRace, Some(now), None, None);
          return;
        }
        if sent.why == UserAlreadyMember {
          inv := Invitation(email, Accepted, UserIsOrgMember, None, Some(now), None);
          return;
        }
        inv := Invitation(email, Failed, SendFailed(sent.why), None, None, None);
        return;
      }
      inv := Invitation(email, Pending, InvitationSent, Some(now), None, None);
    }

    method EnsureTeamMembership(team: int, list: seq<Invitation>, clock: Clock) returns (updated: seq<Invitation>)
      modifies service
      ensures (service.Now(), updated) == JoinAll(old(service.Now()), service.schedule, team, list, clock)
    {
      hide Execute, ApplyAll;
      var fetched := service.Do(FetchTeamUserEmails(team));
      if !fetched.Emails? {
        return list;
      }
      ghost var w1 := service.Now();
      var members := FoldAll(fetched.list);
      updated := [];
      var n := 0;
      while n < |list|
        invariant 0 <= n <= |list|
        invariant (service.Now(), updated) == JoinFirst(w1, service.schedule, team, members, list, clock, n)
      {
        var inv := list[n];
        if inv.status != Accepted && inv.status != AlreadyMember {
          updated := updated + [inv];
        } else if Lower(inv.email) in members {
          inv := inv.(status := AddedToTeam, message := UserIsTeamMember, addedAt := Some(clock.member(n)));
          updated := updated + [inv];
        } else {
          var added := service.Do(AddUserToTeamByEmail(team, inv.email, 0));
          if added == Error(UserAlreadyMember) {
            inv := inv.(status := AddedToTeam, message := UserIsTeamMember, addedAt := Some(clock.member(n)));
          } else if added.Error? {
            inv := inv.(message := AddFailed(added.why));
          } else {
            inv := inv.(status := AddedToTeam, message := UserAddedToTeam, addedAt := Some(clock.member(n)));
          }
          updated := updated + [inv];
        }
        n := n + 1;
      }
    }

    /** Steps 3 to 10 of the reconcile loop. */
    method Reconcile(kube: Kube, clock: Clock, wall: nat -> int) returns (requeue: nat, failed: bool)
      modifies this, service
      ensures var p := Pass(old(Now()), service.schedule, kube, clock);
        Now() == p.sys && requeue == p.requeue && failed == p.failed
    {
      hide EnsureTeam, UserStage, SetCondition;
      var copy := new ResourceCopy(cr);
      if kube.credentials.NoCredentials? {
        copy.Set(FossaTeamReady, false, CredentialsNotFound, Problem(kube.credentials.text), clock.condition(0));
        if kube.statusFails {
          return 0, true;
        }
        cr := copy.Value();
        return 0, false;
      }
      var got := EnsureFossaTeam(cr.project);
      if !got.TeamIs? {
        copy.Set(FossaTeamReady, false, ApiError, CallProblem(got.why), clock.condition(0));
        if !kube.statusFails {
          cr := copy.Value();
        }
        return MINUTE, true;
      }
      copy.observed := cr.generation;
      copy.team := Some(TeamRef(got.team.id, got.team.name, kube.credentials.organization));
      copy.Set(FossaTeamReady, true, TeamCreated, TeamReady(got.team), clock.condition(0));
      var written := EnsureConfigMap(kube, ScannerData(cr.project, got.team));
      if !written {
        return 0, true;
      }
      copy.Set(ConfigMapReady, true, ConfigMapCreated, ConfigMapIsReady, clock.condition(1));
      requeue := ProcessUsers(copy, got.team.id, clock, wall);
      if cr.annotation != Some(cr.ref) {
        if kube.patchFails {
          return 0, true;
        }
        cr := cr.(annotation := Some(cr.ref));
      }
      copy.configMapRef := cr.ref;
      if kube.statusFails {
        return 0, true;
      }
      cr := copy.Value().(annotation := cr.annotation);
      return requeue, false;
    }

    /** Step 7: the ConfigMap is written only when its data differ. */
    method EnsureConfigMap(kube: Kube, data: ConfigData) returns (ok: bool)
      modifies this`configMap, this`mapWrites
      ensures ok == !(kube.ownerFails || kube.mapGetFails || (old(configMap) != Some(data) && kube.mapWriteFails))
      ensures configMap == if ok then Some(data) else old(configMap)
      ensures mapWrites == old(mapWrites) + if old(configMap) != configMap then 1 else 0
    {
      if kube.ownerFails || kube.mapGetFails {
        return false;
      }
      if configMap != Some(data) {
        if kube.mapWriteFails {
          return false;
        }
        configMap, mapWrites := Some(data), mapWrites + 1;
      }
      return true;
    }

    /** Step 8: invitations, membership, the counters and the condition. */
    method ProcessUsers(copy: ResourceCopy, team: int, clock: Clock, wall: nat -> int) returns (requeue: nat)
      modifies copy, service
      ensures (service.Now(), copy.Value(), requeue)
           == UserStage(old(service.Now()), service.schedule, old(copy.Value()), team, clock)
    {
      hide InviteAll, JoinAll, Upsert, Tally, Verdict;
      requeue := 0;
      if copy.spec.emails == [] {
        copy.invitations := [];
        copy.Set(UserInvitationsProcessed, true, NoInvitations, NoneRequested, clock.condition(2));
        return;
      }
      var list, hasPending, failure := EnsureUserInvitations(copy.spec.emails, copy.invitations, clock, wall);
      if failure.Some? {
        copy.Set(UserInvitationsProcessed, false, InvitationsFailed, CallProblem(failure.value), clock.condition(2));
      }
      if team > 0 {
        list := EnsureTeamMembership(team, list, clock);
      }
      copy.invitations := list;
      var accepted := Report(copy, clock.condition(3));
      if hasPending || accepted > 0 {
        requeue := HOUR;
      }
    }
  }

  /** Step 8.3: the counters and the condition drawn from them. */
  method Report(copy: ResourceCopy, now: int) returns (accepted: nat)
    modifies copy`conditions
    ensures var (ok, reason, note) := Verdict(copy.invitations);
      copy.Value() == SetCondition(old(copy.Value()), UserInvitationsProcessed, ok, reason, note, now)
    ensures accepted == Tally(copy.invitations, Accepted)
  {
    hide Upsert, Tally;
    var pending, added, already, failed, expired;
    pending, accepted, added, already, failed, expired := Count(copy.invitations);
    var onTeam := added + already;
    if onTeam == |copy.invitations| && onTeam > 0 {
      copy.Set(UserInvitationsProcessed, true, MembershipProcessed, AllOnTeam(onTeam), now);
    } else if failed > 0 && onTeam == 0 && accepted == 0 && pending == 0 {
      copy.Set(UserInvitationsProcessed, false, InvitationsFailed, AllFailed(failed), now);
    } else {
      copy.Set(UserInvitationsProcessed, false, InvitationsPartial,
               Mixed(onTeam, accepted, pending, failed, expired), now);
    }
  }

  lemma PendingAppend(list: seq<Invitation>, inv: Invitation)
    ensures SomePending(list + [inv]) <==> SomePending(list) || inv.status == Pending
  {
    if SomePending(list) {
      var i :| 0 <= i < |list| && list[i].status == Pending;
      assert (list + [inv])[i].status == Pending;
    }
    if inv.status == Pending {
      assert (list + [inv])[|list|].status == Pending;
    }
  }

  /** The six counters of step 8.3. */
  method Count(list: seq<Invitation>) returns (pending: nat, accepted: nat, added: nat, already: nat, failed: nat, expired: nat)
    ensures pending == Tally(list, Pending) && accepted == Tally(list, Accepted) && added == Tally(list, AddedToTeam)
    ensures already == Tally(list, AlreadyMember) && failed == Tally(list, Failed) && expired == Tally(list, Expired)
  {
    pending, accepted, added, already, failed, expired := 0, 0, 0, 0, 0, 0;
    var i := 0;
    while i < |list|
      invariant 0 <= i <= |list|
      invariant pending == Tally(list[..i], Pending) && accepted == Tally(list[..i], Accepted) && added == Tally(list[..i], AddedToTeam)
      invariant already == Tally(list[..i], AlreadyMember) && failed == Tally(list[..i], Failed) && expired == Tally(list[..i], Expired)
    {
      assert list[..i + 1][..i] == list[..i];
      match list[i].status {
        case Pending => pending := pending + 1;
        case Accepted => accepted := accepted + 1;
        case AddedToTeam => added := added + 1;
        case AlreadyMember => already := already + 1;
        case Failed => failed := failed + 1;
        case Expired => expired := expired + 1;
        case Unrecognised(_) =>
      }
      i := i + 1;
    }
    assert list[..i] == list;
  }
}
