/** The log of a pass is a genuine history of the service: each entry starts where
    the one before it ended.  What holds of every genuine history is proved once. */
module FossaHistory {
  import opened Options
  import opened Text
  import opened FossaService
  import opened FossaPass

  /** The entry is what the service does with its call when it is in state o and call k comes in. */
  ghost predicate Happens(sched: Schedule, k: nat, o: Org, e: Entry) {
    var t := At(sched, k);
    && e.seen == ApplyAll(o, t.before)
    && e.left == (if t.fault.Refused? then e.seen else Execute(e.seen, e.call).0)
    && e.reply == (if t.fault.NoFault? then Execute(e.seen, e.call).1 else Error(OtherFailure(t.fault.text)))
  }

  /** The state in which call k finds the service before others interfere. */
  ghost function Before(w: World, w': World, k: nat): Org
    requires |w.log| <= k <= |w'.log|
  {
    if k == |w.log| then w.org else w'.log[k - 1].left
  }

  ghost predicate Genuine(sched: Schedule, w: World, w': World) {
    && w.log <= w'.log
    && (forall k :: |w.log| <= k < |w'.log| ==> Happens(sched, k, Before(w, w', k), w'.log[k]))
    && w'.org == Before(w, w', |w'.log|)
  }

  lemma GenuinePerform(w: World, sched: Schedule, c: Call)
    ensures Genuine(sched, w, Perform(w, sched, c).0)
  {
    hide Execute, ApplyAll;
  }

  lemma GenuineChain(sched: Schedule, w: World, w1: World, w2: World)
    requires Genuine(sched, w, w1) && Genuine(sched, w1, w2)
    ensures Genuine(sched, w, w2)
  {
    hide Happens;
    forall k | |w.log| <= k < |w2.log| ensures Happens(sched, k, Before(w, w2, k), w2.log[k]) {
      if k < |w1.log| {
        assert Happens(sched, k, Before(w, w1, k), w1.log[k]);
      } else {
        assert Happens(sched, k, Before(w1, w2, k), w2.log[k]);
      }
    }
  }

  lemma GenuineTeam(w: World, sched: Schedule, name: string)
    ensures Genuine(sched, w, EnsureTeam(w, sched, name).0)
  {
    hide Genuine, Execute;
    var w1 := Perform(w, sched, FetchTeam(name)).0;
    GenuinePerform(w, sched, FetchTeam(name));
    if EnsureTeam(w, sched, name).0 != w1 {
      GenuinePerform(w1, sched, CreateTeam(name));
      GenuineChain(sched, w, w1, EnsureTeam(w, sched, name).0);
    }
  }

  lemma GenuineInvite(w: World, sched: Schedule, users: set<string>, index: map<string, Invitation>, email: string, now: int)
    ensures Genuine(sched, w, InviteOne(w, sched, users, index, email, now).0)
  {
    var w' := InviteOne(w, sched, users, index, email, now).0;
    if w' != w {
      hide Genuine, Execute;
      var (w1, check) := Perform(w, sched, HasPendingInvitation(email));
      GenuinePerform(w, sched, HasPendingInvitation(email));
      GenuinePerform(w1, sched, SendUserInvitation(email));
      if w' != w1 {
        GenuineChain(sched, w, w1, w');
      }
    }
  }

  lemma {:induction false} GenuineInvites(w: World, sched: Schedule, users: set<string>, index: map<string, Invitation>,
                                          emails: seq<string>, clock: Clock, n: nat)
    requires n <= |emails|
    ensures Genuine(sched, w, InviteFirst(w, sched, users, index, emails, clock, n).0)
  {
    hide InviteOne, Happens;
    if n > 0 {
      var (w1, _) := InviteFirst(w, sched, users, index, emails, clock, n - 1);
      GenuineInvites(w, sched, users, index, emails, clock, n - 1);
      GenuineInvite(w1, sched, users, index, emails[n - 1], clock.invite(n - 1));
      GenuineChain(sched, w, w1, InviteFirst(w, sched, users, index, emails, clock, n).0);
    }
  }

  lemma GenuineInviteAll(w: World, sched: Schedule, emails: seq<string>, stored: seq<Invitation>, clock: Clock)
    ensures Genuine(sched, w, InviteAll(w, sched, emails, stored, clock).0)
  {
    hide InviteFirst, Genuine;
    var (w1, users) := Perform(w, sched, FetchUsers);
    GenuinePerform(w, sched, FetchUsers);
    if users.Emails? {
      GenuineInvites(w1, sched, Folded(users.list), Index(stored), emails, clock, |emails|);
      GenuineChain(sched, w, w1, InviteAll(w, sched, emails, stored, clock).0);
    }
  }

  lemma {:induction false} GenuineJoins(w: World, sched: Schedule, team: int, members: set<string>,
                                        list: seq<Invitation>, clock: Clock, n: nat)
    requires n <= |list|
    ensures Genuine(sched, w, JoinFirst(w, sched, team, members, list, clock, n).0)
  {
    hide Happens, Execute;
    if n > 0 {
      var (w1, _) := JoinFirst(w, sched, team, members, list, clock, n - 1);
      GenuineJoins(w, sched, team, members, list, clock, n - 1);
      var w' := JoinFirst(w, sched, team, members, list, clock, n).0;
      if w' != w1 {
        GenuinePerform(w1, sched, AddUserToTeamByEmail(team, list[n - 1].email, 0));
        GenuineChain(sched, w, w1, w');
      }
    }
  }

  lemma GenuineJoinAll(w: World, sched: Schedule, team: int, list: seq<Invitation>, clock: Clock)
    ensures Genuine(sched, w, JoinAll(w, sched, team, list, clock).0)
  {
    hide JoinFirst, Genuine, Execute;
    var (w1, members) := Perform(w, sched, FetchTeamUserEmails(team));
    GenuinePerform(w, sched, FetchTeamUserEmails(team));
    if members.Emails? {
      GenuineJoins(w1, sched, team, Folded(members.list), list, clock, |list|);
      GenuineChain(sched, w, w1, JoinAll(w, sched, team, list, clock).0);
    }
  }

  lemma GenuineUserStage(w: World, sched: Schedule, cr: Resource, team: int, clock: Clock)
    ensures Genuine(sched, w, UserStage(w, sched, cr, team, clock).0)
  {
    if cr.emails != [] {
      hide InviteAll, JoinAll, Verdict, Upsert, Tally, Genuine;
      var (w1, invited, _) := InviteAll(w, sched, cr.emails, cr.invitations, clock);
      GenuineInviteAll(w, sched, cr.emails, cr.invitations, clock);
      if team > 0 {
        GenuineJoinAll(w1, sched, team, invited, clock);
        GenuineChain(sched, w, w1, JoinAll(w1, sched, team, invited, clock).0);
      }
    }
  }

  /** Whatever the faults and the interference, a pass acts on the service only by the calls it logs. */
  lemma PassIsGenuine(s: Sys, sched: Schedule, kube: Kube, clock: Clock)
    ensures Genuine(sched, s.world, Pass(s, sched, kube, clock).sys.world)
  {
    if kube.credentials.Credentials? {
      hide EnsureTeam, UserStage, Upsert;
      var (w1, got) := EnsureTeam(s.world, sched, s.cr.project);
      GenuineTeam(s.world, sched, s.cr.project);
      if got.TeamIs? {
        var cr1 := TeamStep(s.cr, got.team, kube.credentials.organization, clock.condition(0));
        var cr2 := SetCondition(cr1, ConfigMapReady, true, ConfigMapCreated, ConfigMapIsReady, clock.condition(1));
        GenuineUserStage(w1, sched, cr2, got.team.id, clock);
        GenuineChain(sched, s.world, w1, UserStage(w1, sched, cr2, got.team.id, clock).0);
      }
    }
  }

  /* ----- what every genuine history keeps ----- */

  lemma EntryHappens(sched: Schedule, w: World, w': World, k: nat)
    requires Genuine(sched, w, w') && |w.log| <= k < |w'.log|
    ensures Happens(sched, k, Before(w, w', k), w'.log[k])
  {
    hide Happens;
  }

  lemma {:induction false} HistoryIsValid(sched: Schedule, w: World, w': World, k: nat)
    requires Genuine(sched, w, w') && ValidOrg(w.org) && |w.log| <= k <= |w'.log|
    ensures ValidOrg(Before(w, w', k))
    ensures k < |w'.log| ==> ValidOrg(w'.log[k].seen)
    decreases k
  {
    hide Execute, ApplyAll, ValidOrg, Genuine;
    if k > |w.log| {
      HistoryIsValid(sched, w, w', k - 1);
      EntryHappens(sched, w, w', k - 1);
      ExecuteKeepsValid(w'.log[k - 1].seen, w'.log[k - 1].call);
    }
    if k < |w'.log| {
      EntryHappens(sched, w, w', k);
      StepsKeepValid(Before(w, w', k), At(sched, k).before);
    }
  }

  /** A pass keeps the service invariant, whatever happens around it. */
  lemma PassKeepsValid(s: Sys, sched: Schedule, kube: Kube, clock: Clock)
    requires ValidOrg(s.world.org)
    ensures ValidOrg(Pass(s, sched, kube, clock).sys.world.org)
  {
    hide Pass, ValidOrg;
    PassIsGenuine(s, sched, kube, clock);
    var w' := Pass(s, sched, kube, clock).sys.world;
    HistoryIsValid(sched, s.world, w', |w'.log|);
  }

  /* ----- an address stays known until somebody forgets it ----- */

  /** The acts after which an invited address may be invited again: accepting or joining is not one. */
  predicate Forgets(e: EnvStep, key: string) {
    (e.Expire? || e.Leave?) && Lower(e.email) == key
  }

  /** Invited, or in the organisation. */
  predicate Known(o: Org, key: string) { key in o.pending || key in Folded(o.users) }

  /** No act before the calls of the range forgets the address. */
  ghost predicate Undisturbed(sched: Schedule, from: nat, to: nat, key: string) {
    forall k, i :: from <= k < to && 0 <= i < |At(sched, k).before| ==> !Forgets(At(sched, k).before[i], key)
  }

  lemma StepKeepsKnown(o: Org, e: EnvStep, key: string)
    requires Known(o, key) && !Forgets(e, key)
    ensures Known(ApplyStep(o, e), key)
  {
    if (e.Accept? || e.Join?) && !IsUser(o, e.email) {
      FoldedAppend(o.users, e.email);
    }
  }

  lemma {:induction false} StepsKeepKnown(o: Org, es: seq<EnvStep>, key: string)
    requires Known(o, key) && forall i :: 0 <= i < |es| ==> !Forgets(es[i], key)
    ensures Known(ApplyAll(o, es), key)
    decreases |es|
  {
    if es != [] {
      hide Known, Forgets, ApplyStep;
      StepsKeepKnown(o, es[..|es| - 1], key);
      StepKeepsKnown(ApplyAll(o, es[..|es| - 1]), es[|es| - 1], key);
    }
  }

  lemma {:induction false} KnownLasts(sched: Schedule, w: World, w': World, j: nat, k: nat, key: string)
    requires Genuine(sched, w, w') && |w.log| <= j < k < |w'.log|
    requires Known(w'.log[j].left, key) && Undisturbed(sched, j + 1, k + 1, key)
    ensures Known(w'.log[k].seen, key)
    decreases k
  {
    hide Genuine, ApplyAll, Forgets;
    if k - 1 > j {
      KnownLasts(sched, w, w', j, k - 1, key);
      EntryHappens(sched, w, w', k - 1);
    }
    EntryHappens(sched, w, w', k);
    StepsKeepKnown(w'.log[k - 1].left, At(sched, k).before, key);
  }

  predicate Invites(e: Entry, key: string) {
    e.call.SendUserInvitation? && e.reply == Done && Lower(e.call.email) == key
  }

  /** When one pass invites an address twice, the first invitation expired or the person left
      between the two calls. */
  lemma SendsAreSpaced(s: Sys, sched: Schedule, kube: Kube, clock: Clock, j: nat, k: nat, key: string)
    requires var log := Pass(s, sched, kube, clock).sys.world.log;
      |s.world.log| <= j < k < |log| && Invites(log[j], key) && Invites(log[k], key)
    ensures !Undisturbed(sched, j + 1, k + 1, key)
  {
    hide Pass, Genuine, ApplyAll, Folded;
    var w' := Pass(s, sched, kube, clock).sys.world;
    PassIsGenuine(s, sched, kube, clock);
    EntryHappens(sched, s.world, w', j);
    EntryHappens(sched, s.world, w', k);
    if Undisturbed(sched, j + 1, k + 1, key) {
      KnownLasts(sched, s.world, w', j, k, key);
    }
  }
}
