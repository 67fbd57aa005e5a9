/** Whom the two commands reach, and what their comments say about it. */
module WebhookReports {
  import opened Options
  import opened Text
  import opened MockFossa
  import opened Webhook
  import opened WebhookEffects

  /* ----- who takes part ----- */

  /** Both the address and the handle are given: neither blank nor a placeholder. */
  predicate TakesPart(m: Maintainer) {
    Trim(m.email) !in {"", "EMAIL_MISSING"} && Trim(m.handle) !in {"", "GITHUB_MISSING"}
  }

  ghost predicate Ascends(idx: seq<nat>, n: nat) {
    (forall k :: 0 <= k < |idx| ==> idx[k] < n) && forall j, k :: 0 <= j < k < |idx| ==> idx[j] < idx[k]
  }

  /** The positions of those who take part, or of the others. */
  ghost predicate Picks(idx: seq<nat>, ms: seq<Maintainer>, taking: bool) {
    Ascends(idx, |ms|) && forall i: nat :: i < |ms| ==> (TakesPart(ms[i]) == taking <==> i in idx)
  }

  lemma PickStep(idx: seq<nat>, ms: seq<Maintainer>, taking: bool)
    requires ms != [] && Picks(idx, ms[..|ms| - 1], taking)
    ensures Picks(if TakesPart(ms[|ms| - 1]) == taking then idx + [|ms| - 1] else idx, ms, taking)
  {
    hide TakesPart;
    var n := |ms| - 1;
    assert forall i: nat :: i < n ==> ms[..n][i] == ms[i];
    assert n !in idx;
  }

  lemma PicksNobody(taking: bool)
    ensures Picks([], [], taking)
  {
  }

  lemma PicksWithin(idx: seq<nat>, ms: seq<Maintainer>, taking: bool)
    requires Picks(idx, ms, taking)
    ensures forall k :: 0 <= k < |idx| ==> idx[k] < |ms|
  {
  }

  lemma EligibleIs(m: Maintainer)
    ensures Eligible(m) <==> TakesPart(m)
  {
    hide Trim;
  }

  /** The eligible maintainers are those who take part, in the order of the roster. */
  lemma {:induction false} WhoTakesPart(ms: seq<Maintainer>) returns (idx: seq<nat>)
    ensures Picks(idx, ms, true) && |idx| == |EligibleOf(ms)|
    ensures forall k :: 0 <= k < |idx| ==> idx[k] < |ms| && EligibleOf(ms)[k] == ms[idx[k]]
    decreases |ms|
  {
    hide TakesPart, Eligible, Picks;
    idx := [];
    assert Picks(idx, [], true) by { PicksNobody(true); }
    if ms != [] {
      var n := |ms| - 1;
      idx := WhoTakesPart(ms[..n]);
      PicksWithin(idx, ms[..n], true);
      PickStep(idx, ms, true);
      EligibleIs(ms[n]);
      if TakesPart(ms[n]) {
        idx := idx + [n];
      }
    }
  }

  predicate NoEmail(m: Maintainer) { Trim(m.email) == "" || m.email == "EMAIL_MISSING" }

  predicate NoHandle(m: Maintainer) { Trim(m.handle) == "" || m.handle == "GITHUB_MISSING" }

  /** How somebody skipped is named, and which fields are reported missing. */
  predicate GapTells(m: Maintainer, gap: Gap) {
    && (Trim(m.handle) !in {"", "GITHUB_MISSING"} ==> gap.display == "@" + Trim(m.handle))
    && (Trim(m.handle) in {"", "GITHUB_MISSING"} && Trim(m.name) != "" ==> gap.display == Trim(m.name))
    && (Trim(m.handle) in {"", "GITHUB_MISSING"} && Trim(m.name) == "" ==> gap.display == "UNKNOWN_MAINTAINER")
    && (NoEmail(m) && NoHandle(m) ==> gap.fields == [EmailField, HandleField])
    && (NoEmail(m) && !NoHandle(m) ==> gap.fields == [EmailField])
    && (!NoEmail(m) && NoHandle(m) ==> gap.fields == [HandleField])
    && (!NoEmail(m) && !NoHandle(m) ==> gap.fields == [])
  }

  /** Everybody else is skipped with a gap of their own, in the same order. */
  lemma {:induction false} WhoIsSkipped(ms: seq<Maintainer>) returns (idx: seq<nat>)
    ensures Picks(idx, ms, false) && |idx| == |GapsOf(ms)|
    ensures forall k :: 0 <= k < |idx| ==> idx[k] < |ms| && GapTells(ms[idx[k]], GapsOf(ms)[k])
    decreases |ms|
  {
    hide TakesPart, Eligible, Picks, GapTells, GapOf;
    idx := [];
    assert Picks(idx, [], false) by { PicksNobody(false); }
    if ms != [] {
      var n := |ms| - 1;
      idx := WhoIsSkipped(ms[..n]);
      PicksWithin(idx, ms[..n], false);
      PickStep(idx, ms, false);
      EligibleIs(ms[n]);
      GapIsTold(ms[n]);
      if !TakesPart(ms[n]) {
        idx := idx + [n];
      }
    }
  }

  lemma GapIsTold(m: Maintainer)
    ensures GapTells(m, GapOf(m))
  {
    hide Trim;
  }

  /** A placeholder with outer spaces is skipped like any other, but no field of it is reported missing. */
  lemma PaddedPlaceholderIsNotReported(m: Maintainer)
    requires m.email == " EMAIL_MISSING" && Trim(m.handle) !in {"", "GITHUB_MISSING"} && m.handle != "GITHUB_MISSING"
    ensures !TakesPart(m) && GapsOf([m]) == [Gap("@" + Trim(m.handle), [])]
  {
    PaddedIsPlaceholder();
    hide Trim;
    EligibleIs(m);
    SkippedAlone(m);
    GapIsTold(m);
  }

  lemma PaddedIsPlaceholder()
    ensures Trim(" EMAIL_MISSING") == "EMAIL_MISSING"
  {
    hide Trim;
    var word := "EMAIL_MISSING";
    SpaceIs('E');
    SpaceIs('G');
    assert word[..1] == ['E'] && word[|word| - 1..] == ['G'];
    TrimOf(" ", word, "");
    assert " " + word + "" == " EMAIL_MISSING";
  }

  lemma SkippedAlone(m: Maintainer)
    requires !Eligible(m)
    ensures GapsOf([m]) == [GapOf(m)]
  {
    hide Eligible, GapOf;
    assert [m][..0] == [];
  }

  /* ----- whom the commands reach ----- */

  /** The address of somebody on the roster who takes part. */
  ghost predicate OnRoster(w: World, p: Project, email: string) {
    p.id in w.store.roster && exists m :: m in w.store.roster[p.id] && TakesPart(m) && m.email == email
  }

  lemma RosterReached(w: World, p: Project, weather: Weather, email: string)
    requires Roster(w, p, weather).Some?
    ensures email in Emails(Roster(w, p, weather).value) <==> OnRoster(w, p, email)
  {
    hide Trim, EligibleOf;
    var ms := Roster(w, p, weather).value;
    if OnRoster(w, p, email) {
      var m :| m in w.store.roster[p.id] && TakesPart(m) && m.email == email;
      assert Eligible(m);
    }
  }

  lemma {:induction false} FirstEmailsAre(ms: seq<Maintainer>, n: nat)
    requires n <= |ms|
    ensures |FirstEmails(ms, n)| == n && forall k :: 0 <= k < n ==> FirstEmails(ms, n)[k] == ms[k].email
  {
    if n > 0 {
      FirstEmailsAre(ms, n - 1);
    }
  }

  lemma OpenKeepsRest(w: World, p: Project, weather: Weather)
    ensures var base := OpenTeam(w, p, weather).world;
            && base.remote.sent == w.remote.sent && base.remote.users == w.remote.users
            && base.remote.trouble == w.remote.trouble && base.remote.repos == w.remote.repos
            && base.remote.invitations == w.remote.invitations
            && forall t, e :: e in Members(base.remote, t) ==> e in Members(w.remote, t)
  {
    hide Find, Taken;
  }

  predicate InvitedEverybody(out: Outcome) {
    out.Done? || out.Panicked? || (out.Failed? && out.why == LookupError)
  }

  /** Every invitation a sign-up requests, and every member it adds, is of somebody on the roster whose
      address and handle are given; and once it gets as far as inviting, it requests one for each of them. */
  lemma SignReaches(w: World, p: Project, weather: Weather)
    ensures var (w1, out) := Sign(w, p, weather);
            && w.remote.sent <= w1.remote.sent
            && (forall k :: |w.remote.sent| <= k < |w1.remote.sent| ==> OnRoster(w, p, w1.remote.sent[k]))
            && (forall t, e :: e in Members(w1.remote, t) && e !in Members(w.remote, t) ==> OnRoster(w, p, e))
            && (InvitedEverybody(out) ==>
                  forall e :: OnRoster(w, p, e) ==> e in w1.remote.sent[|w.remote.sent|..])
  {
    hide OpenTeam, TreatFirst, Introduction, Summary, ReposReport, EligibleOf, Lookup, OnRoster;
    var (w1, out) := Sign(w, p, weather);
    OpenKeepsRest(w, p, weather);
    var roster, base := Roster(w, p, weather), OpenTeam(w, p, weather);
    if roster.Some? {
      forall e ensures e in Emails(roster.value) <==> OnRoster(w, p, e) {
        RosterReached(w, p, weather, e);
      }
      if base.team.Some? && roster.value != [] {
        var ms, team := roster.value, base.team.value;
        LoopReaches(base.world.remote, team, ms);
        assert w1.remote == TreatFirst(base.world.remote, team, ms, |ms|).0;
        assert w1.remote.sent[|w.remote.sent|..] == FirstEmails(ms, |ms|);
      }
    }
  }

  lemma LoopReaches(r: Remote, team: int, ms: seq<Maintainer>)
    ensures var r1 := TreatFirst(r, team, ms, |ms|).0;
            && r1.sent == r.sent + FirstEmails(ms, |ms|)
            && (forall e :: e in FirstEmails(ms, |ms|) <==> e in Emails(ms))
            && (forall t, e :: e in Members(r1, t) && e !in Members(r, t) ==> e in Emails(ms))
  {
    hide TreatFirst, FirstEmails, Members;
    RequestsInOrder(r, team, ms, |ms|);
    FirstEmailsAre(ms, |ms|);
    InvitationsOutcome(r, team, ms, |ms|);
    forall e | e in Emails(ms) ensures e in FirstEmails(ms, |ms|) {
      var m :| m in ms && m.email == e;
      var k :| 0 <= k < |ms| && ms[k] == m;
      assert FirstEmails(ms, |ms|)[k] == e;
    }
  }

  /** The accepted command adds nobody else either, and requests no invitation. */
  lemma AcceptedReaches(w: World, p: Project, weather: Weather)
    ensures var w1 := Accepted(w, p, weather).0;
            && w1.remote.sent == w.remote.sent && w1.remote.invitations == w.remote.invitations
            && forall t, e :: e in Members(w1.remote, t) && e !in Members(w.remote, t) ==> OnRoster(w, p, e)
  {
    hide EligibleOf, ActionsOf, AuditsOf, AddFirst, Lookup, OnRoster, Members;
    var found := Lookup(w.store, weather.first, p.id);
    if found.Some? && found.value.Some? && found.value.value != 0 {
      var team, roster := found.value.value, Roster(w, p, weather);
      if roster.Some? && roster.value != [] && !w.remote.trouble.fetch && team in w.remote.members {
        AddingStays(w, p, team, weather);
      }
    }
  }

  lemma AddingStays(w: World, p: Project, team: int, weather: Weather)
    requires Roster(w, p, weather).Some? && Roster(w, p, weather).value != []
    requires !w.remote.trouble.fetch && team in w.remote.members
    ensures var w1 := AddMaintainers(w, p, team, weather).0;
            && w1.remote.sent == w.remote.sent && w1.remote.invitations == w.remote.invitations
            && forall t, e :: e in Members(w1.remote, t) && e !in Members(w.remote, t) ==> OnRoster(w, p, e)
  {
    hide EligibleOf, ActionsOf, AuditsOf, AddFirst, OnRoster, Members, CanBeAdded;
    var ms, w1 := Roster(w, p, weather).value, AddMaintainers(w, p, team, weather).0;
    AddingOutcome(w.remote, team, ms, |ms|);
    assert Members(w.remote, team) == w.remote.members[team] by { MembersOf(w.remote, team); }
    forall t, e | e in Members(w1.remote, t) && e !in Members(w.remote, t) ensures OnRoster(w, p, e) {
      assert t == team;
      WhoIsOnTheTeam(w, p, team, weather, e);
      RosterReached(w, p, weather, e);
    }
  }

  lemma MembersOf(r: Remote, team: int)
    requires team in r.members
    ensures Members(r, team) == r.members[team]
  {
  }

  /* ----- what the comments say ----- */

  /** The positions of certain fates, in order. */
  ghost predicate PositionsOf<T>(idx: seq<nat>, fates: seq<T>, some: set<T>) {
    Ascends(idx, |fates|) && forall i: nat :: i < |fates| ==> (fates[i] in some <==> i in idx)
  }

  lemma NoPositions<T>(some: set<T>)
    ensures PositionsOf([], [], some)
  {
  }

  lemma PositionStep<T>(idx: seq<nat>, fates: seq<T>, some: set<T>)
    requires fates != [] && PositionsOf(idx, fates[..|fates| - 1], some)
    ensures PositionsOf(if fates[|fates| - 1] in some then idx + [|fates| - 1] else idx, fates, some)
    ensures forall k :: 0 <= k < |idx| ==> idx[k] < |fates| - 1
  {
    var n := |fates| - 1;
    assert forall i: nat :: i < n ==> fates[..n][i] == fates[i];
    assert n !in idx;
  }

  lemma {:induction false} WithIs(ms: seq<Maintainer>, fates: seq<Fate>, f: Fate) returns (idx: seq<nat>)
    requires |fates| <= |ms|
    ensures PositionsOf(idx, fates, {f}) && |idx| == |With(ms, fates, f)|
    ensures forall k :: 0 <= k < |idx| ==> idx[k] < |ms| && With(ms, fates, f)[k] == ms[idx[k]].handle
    decreases |fates|
  {
    hide PositionsOf;
    idx := [];
    NoPositions({f});
    if fates != [] {
      var n := |fates| - 1;
      idx := WithIs(ms, fates[..n], f);
      PositionStep(idx, fates, {f});
      if fates[n] == f {
        idx := idx + [n];
      }
    }
  }

  /** The line for a fate that is a problem. */
  predicate ProblemTells(m: Maintainer, fate: Fate, line: Action) {
    line == if fate == AddFailed then AddProblem(m.handle) else SendProblem(m.handle)
  }

  lemma {:induction false} ProblemsAre(ms: seq<Maintainer>, fates: seq<Fate>) returns (idx: seq<nat>)
    requires |fates| <= |ms|
    ensures PositionsOf(idx, fates, {AddFailed, SendFailed}) && |idx| == |Problems(ms, fates)|
    ensures forall k :: 0 <= k < |idx| ==> idx[k] < |fates| && ProblemTells(ms[idx[k]], fates[idx[k]], Problems(ms, fates)[k])
    decreases |fates|
  {
    hide PositionsOf;
    idx := [];
    NoPositions({AddFailed, SendFailed});
    if fates != [] {
      var n := |fates| - 1;
      idx := ProblemsAre(ms, fates[..n]);
      PositionStep(idx, fates, {AddFailed, SendFailed});
      if fates[n] == AddFailed || fates[n] == SendFailed {
        idx := idx + [n];
      }
    }
  }

  /* ----- the comment of a sign-up ----- */

  /** What becomes of the k-th of those who take part, read off the service before the invitations. */
  predicate Refuses(r: Remote, m: Maintainer) { m.email in r.trouble.send }

  predicate IsStranger(r: Remote, m: Maintainer) { m.email !in r.trouble.send && m.email !in r.users }

  predicate IsNewMember(r: Remote, team: int, ms: seq<Maintainer>, k: nat)
    requires k < |ms|
  {
    && ms[k].email in r.users && ms[k].email !in r.trouble.send && ms[k].email !in r.trouble.add
    && (team in r.members ==> ms[k].email !in r.members[team])
    && forall j :: 0 <= j < k ==> ms[j].email != ms[k].email
  }

  /** The handles at certain positions. */
  ghost predicate HandlesAt(handles: seq<string>, ms: seq<Maintainer>, idx: seq<nat>) {
    Ascends(idx, |ms|) && |handles| == |idx| && forall k :: 0 <= k < |idx| ==> handles[k] == ms[idx[k]].handle
  }

  lemma ExpectedFateIs(r: Remote, team: int, ms: seq<Maintainer>, k: nat)
    requires k < |ms|
    ensures ExpectedFate(r, team, ms, k) == Invited <==> IsStranger(r, ms[k])
    ensures ExpectedFate(r, team, ms, k) == Joined <==> IsNewMember(r, team, ms, k)
    ensures ExpectedFate(r, team, ms, k) == SendFailed <==> Refuses(r, ms[k])
  {
  }

  /** The lines about the maintainers: first the problems, in the order of the roster, then one line that
      names those invited and one that names those added, if there are any. */
  ghost predicate ListsFates(r: Remote, team: int, ms: seq<Maintainer>, problems: seq<Action>, ps: seq<nat>,
                             invited: seq<string>, ns: seq<nat>, joined: seq<string>, js: seq<nat>)
  {
    && HandlesAt(invited, ms, ns) && (forall k: nat :: k < |ms| ==> (IsStranger(r, ms[k]) <==> k in ns))
    && HandlesAt(joined, ms, js) && (forall k: nat :: k < |ms| ==> (IsNewMember(r, team, ms, k) <==> k in js))
    && Ascends(ps, |ms|) && |problems| == |ps| && (forall k: nat :: k < |ms| ==> (k !in ns && k !in js <==> k in ps))
    && forall k :: 0 <= k < |ps| ==>
         problems[k] == if Refuses(r, ms[ps[k]]) then SendProblem(ms[ps[k]].handle) else AddProblem(ms[ps[k]].handle)
  }

  lemma SummaryLists(r: Remote, team: int, ms: seq<Maintainer>)
    returns (problems: seq<Action>, ps: seq<nat>, invited: seq<string>, ns: seq<nat>, joined: seq<string>, js: seq<nat>)
    ensures ListsFates(r, team, ms, problems, ps, invited, ns, joined, js)
    ensures Summary(ms, TreatFirst(r, team, ms, |ms|).1) ==
      problems + (if invited == [] then [] else [InvitedThese(invited)]) + (if joined == [] then [] else [JoinedThese(joined)])
  {
    hide TreatFirst, With, Problems, ExpectedFate, IsStranger, IsNewMember, Refuses, Members;
    var fates := TreatFirst(r, team, ms, |ms|).1;
    InvitationsOutcome(r, team, ms, |ms|);
    forall k | 0 <= k < |ms| ensures
      && (fates[k] == Invited <==> IsStranger(r, ms[k])) && (fates[k] == Joined <==> IsNewMember(r, team, ms, k))
      && (fates[k] == SendFailed <==> Refuses(r, ms[k]))
    {
      ExpectedFateIs(r, team, ms, k);
    }
    problems, invited, joined := Problems(ms, fates), With(ms, fates, Invited), With(ms, fates, Joined);
    ns := WithIs(ms, fates, Invited);
    js := WithIs(ms, fates, Joined);
    ps := ProblemsAre(ms, fates);
  }

  /** The lines about the team: the recorded one, or the next one the service gives out. */
  predicate Opens(w: World, p: Project, weather: Weather, team: int, opening: seq<Action>) {
    if weather.first || w.store.fossa.None? then
      team == w.remote.nextTeam && opening == [LookupFailed, TeamCreated(team)]
    else if Find(w.store.rows, w.store.fossa.value, p.id).Some? then
      Find(w.store.rows, w.store.fossa.value, p.id) == Some(team) && opening == [TeamThere(team)]
    else
      team == w.remote.nextTeam && opening == [TeamCreated(team)]
  }

  /** The last lines: the repositories of the team on record by then. */
  predicate Imports(s: Store, r: Remote, p: Project, repos: seq<Action>) {
    && s.fossa.Some? && Find(s.rows, s.fossa.value, p.id).Some?
    && var team := Find(s.rows, s.fossa.value, p.id).value;
       if r.trouble.repos then repos == [ReposProblem, NoRepos]
       else if team in r.repos && r.repos[team] > 0 then repos == [Repos(r.repos[team])]
       else repos == [NoRepos]
  }

  lemma OpeningIs(w: World, p: Project, weather: Weather)
    ensures var base := OpenTeam(w, p, weather);
            base.team.Some? ==> Opens(w, p, weather, base.team.value, base.actions)
  {
    hide Find, Taken;
    assert [LookupFailed] + [TeamCreated(w.remote.nextTeam)] == [LookupFailed, TeamCreated(w.remote.nextTeam)];
  }

  /** The team cannot be had: none is on record, or the record cannot be read, and the service refuses. */
  predicate NoTeamToHave(w: World, p: Project, weather: Weather) {
    && (weather.first || w.store.fossa.None? || Find(w.store.rows, w.store.fossa.value, p.id).None?)
    && (w.remote.trouble.create || p.name in w.remote.teams)
  }

  ghost predicate NobodyTakesPart(ms: seq<Maintainer>) { forall m :: m in ms ==> !TakesPart(m) }

  lemma NobodyIsEligible(ms: seq<Maintainer>)
    ensures EligibleOf(ms) == [] <==> NobodyTakesPart(ms)
  {
    hide TakesPart, Eligible, EligibleOf;
    forall m ensures Eligible(m) <==> TakesPart(m) {
      EligibleIs(m);
    }
    if EligibleOf(ms) != [] {
      assert EligibleOf(ms)[0] in EligibleOf(ms);
    }
  }

  /** Why a sign-up fails, in the order of its checks; otherwise it comes through or crashes. */
  lemma SignFailsExactlyWhen(w: World, p: Project, weather: Weather)
    ensures var out := Sign(w, p, weather).1;
            var unknown := weather.roster || p.id !in w.store.roster;
            && (out == Failed([NotInDb], RosterUnknown) <==> unknown)
            && (out.Failed? && out.why == CannotCreateTeam <==> !unknown && NoTeamToHave(w, p, weather))
            && (out.Failed? && out.why == NoMaintainers <==>
                  !unknown && !NoTeamToHave(w, p, weather) && NobodyTakesPart(w.store.roster[p.id]))
            && (out == Failed([], LookupError) <==>
                  && !unknown && !NoTeamToHave(w, p, weather) && !NobodyTakesPart(w.store.roster[p.id])
                  && (weather.second || w.store.fossa.None?))
            && (unknown || NoTeamToHave(w, p, weather) || NobodyTakesPart(w.store.roster[p.id])
                || weather.second || w.store.fossa.None? || out.Done? || out.Panicked?)
  {
    hide TreatFirst, Introduction, Summary, ReposReport, EligibleOf, Find, Taken, TakesPart, Eligible;
    if !weather.roster && p.id in w.store.roster {
      NobodyIsEligible(w.store.roster[p.id]);
    }
  }

  /** What a sign-up reports when it cannot have a team, and when nobody takes part. */
  lemma FailedSignReport(w: World, p: Project, weather: Weather) returns (team: int, opening: seq<Action>)
    requires p.id in w.store.roster && Sign(w, p, weather).1.Failed?
    requires Sign(w, p, weather).1.why == CannotCreateTeam || Sign(w, p, weather).1.why == NoMaintainers
    ensures var ms, gaps := EligibleOf(w.store.roster[p.id]), GapsOf(w.store.roster[p.id]);
            var out := Sign(w, p, weather).1;
            var unread := weather.first || w.store.fossa.None?;
            if out.why == CannotCreateTeam then
              out.actions == [Registered(|ms|)] + (if gaps == [] then [] else [MissingFields(gaps)])
                + (if unread then [LookupFailed] else []) + [TeamFailed]
            else
              && Opens(w, p, weather, team, opening) && ms == []
              && out.actions == [Registered(0)] + (if gaps == [] then [] else [MissingFields(gaps)]) + opening + [NobodyYet]
  {
    hide TreatFirst, EligibleOf, GapsOf, Summary, Find, Opens, Taken;
    var base := OpenTeam(w, p, weather);
    OpeningIs(w, p, weather);
    opening := base.actions;
    team := if base.team.Some? then base.team.value else 0;
    var intro := Introduction(w.store.roster[p.id]);
    assert intro + ([LookupFailed] + [TeamFailed]) == intro + [LookupFailed] + [TeamFailed];
    assert intro + ([] + [TeamFailed]) == intro + [] + [TeamFailed];
  }

  /** The whole comment of a sign-up that comes through, line by line. */
  lemma SignReport(w: World, p: Project, weather: Weather)
    returns (team: int, opening: seq<Action>, problems: seq<Action>, ps: seq<nat>, invited: seq<string>, ns: seq<nat>,
             joined: seq<string>, js: seq<nat>, repos: seq<Action>)
    requires p.id in w.store.roster && Sign(w, p, weather).1.Done?
    ensures var ms, gaps := EligibleOf(w.store.roster[p.id]), GapsOf(w.store.roster[p.id]);
            var (w1, out) := Sign(w, p, weather);
            && Opens(w, p, weather, team, opening)
            && ListsFates(OpenTeam(w, p, weather).world.remote, team, ms, problems, ps, invited, ns, joined, js)
            && Imports(w1.store, w1.remote, p, repos)
            && out.actions == [Registered(|ms|)] + (if gaps == [] then [] else [MissingFields(gaps)]) + opening + problems
                 + (if invited == [] then [] else [InvitedThese(invited)])
                 + (if joined == [] then [] else [JoinedThese(joined)]) + repos
  {
    hide OpenTeam, TreatFirst, EligibleOf, GapsOf, Summary, Find, ListsFates, Opens;
    var base := OpenTeam(w, p, weather);
    var ms := EligibleOf(w.store.roster[p.id]);
    OpeningIs(w, p, weather);
    team, opening := base.team.value, base.actions;
    problems, ps, invited, ns, joined, js := SummaryLists(base.world.remote, team, ms);
    var (r, fates) := TreatFirst(base.world.remote, team, ms, |ms|);
    var again := Lookup(base.world.store, weather.second, p.id).value.value;
    repos := ReposReport(r, again);
    ReposAre(r, again);
    SumsUp(Introduction(w.store.roster[p.id]), opening, problems, if invited == [] then [] else [InvitedThese(invited)],
           if joined == [] then [] else [JoinedThese(joined)], repos);
  }

  lemma ReposAre(r: Remote, team: int)
    ensures ReposReport(r, team) ==
      if r.trouble.repos then [ReposProblem, NoRepos]
      else if team in r.repos && r.repos[team] > 0 then [Repos(r.repos[team])]
      else [NoRepos]
  {
  }

  lemma SumsUp(intro: seq<Action>, opening: seq<Action>, problems: seq<Action>, invited: seq<Action>, joined: seq<Action>,
               repos: seq<Action>)
    ensures intro + opening + (problems + invited + joined) + repos == intro + opening + problems + invited + joined + repos
  {
  }

  /* ----- the comment of the accepted command ----- */

  /** The line for the k-th of those who take part, read off the state before the command. */
  predicate AddLine(r: Remote, existing: seq<string>, ms: seq<Maintainer>, k: nat, line: Action)
    requires k < |ms|
  {
    var e, handle := ms[k].email, ms[k].handle;
    if e in r.invitations && e !in r.trouble.pending then line == StillPending(handle)
    else if e in existing then line == AlreadyMember(handle)
    else if e !in r.users || e in r.trouble.add then line == AddError(handle)
    else if exists j :: 0 <= j < k && ms[j].email == e then line == AlreadyMember(handle)
    else line == Added(handle)
  }

  lemma LineIs(r: Remote, existing: seq<string>, ms: seq<Maintainer>, k: nat)
    requires k < |ms|
    ensures AddLine(r, existing, ms, k, ActionOf(ms[k], ExpectedAddFate(r, existing, ms, k)))
    ensures ActionOf(ms[k], ExpectedAddFate(r, existing, ms, k)).Added? <==> ExpectedAddFate(r, existing, ms, k) == Joining
  {
  }

  lemma {:induction false} AuditsAre(p: Project, ms: seq<Maintainer>, fates: seq<AddFate>, lost: set<nat>)
    returns (idx: seq<nat>)
    requires |fates| <= |ms|
    ensures Ascends(idx, |fates|) && |idx| == |AuditsOf(p, ms, fates, lost)|
    ensures forall i: nat :: i < |fates| ==> (i in idx <==> fates[i] == Joining && ms[i].id !in lost)
    ensures forall k :: 0 <= k < |idx| ==>
              idx[k] < |ms| && AuditsOf(p, ms, fates, lost)[k] == Audit(p.id, ms[idx[k]].id, ms[idx[k]].handle)
    decreases |fates|
  {
    idx := [];
    if fates != [] {
      var n := |fates| - 1;
      idx := AuditsAre(p, ms, fates[..n], lost);
      assert forall i: nat :: i < n ==> fates[..n][i] == fates[i];
      assert n !in idx;
      if fates[n].Joining? && ms[n].id !in lost {
        idx := idx + [n];
      }
    }
  }

  /** The whole comment, and the events behind it: one line for each of those who take part, and one event
      for each line that says "added", except those the database lost. */
  lemma AcceptedReport(w: World, p: Project, team: int, weather: Weather) returns (idx: seq<nat>)
    requires Roster(w, p, weather).Some? && Roster(w, p, weather).value != []
    requires !w.remote.trouble.fetch && team in w.remote.members
    ensures var ms := Roster(w, p, weather).value;
            var (w1, out) := AddMaintainers(w, p, team, weather);
            && out.Done? && |out.actions| == |ms|
            && (forall k :: 0 <= k < |ms| ==> AddLine(w.remote, w.remote.members[team], ms, k, out.actions[k]))
            && w1.store == w.store.(audits := w1.store.audits)
            && Ascends(idx, |ms|) && |w1.store.audits| == |w.store.audits| + |idx| && w.store.audits <= w1.store.audits
            && (forall i: nat :: i < |ms| ==> (i in idx <==> out.actions[i].Added? && ms[i].id !in weather.audits))
            && forall k :: 0 <= k < |idx| ==>
                 w1.store.audits[|w.store.audits| + k] == Audit(p.id, ms[idx[k]].id, ms[idx[k]].handle)
  {
    hide ActionOf, ExpectedAddFate, AddFirst, EligibleOf, ActionsOf, AuditsOf, AddLine;
    var ms := Roster(w, p, weather).value;
    var fates := AddFirst(w.remote, w.remote.members[team], team, ms, |ms|).2;
    AddingOutcome(w.remote, team, ms, |ms|);
    ActionsInOrder(ms, fates);
    forall k | 0 <= k < |ms| ensures
      && AddLine(w.remote, w.remote.members[team], ms, k, ActionOf(ms[k], fates[k]))
      && (ActionOf(ms[k], fates[k]).Added? <==> fates[k] == Joining)
    {
      LineIs(w.remote, w.remote.members[team], ms, k);
    }
    idx := AuditsAre(p, ms, fates, weather.audits);
  }

  lemma SomebodyIsNamed(ms: seq<Maintainer>, fates: seq<AddFate>)
    requires |fates| <= |ms|
    ensures ActionsOf(ms, fates) != [NoneRegistered]
  {
    hide ActionsOf;
    ActionsInOrder(ms, fates);
    if fates != [] {
      assert ActionsOf(ms, fates)[0] == ActionOf(ms[0], fates[0]);
    }
  }

  /** When the accepted command is silent, when it reports a missing team, and when it fails. */
  lemma AcceptedFailsExactlyWhen(w: World, p: Project, weather: Weather)
    ensures var out := Accepted(w, p, weather).1;
            var unread := weather.first || w.store.fossa.None?;
            var found := if unread then None else Find(w.store.rows, w.store.fossa.value, p.id);
            var unknown := weather.roster || p.id !in w.store.roster;
            && (out == Silent <==> unread)
            && (out == TeamMissing <==> !unread && (found == None || found == Some(0)))
            && (out.Failed? && out.why == RosterUnknown <==> found.Some? && found != Some(0) && unknown)
            && (out == Done([NoneRegistered]) <==>
                  found.Some? && found != Some(0) && !unknown && NobodyTakesPart(w.store.roster[p.id]))
            && (out.Failed? && out.why == CannotFetchMembers <==>
                  && found.Some? && found != Some(0) && !unknown && !NobodyTakesPart(w.store.roster[p.id])
                  && (w.remote.trouble.fetch || found.value !in w.remote.members))
  {
    hide EligibleOf, ActionsOf, AuditsOf, AddFirst, Find, TakesPart, Eligible;
    var found := if weather.first || w.store.fossa.None? then None else Find(w.store.rows, w.store.fossa.value, p.id);
    if !weather.roster && p.id in w.store.roster {
      var all := w.store.roster[p.id];
      NobodyIsEligible(all);
      if found.Some? && found.value in w.remote.members {
        var ms := EligibleOf(all);
        SomebodyIsNamed(ms, AddFirst(w.remote, w.remote.members[found.value], found.value, ms, |ms|).2);
      }
    }
  }
}
