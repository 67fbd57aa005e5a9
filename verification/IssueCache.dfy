/** The cache of onboarding issues, shared by readers that fetch outside its lock. */
module IssueCache {
  import opened Options
  import opened Text

  const TTL: int := 15 * 60

  datatype Issue = Issue(number: nat, url: string, project: string)
  datatype Project = Project(name: string, issue: Option<string>)

  /** The project-table query for one issue; with neither a link nor a name it has no condition. */
  predicate Matches(p: Project, i: Issue) {
    || (i.url != "" && p.issue.Some? && Lower(p.issue.value) == Lower(i.url))
    || (i.project != "" && Lower(p.name) == Lower(i.project))
    || (i.url == "" && i.project == "")
  }

  predicate Filed(projects: seq<Project>, i: Issue) {
    exists k :: 0 <= k < |projects| && Matches(projects[k], i)
  }

  datatype Cache = Cache(raw: seq<Issue>, issues: seq<Issue>, expires: int)

  const EMPTY: Cache := Cache([], [], 0)

  function Lookup(c: Cache, now: int, wantRaw: bool): Option<seq<Issue>> {
    var list := if wantRaw then c.raw else c.issues;
    if now < c.expires && |list| > 0 then Some(list) else None
  }

  /** The fields under the lock. */
  class SharedCache {
    var raw: seq<Issue>
    var issues: seq<Issue>
    var expires: int

    constructor ()
      ensures Now() == EMPTY
    {
      raw, issues, expires := [], [], 0;
    }

    function Now(): Cache
      reads this
    {
      Cache(raw, issues, expires)
    }

    method Read(now: int, wantRaw: bool) returns (hit: Option<seq<Issue>>)
      ensures hit == Lookup(Now(), now, wantRaw)
    {
      var list := if wantRaw then raw else issues;
      hit := None;
      if now < expires && |list| > 0 {
        hit := Some(list);
      }
    }

    method Refresh(fetched: seq<Issue>, kept: seq<Issue>, now: int)
      modifies this
      ensures Now() == Cache(fetched, kept, now + TTL)
    {
      raw := fetched;
      issues := kept;
      expires := now + TTL;
    }

    method Invalidate()
      modifies this
      ensures Now() == EMPTY
    {
      expires := 0;
      issues := [];
      raw := [];
    }
  }

  /* ----- readers ----- */

  /** Where a reader is: it has read the clock; it is fetching; it has the list and is asking the
      database about one issue after another. */
  datatype Stage =
    | Looking(now: nat, wantRaw: bool)
    | Fetching(now: nat)
    | Filtering(now: nat, taken: nat, raw: seq<Issue>, asked: nat, kept: seq<Issue>)

  /** A refresh that reached the cache: clock reading, moment the list was taken, and both lists. */
  datatype Fetch = Fetch(now: nat, taken: nat, raw: seq<Issue>, kept: seq<Issue>)
  datatype Hit = Hit(now: nat, wantRaw: bool, list: seq<Issue>)

  datatype State = State(clock: nat, projects: seq<Project>, cache: Cache, readers: map<nat, Stage>,
                         fetches: seq<Fetch>, hits: seq<Hit>)

  datatype Step =
    | Tick | AddProject(p: Project) | Invalidation
    | Start(t: nat, wantRaw: bool) | Look(t: nat) | Receive(t: nat, raw: seq<Issue>) | Ask(t: nat) | Store(t: nat)
    | GiveUp(t: nat)

  /** One atomic step; a step whose reader is elsewhere does nothing. */
  function Apply(s: State, step: Step): State {
    match step
    case Tick => s.(clock := s.clock + 1)
    case AddProject(p) => s.(projects := s.projects + [p])
    case Invalidation => s.(cache := EMPTY)
    case Start(t, wantRaw) => if t in s.readers then s else s.(readers := s.readers[t := Looking(s.clock, wantRaw)])
    case GiveUp(t) => s.(readers := s.readers - {t})
    case _ => if step.t !in s.readers then s else Proceed(s, step, s.readers[step.t])
  }

  function Proceed(s: State, step: Step, at: Stage): State {
    match (step, at)
    case (Look(t), Looking(now, wantRaw)) =>
      var hit := Lookup(s.cache, now, wantRaw);
      if hit.Some? then s.(readers := s.readers - {t}, hits := s.hits + [Hit(now, wantRaw, hit.value)])
      else s.(readers := s.readers[t := Fetching(now)])
    case (Receive(t, raw), Fetching(now)) => s.(readers := s.readers[t := Filtering(now, s.clock, raw, 0, [])])
    case (Ask(t), Filtering(now, taken, raw, asked, kept)) =>
      if asked >= |raw| then s
      else
        s.(readers := s.readers[t := Filtering(now, taken, raw, asked + 1,
                                               if Filed(s.projects, raw[asked]) then kept else kept + [raw[asked]])])
    case (Store(t), Filtering(now, taken, raw, asked, kept)) =>
      if asked < |raw| then s
      else
        s.(readers := s.readers - {t}, cache := Cache(raw, kept, now + TTL),
           fetches := s.fetches + [Fetch(now, taken, raw, kept)])
    case _ => s
  }

  function Run(s: State, steps: seq<Step>): State {
    if steps == [] then s else Apply(Run(s, steps[..|steps| - 1]), steps[|steps| - 1])
  }

  function Boot(projects: seq<Project>): State { State(0, projects, EMPTY, map[], [], []) }

  /** The server: the readers work on the shared fields, one atomic section at a time. */
  class Server {
    var clock: nat
    var projects: seq<Project>
    var readers: map<nat, Stage>
    var fetches: seq<Fetch>
    var hits: seq<Hit>
    const cache: SharedCache

    constructor (projects: seq<Project>)
      ensures Now() == Boot(projects) && fresh(cache)
    {
      clock, this.projects, readers, fetches, hits := 0, projects, map[], [], [];
      cache := new SharedCache();
    }

    function Now(): State
      reads this, cache
    {
      State(clock, projects, cache.Now(), readers, fetches, hits)
    }

    /** A request arrives and reads the clock. */
    method Arrive(t: nat, wantRaw: bool)
      modifies this`readers
      ensures Now() == Apply(old(Now()), Start(t, wantRaw))
    {
      if t !in readers {
        readers := readers[t := Looking(clock, wantRaw)];
      }
    }

    /** Under the read lock: serve the cached list, or go and fetch. */
    method LookUp(t: nat)
      modifies this`readers, this`hits
      ensures Now() == Apply(old(Now()), Look(t))
    {
      if t in readers && readers[t].Looking? {
        var now, wantRaw := readers[t].now, readers[t].wantRaw;
        var hit := cache.Read(now, wantRaw);
        if hit.Some? {
          hits := hits + [Hit(now, wantRaw, hit.value)];
          readers := readers - {t};
        } else {
          readers := readers[t := Fetching(now)];
        }
      }
    }

    /** The fetch has answered. */
    method TakeIssues(t: nat, raw: seq<Issue>)
      modifies this`readers
      ensures Now() == Apply(old(Now()), Receive(t, raw))
    {
      if t in readers && readers[t].Fetching? {
        readers := readers[t := Filtering(readers[t].now, clock, raw, 0, [])];
      }
    }

    /** The query for the next issue. */
    method AskNext(t: nat)
      modifies this`readers
      ensures Now() == Apply(old(Now()), Ask(t))
    {
      if t in readers && readers[t].Filtering? && readers[t].asked < |readers[t].raw| {
        var at := readers[t];
        var issue := at.raw[at.asked];
        var kept := if Filed(projects, issue) then at.kept else at.kept + [issue];
        readers := readers[t := Filtering(at.now, at.taken, at.raw, at.asked + 1, kept)];
      }
    }

    /** Under the write lock: both lists and the expiry go in together. */
    method Finish(t: nat)
      modifies this`readers, this`fetches, cache
      ensures Now() == Apply(old(Now()), Store(t))
    {
      if t in readers && readers[t].Filtering? && readers[t].asked >= |readers[t].raw| {
        var at := readers[t];
        cache.Refresh(at.raw, at.kept, at.now);
        fetches := fetches + [Fetch(at.now, at.taken, at.raw, at.kept)];
        readers := readers - {t};
      }
    }

    /** A failed fetch or query ends the request; nothing is stored. */
    method Fail(t: nat)
      modifies this`readers
      ensures Now() == Apply(old(Now()), GiveUp(t))
    {
      readers := readers - {t};
    }

    /** After a project was created, under the write lock. */
    method InvalidateOnboardingCache()
      modifies cache
      ensures Now() == Apply(old(Now()), Invalidation)
    {
      cache.Invalidate();
    }

    /** What happens around the readers: the clock moves, a project is created. */
    method Elsewhere(step: Step)
      requires step.Tick? || step.AddProject?
      modifies this`clock, this`projects
      ensures Now() == Apply(old(Now()), step)
    {
      match step
      case Tick => clock := clock + 1;
      case AddProject(p) => projects := projects + [p];
    }

    /** Each atomic section takes its step of the model. */
    method Do(step: Step)
      modifies this, cache
      ensures Now() == Apply(old(Now()), step)
    {
      match step
      case Start(t, wantRaw) => Arrive(t, wantRaw);
      case Look(t) => LookUp(t);
      case Receive(t, raw) => TakeIssues(t, raw);
      case Ask(t) => AskNext(t);
      case Store(t) => Finish(t);
      case GiveUp(t) => Fail(t);
      case Invalidation => InvalidateOnboardingCache();
      case _ => Elsewhere(step);
    }

    /** Sections that interleave in any order go through a run of the model. */
    method Serve(steps: seq<Step>)
      modifies this, cache
      ensures Now() == Run(old(Now()), steps)
    {
      for i := 0 to |steps|
        invariant Now() == Run(old(Now()), steps[..i])
      {
        assert steps[..i + 1][..i] == steps[..i];
        Do(steps[i]);
      }
      assert steps[..|steps|] == steps;
    }
  }

  /* ----- coherence over every interleaving ----- */

  predicate Subsequence(a: seq<Issue>, b: seq<Issue>) {
    a == [] ||
    (b != [] && (Subsequence(a, b[..|b| - 1]) ||
                 (a[|a| - 1] == b[|b| - 1] && Subsequence(a[..|a| - 1], b[..|b| - 1]))))
  }

  predicate FromFetch(c: Cache, f: Fetch) {
    c.raw == f.raw && c.issues == f.kept && c.expires == f.now + 900
  }

  /** The list was taken after the clock was read, and the short list is picked from the long one. */
  predicate GoodFetch(f: Fetch) {
    f.now <= f.taken && Subsequence(f.kept, f.raw)
  }

  predicate GoodStage(s: State, at: Stage) {
    match at
    case Looking(now, _) => now <= s.clock
    case Fetching(now) => now <= s.clock
    case Filtering(now, taken, raw, asked, kept) =>
      now <= taken <= s.clock && asked <= |raw| && Subsequence(kept, raw[..asked])
  }

  /** The list served is one fetch's list, less than the lifetime old when the reader looked at the
      clock. */
  predicate GoodHit(s: State, h: Hit) {
    exists k :: 0 <= k < |s.fetches| && Serves(s.fetches[k], h)
  }

  predicate Serves(f: Fetch, h: Hit) {
    h.list == (if h.wantRaw then f.raw else f.kept) && h.list != [] && h.now < f.taken + 900
  }

  ghost predicate Coherent(s: State) {
    && (s.cache == EMPTY || (s.fetches != [] && FromFetch(s.cache, s.fetches[|s.fetches| - 1])))
    && (forall k :: 0 <= k < |s.fetches| ==> GoodFetch(s.fetches[k]))
    && (forall t :: t in s.readers ==> GoodStage(s, s.readers[t]))
    && (forall k :: 0 <= k < |s.hits| ==> GoodHit(s, s.hits[k]))
  }

  lemma HitsKeep(s: State, s1: State, h: Hit)
    requires GoodHit(s, h) && s.fetches <= s1.fetches
    ensures GoodHit(s1, h)
  {
  }

  lemma StepKeepsCoherent(s: State, step: Step)
    requires Coherent(s)
    ensures Coherent(Apply(s, step))
  {
    hide Matches, Filed, Serves;
    var s1 := Apply(s, step);
    forall k | 0 <= k < |s.hits| ensures GoodHit(s1, s.hits[k]) {
      HitsKeep(s, s1, s.hits[k]);
    }
    match step
    case Look(t) => LookServes(s, t);
    case Ask(t) => AskKeeps(s, t);
    case Store(t) => StoreKeeps(s, t);
    case _ =>
  }

  lemma LookServes(s: State, t: nat)
    requires Coherent(s)
    ensures forall k :: |s.hits| <= k < |Apply(s, Look(t)).hits| ==> GoodHit(s, Apply(s, Look(t)).hits[k])
  {
    var s1 := Apply(s, Look(t));
    if |s1.hits| > |s.hits| {
      var k := |s.fetches| - 1;
      assert GoodFetch(s.fetches[k]) && Serves(s.fetches[k], s1.hits[|s.hits|]);
    }
  }

  lemma AskKeeps(s: State, t: nat)
    requires Coherent(s)
    ensures forall u :: u in Apply(s, Ask(t)).readers ==> GoodStage(s, Apply(s, Ask(t)).readers[u])
  {
    hide Filed;
    if t in s.readers && s.readers[t].Filtering? && s.readers[t].asked < |s.readers[t].raw| {
      var at := s.readers[t];
      assert GoodStage(s, at);
      assert at.raw[..at.asked + 1][..at.asked] == at.raw[..at.asked];
    }
  }

  lemma StoreKeeps(s: State, t: nat)
    requires Coherent(s)
    ensures forall k :: 0 <= k < |Apply(s, Store(t)).fetches| ==> GoodFetch(Apply(s, Store(t)).fetches[k])
  {
    if t in s.readers && s.readers[t].Filtering? {
      var at := s.readers[t];
      assert GoodStage(s, at);
      assert at.asked == |at.raw| ==> at.raw[..at.asked] == at.raw;
    }
  }

  /** Over every interleaving of readers, refreshes, invalidations and new projects, the cached
      lists and expiry come from one fetch, and every list served from the cache is that of one
      fetch taken less than the lifetime before. */
  lemma {:induction false} EveryRunIsCoherent(projects: seq<Project>, steps: seq<Step>)
    ensures Coherent(Run(Boot(projects), steps))
  {
    if steps != [] {
      hide Coherent, Apply;
      EveryRunIsCoherent(projects, steps[..|steps| - 1]);
      StepKeepsCoherent(Run(Boot(projects), steps[..|steps| - 1]), steps[|steps| - 1]);
    }
  }

  /* ----- what a refresh keeps ----- */

  /** The project has the issue's link or its name, letter case aside; an issue with neither a link nor a
      name is taken to be any project's. */
  ghost predicate Belongs(p: Project, i: Issue) {
    if i.url == "" && i.project == "" then true
    else
      || (i.url != "" && exists link :: p.issue == Some(link) && Lower(link) == Lower(i.url))
      || (i.project != "" && Lower(p.name) == Lower(i.project))
  }

  ghost predicate BelongsToNone(projects: seq<Project>, i: Issue) {
    forall k :: 0 <= k < |projects| ==> !Belongs(projects[k], i)
  }

  lemma FiledMeaning(projects: seq<Project>, i: Issue)
    ensures Filed(projects, i) <==> !BelongsToNone(projects, i)
  {
    hide Lower;
    forall k | 0 <= k < |projects| ensures Matches(projects[k], i) <==> Belongs(projects[k], i) {
      assert projects[k].issue.Some? ==> projects[k].issue == Some(projects[k].issue.value);
    }
  }

  /** The positions of the issues that belong to no project. */
  ghost predicate Unfiled(idx: seq<nat>, projects: seq<Project>, raw: seq<Issue>, n: nat)
    requires n <= |raw|
  {
    && (forall k :: 0 <= k < |idx| ==> idx[k] < n) && (forall j, k :: 0 <= j < k < |idx| ==> idx[j] < idx[k])
    && forall i: nat :: i < n ==> (BelongsToNone(projects, raw[i]) <==> i in idx)
  }

  lemma UnfiledStep(idx: seq<nat>, projects: seq<Project>, raw: seq<Issue>, n: nat)
    requires n < |raw| && Unfiled(idx, projects, raw, n)
    ensures Unfiled(if BelongsToNone(projects, raw[n]) then idx + [n] else idx, projects, raw, n + 1)
  {
    hide BelongsToNone;
    assert n !in idx;
  }

  /** The kept issues are those at the positions. */
  predicate KeptAt(kept: seq<Issue>, raw: seq<Issue>, idx: seq<nat>) {
    |kept| == |idx| && forall k :: 0 <= k < |idx| ==> idx[k] < |raw| && kept[k] == raw[idx[k]]
  }

  lemma AskKeepsOne(s: State, t: nat)
    requires t in s.readers && s.readers[t].Filtering? && s.readers[t].asked < |s.readers[t].raw|
    ensures var at, s1 := s.readers[t], Apply(s, Ask(t));
            && t in s1.readers && s1.readers[t].Filtering?
            && s1.readers[t].kept
            == if BelongsToNone(s.projects, at.raw[at.asked]) then at.kept + [at.raw[at.asked]] else at.kept
  {
    hide Filed, BelongsToNone;
    FiledMeaning(s.projects, s.readers[t].raw[s.readers[t].asked]);
  }

  /** How far the reader has come, and what it has kept. */
  ghost predicate FilteredTo(s: State, t: nat, raw: seq<Issue>, n: nat, kept: seq<Issue>) {
    t in s.readers && s.readers[t].Filtering? && s.readers[t].raw == raw && s.readers[t].asked == n && s.readers[t].kept == kept
  }

  lemma FilterStep(s: State, t: nat, raw: seq<Issue>, n: nat, kept: seq<Issue>)
    requires FilteredTo(s, t, raw, n, kept) && n < |raw|
    ensures Apply(s, Ask(t)).projects == s.projects
    ensures FilteredTo(Apply(s, Ask(t)), t, raw, n + 1, if BelongsToNone(s.projects, raw[n]) then kept + [raw[n]] else kept)
  {
    hide Filed, BelongsToNone;
    AskKeepsOne(s, t);
  }

  lemma KeptMore(kept: seq<Issue>, raw: seq<Issue>, idx: seq<nat>, n: nat)
    requires KeptAt(kept, raw, idx) && n < |raw|
    ensures KeptAt(kept + [raw[n]], raw, idx + [n])
  {
  }

  /** A reader who goes through the fetched list keeps, in order, exactly the issues that belong to no
      project in the table. */
  lemma {:induction false} KeepsUnfiled(s: State, t: nat, raw: seq<Issue>, n: nat) returns (idx: seq<nat>, kept: seq<Issue>)
    requires FilteredTo(s, t, raw, 0, []) && n <= |raw|
    ensures FilteredTo(Run(s, Asks(t, n)), t, raw, n, kept) && Run(s, Asks(t, n)).projects == s.projects
    ensures Unfiled(idx, s.projects, raw, n) && KeptAt(kept, raw, idx)
  {
    hide FilteredTo, Apply, BelongsToNone, Unfiled, KeptAt, Run, Asks;
    idx, kept := [], [];
    if n == 0 {
      NoneUnfiled(s.projects, raw);
      NothingAsked(s, t);
    } else {
      idx, kept := KeepsUnfiled(s, t, raw, n - 1);
      OneMoreAsk(s, t, n);
      FilterStep(Run(s, Asks(t, n - 1)), t, raw, n - 1, kept);
      UnfiledStep(idx, s.projects, raw, n - 1);
      if BelongsToNone(s.projects, raw[n - 1]) {
        KeptMore(kept, raw, idx, n - 1);
        idx, kept := idx + [n - 1], kept + [raw[n - 1]];
      }
    }
  }

  lemma NothingAsked(s: State, t: nat)
    ensures Run(s, Asks(t, 0)) == s
  {
  }

  lemma NoneUnfiled(projects: seq<Project>, raw: seq<Issue>)
    ensures Unfiled([], projects, raw, 0) && KeptAt([], raw, [])
  {
  }

  /* ----- when an invalidation is undone ----- */

  predicate ShowsFiled(projects: seq<Project>, list: seq<Issue>) {
    exists k :: 0 <= k < |list| && Filed(projects, list[k])
  }

  /** Since s, the cache served an issue of a project that s already has. */
  predicate StaleHit(s: State, s1: State) {
    exists k :: |s.hits| <= k < |s1.hits| && !s1.hits[k].wantRaw && ShowsFiled(s.projects, s1.hits[k].list)
  }

  predicate CanRead(s: State, u: nat, now: int) {
    u in s.readers && s.readers[u].Looking? && !s.readers[u].wantRaw && s.readers[u].now < now + TTL
  }

  /** A list whose fetch began at `now` can still be served to somebody. */
  ghost predicate Servable(s: State, now: int) {
    s.clock < now + TTL || exists u :: CanRead(s, u, now)
  }

  ghost predicate InFlight(s: State, projects: seq<Project>, t: nat) {
    && t in s.readers && s.readers[t].Filtering? && ShowsFiled(projects, s.readers[t].kept)
    && Servable(s, s.readers[t].now)
  }

  ghost predicate Harmless(s: State, projects: seq<Project>) {
    && projects <= s.projects
    && (forall t :: !InFlight(s, projects, t))
    && (ShowsFiled(projects, s.cache.issues) ==> !Servable(s, s.cache.expires - TTL))
  }

  lemma ServableOnlyFades(s: State, step: Step, now: int)
    requires !Servable(s, now)
    ensures !Servable(Apply(s, step), now)
  {
    var s1 := Apply(s, step);
    forall u ensures !CanRead(s1, u, now) {
      assert !CanRead(s, u, now);
    }
  }

  lemma KeptStaysClean(s: State, projects: seq<Project>, list: seq<Issue>, i: Issue)
    requires projects <= s.projects && !ShowsFiled(projects, list) && !Filed(s.projects, i)
    ensures !ShowsFiled(projects, list + [i])
  {
    forall k | 0 <= k < |projects| ensures !Matches(projects[k], i) {
      assert projects[k] == s.projects[k];
    }
  }

  lemma StepKeepsHarmless(s: State, step: Step, projects: seq<Project>)
    requires Harmless(s, projects)
    ensures Harmless(Apply(s, step), projects)
    ensures forall k :: |s.hits| <= k < |Apply(s, step).hits| ==>
      Apply(s, step).hits[k].wantRaw || !ShowsFiled(projects, Apply(s, step).hits[k].list)
  {
    hide Filed, Matches, ShowsFiled, Servable;
    var s1 := Apply(s, step);
    if !Servable(s, s.cache.expires - TTL) {
      ServableOnlyFades(s, step, s.cache.expires - TTL);
    }
    assert !ShowsFiled(projects, []) by { NothingShown(projects); }
    forall t ensures !InFlight(s1, projects, t) {
      assert !InFlight(s, projects, t);
      if t in s.readers && s.readers[t].Filtering? {
        if !Servable(s, s.readers[t].now) {
          ServableOnlyFades(s, step, s.readers[t].now);
        } else if step == Ask(t) && s.readers[t].asked < |s.readers[t].raw| {
          var i := s.readers[t].raw[s.readers[t].asked];
          if !Filed(s.projects, i) {
            KeptStaysClean(s, projects, s.readers[t].kept, i);
          }
        }
      }
    }
    match step
    case Store(t) =>
      assert !InFlight(s, projects, t);
      if t in s.readers && s.readers[t].Filtering? && !Servable(s, s.readers[t].now) {
        ServableOnlyFades(s, step, s.readers[t].now);
      }
    case Look(t) =>
      if t in s.readers && s.readers[t].Looking? && !s.readers[t].wantRaw && s.readers[t].now < s.cache.expires {
        ReaderServes(s, t, s.cache.expires - TTL);
      }
    case _ =>
  }

  lemma NothingShown(projects: seq<Project>)
    ensures !ShowsFiled(projects, [])
  {
  }

  lemma ReaderServes(s: State, t: nat, now: int)
    requires CanRead(s, t, now)
    ensures Servable(s, now)
  {
  }

  lemma {:induction false} HarmlessRun(s: State, steps: seq<Step>)
    requires Harmless(s, s.projects)
    ensures Harmless(Run(s, steps), s.projects) && !StaleHit(s, Run(s, steps)) && s.hits <= Run(s, steps).hits
  {
    if steps != [] {
      hide Harmless, Apply, ShowsFiled;
      HarmlessRun(s, steps[..|steps| - 1]);
      var s1, step := Run(s, steps[..|steps| - 1]), steps[|steps| - 1];
      StepKeepsHarmless(s1, step, s.projects);
      HitsOnlyGrow(s1, step);
    }
  }

  lemma HitsOnlyGrow(s: State, step: Step)
    ensures s.hits <= Apply(s, step).hits
  {
  }

  lemma {:induction false} RunAppend(s: State, a: seq<Step>, b: seq<Step>)
    ensures Run(s, a + b) == Run(Run(s, a), b)
  {
    if b == [] {
      assert a + b == a;
    } else {
      RunAppend(s, a, b[..|b| - 1]);
      assert (a + b)[..|a + b| - 1] == a + b[..|b| - 1];
    }
  }

  function Asks(t: nat, n: nat): seq<Step> {
    if n == 0 then [] else Asks(t, n - 1) + [Ask(t)]
  }

  /** Only the reader moved on, and what it had kept it still keeps. */
  ghost predicate MovedOn(s: State, s1: State, t: nat) {
    && t in s.readers && s.readers[t].Filtering? && t in s1.readers && s1.readers[t].Filtering?
    && s1 == s.(readers := s1.readers) && s1.readers == s.readers[t := s1.readers[t]]
    && s1.readers[t].now == s.readers[t].now && s1.readers[t].raw == s.readers[t].raw
    && s.readers[t].kept <= s1.readers[t].kept
  }

  lemma AskOnce(s: State, t: nat)
    requires t in s.readers && s.readers[t].Filtering? && s.readers[t].asked < |s.readers[t].raw|
    ensures var s1 := Apply(s, Ask(t)); MovedOn(s, s1, t) && s1.readers[t].asked == s.readers[t].asked + 1
  {
    hide Filed;
  }

  lemma MovedTwice(s: State, s1: State, s2: State, t: nat)
    requires MovedOn(s, s1, t) && MovedOn(s1, s2, t)
    ensures MovedOn(s, s2, t)
  {
  }

  lemma OneMoreAsk(s: State, t: nat, n: nat)
    requires n > 0
    ensures Run(s, Asks(t, n)) == Apply(Run(s, Asks(t, n - 1)), Ask(t))
  {
    hide Apply;
    assert Asks(t, n)[..|Asks(t, n)| - 1] == Asks(t, n - 1);
  }

  lemma {:induction false} AskingOn(s: State, t: nat, n: nat)
    requires t in s.readers && s.readers[t].Filtering? && s.readers[t].asked + n <= |s.readers[t].raw|
    ensures MovedOn(s, Run(s, Asks(t, n)), t) && Run(s, Asks(t, n)).readers[t].asked == s.readers[t].asked + n
  {
    if n == 0 {
      assert s.readers == s.readers[t := s.readers[t]];
    } else {
      hide MovedOn, Apply, Run, Asks;
      AskingOn(s, t, n - 1);
      OneMoreAsk(s, t, n);
      var s1 := Run(s, Asks(t, n - 1));
      MovedIsThere(s, s1, t);
      AskOnce(s1, t);
      MovedTwice(s, s1, Apply(s1, Ask(t)), t);
    }
  }

  lemma MovedIsThere(s: State, s1: State, t: nat)
    requires MovedOn(s, s1, t)
    ensures t in s1.readers && s1.readers[t].Filtering? && s1.readers[t].raw == s.readers[t].raw
    ensures s1.hits == s.hits && s1.projects == s.projects
  {
  }

  lemma AsksOrNot(s: State, t: nat) returns (steps: seq<Step>)
    requires t in s.readers && s.readers[t].Filtering?
    ensures MovedOn(s, Run(s, steps), t) && Run(s, steps).readers[t].asked >= |s.readers[t].raw|
  {
    var at := s.readers[t];
    if at.asked <= |at.raw| {
      AskingOn(s, t, |at.raw| - at.asked);
      steps := Asks(t, |at.raw| - at.asked);
    } else {
      steps := [];
      assert s.readers == s.readers[t := s.readers[t]];
    }
  }

  lemma RunThree(s: State, a: Step, b: Step, c: Step)
    ensures Run(s, [a, b, c]) == Apply(Apply(Apply(s, a), b), c)
    ensures Run(s, [a, b]) == Apply(Apply(s, a), b)
  {
    hide Apply;
    assert [a, b, c][..2] == [a, b] && [a, b][..1] == [a] && [a][..0] == [];
    assert Run(s, [a]) == Apply(s, a);
  }

  /** A finished reader stores its list, and a reader who is waiting or starts now is served it. */
  lemma FinishedIsServed(s: State, t: nat) returns (steps: seq<Step>)
    requires t in s.readers && s.readers[t].Filtering? && s.readers[t].asked >= |s.readers[t].raw|
    requires Servable(s, s.readers[t].now) && s.readers[t].kept != []
    ensures var s1 := Run(s, steps);
            |s1.hits| == |s.hits| + 1 && s.hits <= s1.hits && !s1.hits[|s.hits|].wantRaw
              && s1.hits[|s.hits|].list == s.readers[t].kept
  {
    var at := s.readers[t];
    if s.clock < at.now + TTL {
      steps := [Store(t), Start(t, false), Look(t)];
      RunThree(s, Store(t), Start(t, false), Look(t));
    } else {
      var u :| CanRead(s, u, at.now);
      steps := [Store(t), Look(u)];
      RunThree(s, Store(t), Look(u), Tick);
    }
  }

  lemma InFlightIsServed(s: State, t: nat)
    requires InFlight(s, s.projects, t)
    ensures exists steps :: StaleHit(s, Run(s, steps))
  {
    hide Filed, Run, Apply;
    var at := s.readers[t];
    var asks := AsksOrNot(s, t);
    var s1 := Run(s, asks);
    var kept := s1.readers[t].kept;
    var k :| 0 <= k < |at.kept| && Filed(s.projects, at.kept[k]);
    assert kept[k] == at.kept[k] && ShowsFiled(s.projects, kept);
    StillServable(s, s1, t);
    var tail := FinishedIsServed(s1, t);
    RunAppend(s, asks, tail);
    var s2 := Run(s, asks + tail);
    assert s2.hits[|s.hits|].list == kept;
    assert StaleHit(s, s2);
  }

  lemma StillServable(s: State, s1: State, t: nat)
    requires MovedOn(s, s1, t) && Servable(s, s.readers[t].now)
    ensures Servable(s1, s.readers[t].now)
  {
    var now := s.readers[t].now;
    if s.clock >= now + TTL {
      var u :| CanRead(s, u, now);
      assert CanRead(s1, u, now);
    }
  }

  /** Right after an invalidation, the cache can later serve an issue of a project already in the
      table exactly when some refresh in flight has already kept such an issue, and somebody can
      still be served by it. */
  lemma InvalidationIsUndoneExactlyWhen(s: State)
    requires s.cache == EMPTY
    ensures (exists steps :: StaleHit(s, Run(s, steps))) <==> exists t :: InFlight(s, s.projects, t)
  {
    hide Run, InFlight;
    if t :| InFlight(s, s.projects, t) {
      InFlightIsServed(s, t);
    } else {
      NothingShown(s.projects);
      assert Harmless(s, s.projects);
      forall steps ensures !StaleHit(s, Run(s, steps)) {
        HarmlessRun(s, steps);
      }
    }
  }

  /** It does happen: a refresh keeps an issue, the project is created and the cache invalidated, and
      the refresh is still to be stored. */
  lemma InvalidationCanBeUndone(p: Project, i: Issue)
    requires Matches(p, i)
    ensures var s := Run(Boot([]), [Start(0, false), Look(0), Receive(0, [i]), Ask(0), AddProject(p), Invalidation]);
            s.cache == EMPTY && InFlight(s, s.projects, 0) && exists steps :: StaleHit(s, Run(s, steps))
  {
    hide Matches, Run;
    var s0 := Boot([]);
    RunThree(s0, Start(0, false), Look(0), Receive(0, [i]));
    var s3 := Run(s0, [Start(0, false), Look(0), Receive(0, [i])]);
    assert s3.readers[0] == Filtering(0, 0, [i], 0, []);
    RunThree(s3, Ask(0), AddProject(p), Invalidation);
    RunAppend(s0, [Start(0, false), Look(0), Receive(0, [i])], [Ask(0), AddProject(p), Invalidation]);
    var s := Run(s3, [Ask(0), AddProject(p), Invalidation]);
    assert s.readers[0] == Filtering(0, 0, [i], 1, [i]) && s.projects == [p];
    assert [Start(0, false), Look(0), Receive(0, [i])] + [Ask(0), AddProject(p), Invalidation]
        == [Start(0, false), Look(0), Receive(0, [i]), Ask(0), AddProject(p), Invalidation];
    assert Matches(s.projects[0], i);
    assert Filed(s.projects, i) && s.readers[0].kept[0] == i;
    InFlightIsServed(s, 0);
  }
}
