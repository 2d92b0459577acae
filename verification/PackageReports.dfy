/**
 What the package watcher holds and publishes, told by the events of a run: which directories an event names, what the
 disk answered about them, and what each discovery reported.
 */
module PackageReports {
  import opened Basics
  import opened PackageWatcher
  import opened PackageSafety
  import Debouncing

  // Directories named by a file event

  /** The path is the package.json of the directory, or the directory itself unless that looks like a package.json. */
  predicate Names(path: Path, d: Path) {
    path == d + ["package.json"] || (path == d && (d == [] || d[|d| - 1] != "package.json"))
  }

  ghost predicate IsLastNaming(paths: seq<Path>, d: Path, n: nat, i: nat)
    requires n <= |paths|
  {
    i < n && Names(paths[i], d) && forall j :: i < j < n ==> !Names(paths[j], d)
  }

  ghost predicate NoneNames(paths: seq<Path>, d: Path, n: nat)
    requires n <= |paths|
  {
    forall j :: 0 <= j < n ==> !Names(paths[j], d)
  }

  lemma WorkspaceIff(filter: Path -> bool, path: Path, d: Path)
    ensures WorkspaceOf(filter, path) == Some(d) <==> filter(d) && Names(path, d)
  {
    if path != [] { assert path == path[..|path| - 1] + [path[|path| - 1]]; }
    assert (d + ["package.json"])[..|d|] == d;
  }

  /** What the disk's answer makes of the directory. */
  ghost predicate EntryIs(ws: Workspaces, d: Path, probe: Probe) {
    && (d in ws <==> probe.packageJson)
    && (d in ws ==>
          ws[d] == WorkspaceData(d + ["package.json"], if probe.nrzJson then Some(d + ["nrz.json"]) else None))
  }

  ghost predicate SameEntry(before: Workspaces, after: Workspaces, d: Path) {
    (d in after <==> d in before) && (d in before ==> after[d] == before[d])
  }

  /** The last of the first `n` paths that names a workspace directory decides about it; others keep their entry. */
  ghost predicate PatchIs(filter: Path -> bool, before: Workspaces, after: Workspaces, paths: seq<Path>,
      probes: seq<Probe>, n: nat, d: Path)
    requires n <= |paths| == |probes|
  {
    && (forall i: nat :: filter(d) && IsLastNaming(paths, d, n, i) ==> EntryIs(after, d, probes[i]))
    && (!filter(d) || NoneNames(paths, d, n) ==> SameEntry(before, after, d))
  }

  lemma {:induction false} PatchAllIs(filter: Path -> bool, ws: Workspaces, paths: seq<Path>, probes: seq<Probe>,
      n: nat, d: Path)
    requires n <= |paths| == |probes|
    ensures PatchIs(filter, ws, PatchAll(filter, ws, paths, probes, n).workspaces, paths, probes, n, d)
  {
    if n > 0 {
      PatchAllIs(filter, ws, paths, probes, n - 1, d);
      WorkspaceIff(filter, paths[n - 1], d);
      forall i: nat | filter(d) && IsLastNaming(paths, d, n, i)
        ensures EntryIs(PatchAll(filter, ws, paths, probes, n).workspaces, d, probes[i])
      {
        if i < n - 1 { assert IsLastNaming(paths, d, n - 1, i); }
      }
    }
  }

  /** Whether the directory counts as a workspace before path `i`: as the disk last said, or as it was held. */
  ghost predicate HeldAt(ws: Workspaces, paths: seq<Path>, probes: seq<Probe>, i: nat, d: Path)
    requires i <= |paths| == |probes|
  {
    if NoneNames(paths, d, i) then d in ws else exists j: nat :: IsLastNaming(paths, d, i, j) && probes[j].packageJson
  }

  /** Path `i` makes a workspace come or go. */
  ghost predicate Flips(filter: Path -> bool, ws: Workspaces, paths: seq<Path>, probes: seq<Probe>, i: nat)
    requires i < |paths| == |probes|
  {
    exists d :: filter(d) && Names(paths[i], d) && (HeldAt(ws, paths, probes, i, d) <==> !probes[i].packageJson)
  }

  lemma {:induction false} LastNamingExists(paths: seq<Path>, d: Path, n: nat) returns (i: nat)
    requires n <= |paths| && !NoneNames(paths, d, n)
    ensures IsLastNaming(paths, d, n, i)
  {
    if Names(paths[n - 1], d) {
      i := n - 1;
    } else {
      i := LastNamingExists(paths, d, n - 1);
    }
  }

  lemma HeldAtIs(filter: Path -> bool, ws: Workspaces, paths: seq<Path>, probes: seq<Probe>, n: nat, d: Path)
    requires n <= |paths| == |probes| && filter(d)
    ensures d in PatchAll(filter, ws, paths, probes, n).workspaces <==> HeldAt(ws, paths, probes, n, d)
  {
    PatchAllIs(filter, ws, paths, probes, n, d);
    if !NoneNames(paths, d, n) {
      var i := LastNamingExists(paths, d, n);
      assert IsLastNaming(paths, d, n, i);
      if HeldAt(ws, paths, probes, n, d) {
        var j: nat :| IsLastNaming(paths, d, n, j) && probes[j].packageJson;
        assert i == j;
      }
    }
  }

  lemma FlipsIff(filter: Path -> bool, ws: Workspaces, paths: seq<Path>, probes: seq<Probe>, i: nat)
    requires i < |paths| == |probes|
    ensures Flips(filter, ws, paths, probes, i) <==>
      var w := WorkspaceOf(filter, paths[i]);
      w.Some? && (w.value in PatchAll(filter, ws, paths, probes, i).workspaces) != probes[i].packageJson
  {
    forall d ensures WorkspaceOf(filter, paths[i]) == Some(d) <==> filter(d) && Names(paths[i], d) {
      WorkspaceIff(filter, paths[i], d);
    }
    var w := WorkspaceOf(filter, paths[i]);
    if w.Some? { HeldAtIs(filter, ws, paths, probes, i, w.value); }
  }

  /** An event counts as a change exactly if one of its paths makes a workspace come or go. */
  lemma {:induction false} ChangedIff(filter: Path -> bool, ws: Workspaces, paths: seq<Path>, probes: seq<Probe>,
      n: nat)
    requires n <= |paths| == |probes|
    ensures PatchAll(filter, ws, paths, probes, n).changed
       <==> exists i: nat :: i < n && Flips(filter, ws, paths, probes, i)
  {
    if n > 0 {
      ChangedIff(filter, ws, paths, probes, n - 1);
      FlipsIff(filter, ws, paths, probes, n - 1);
      if PatchAll(filter, ws, paths, probes, n).changed && !PatchAll(filter, ws, paths, probes, n - 1).changed {
        assert Flips(filter, ws, paths, probes, n - 1);
      }
    }
  }

  // The events of a run

  /** A new discovery is pending, to begin after `timeout`, and nothing is published. */
  ghost predicate Starts(s: Sub, s': Sub, timeout: nat) {
    && s'.state.Pending? && s'.published.None?
    && var v := s'.state.version;
       && v !in s.tasks && s'.tasks == s.tasks[v := Task(Debouncing.New(timeout), Debouncing)]
  }

  /** The pending discovery is put off if it has not begun; otherwise a new one waits for a quiet period. */
  ghost predicate Rediscovers(s: Sub, s': Sub, now: nat) {
    if s.state.Pending? && s.state.version in s.tasks && !s.tasks[s.state.version].debouncer.pc.Returned? then
      var v := s.state.version;
      && s'.state == s.state && s'.published.None?
      && s'.tasks == s.tasks[v := s.tasks[v].(debouncer := Debouncing.Bump(s.tasks[v].debouncer, now))]
    else Starts(s, s', Debouncing.DEFAULT_TIMEOUT)
  }

  lemma BumpOrQueueIs(s: Sub, h: History, now: nat)
    requires TasksOk(s, h) && StateOk(s, h)
    ensures Rediscovers(s, BumpOrQueue(s, now), now)
  {
    assert s.nextVersion !in s.tasks;
    if s.state.Pending? { assert TaskOk(s.tasks[s.state.version], h.clock); }
  }

  ghost predicate MustRediscover(roots: set<Path>, s: Sub, e: Event) {
    e.EventsLost? || (e.FileEvent? && (s.state.Pending? || exists i :: 0 <= i < |e.paths| && e.paths[i] in roots))
  }

  /**
   In every run, lost events, a change of a file that decides about the package manager, and any file event while a
   discovery is pending lead to a discovery that has not begun yet.
   */
  lemma EventRediscovers(roots: set<Path>, events: seq<(Event, nat)>, e: Event, now: nat)
    requires Run(roots, events).Some? && Enabled(Run(roots, events).value, e, now)
    requires MustRediscover(roots, Run(roots, events).value.sub, e)
    ensures var s := Run(roots, events).value; Rediscovers(s.sub, Next(roots, s, e, now).sub, now)
  {
    RunKeeps(roots, events);
    var s := Run(roots, events).value;
    BumpOrQueueIs(s.sub, s.history, now);
  }

  /** Without valid workspaces, other file events change nothing. */
  lemma EventIsIgnored(roots: set<Path>, s: System, e: Event, now: nat)
    requires Enabled(s, e, now) && e.FileEvent? && !MustRediscover(roots, s.sub, e)
    requires !s.sub.state.packages.ValidWorkspaces?
    ensures Next(roots, s, e, now).sub == s.sub
  {
  }

  /**
   In every run, a file event with no path that decides about the package manager leaves, of every workspace
   directory it names, what the disk said at the last such path, and everything else as it was. It publishes the
   result exactly if one of its paths made a workspace come or go.
   */
  lemma EventPatches(roots: set<Path>, events: seq<(Event, nat)>, e: Event, now: nat, d: Path)
    requires Run(roots, events).Some? && Enabled(Run(roots, events).value, e, now) && e.FileEvent?
    requires var s := Run(roots, events).value.sub;
      !MustRediscover(roots, s, e) && s.state.packages.ValidWorkspaces?
    ensures
      var s, s' := Run(roots, events).value.sub, Next(roots, Run(roots, events).value, e, now).sub;
      && s'.state.Ready? && s'.state.packages.ValidWorkspaces? && s'.tasks == s.tasks
      && var p, p' := s.state.packages, s'.state.packages;
         && p'.manager == p.manager && p'.filter == p.filter
         && PatchIs(p.filter, p.workspaces, p'.workspaces, e.paths, e.probes, |e.paths|, d)
         && s'.published
            == if exists i: nat :: i < |e.paths| && Flips(p.filter, p.workspaces, e.paths, e.probes, i)
               then Some(Ok(Response(p.manager, p'.workspaces.Values))) else s.published
  {
    var s := Run(roots, events).value.sub;
    var p, n := s.state.packages, |e.paths|;
    PatchAllIs(p.filter, p.workspaces, e.paths, e.probes, n, d);
    ChangedIff(p.filter, p.workspaces, e.paths, e.probes, n);
  }

  // Discoveries

  /** When discovery `v` began to look at the disk. */
  function BeganAt(events: seq<(Event, nat)>, v: nat): Option<nat> {
    if events == [] then None else
    var (e, now) := events[|events| - 1];
    if e == Begin(v) then Some(now) else BeganAt(events[..|events| - 1], v)
  }

  predicate IsReport(e: Event, v: nat) {
    (e.Find? || e.Fail?) && e.version == v
  }

  /** What discovery `v` reported. */
  function ReportOf(events: seq<(Event, nat)>, v: nat): (r: Option<Event>)
    ensures r.Some? ==> IsReport(r.value, v)
  {
    if events == [] then None else
    var e := events[|events| - 1].0;
    if IsReport(e, v) then Some(e) else ReportOf(events[..|events| - 1], v)
  }

  /** The last report about the directory's package.json. */
  ghost predicate IsLastFound(found: seq<WorkspaceData>, d: Path, i: nat) {
    && i < |found| && found[i].packageJson == d + ["package.json"]
    && forall j :: i < j < |found| ==> found[j].packageJson != d + ["package.json"]
  }

  ghost predicate NotFound(found: seq<WorkspaceData>, d: Path) {
    forall j :: 0 <= j < |found| ==> found[j].packageJson != d + ["package.json"]
  }

  ghost predicate FoundIs(ws: Workspaces, found: seq<WorkspaceData>, d: Path) {
    && (d in ws <==> !NotFound(found, d))
    && forall i: nat :: IsLastFound(found, d, i) ==> d in ws && ws[d] == found[i]
  }

  lemma {:induction false} CollectIs(found: seq<WorkspaceData>, d: Path)
    requires forall i :: 0 <= i < |found| ==> IsPackageJson(found[i])
    ensures FoundIs(Collect(found), found, d)
  {
    if found != [] {
      var front, last := found[..|found| - 1], found[|found| - 1];
      CollectIs(front, d);
      var dir := last.packageJson[..|last.packageJson| - 1];
      assert IsPackageJson(last) && last.packageJson == dir + ["package.json"];
      assert (d + ["package.json"])[..|d|] == d;
      forall i: nat | IsLastFound(found, d, i) ensures d in Collect(found) && Collect(found)[d] == found[i] {
        if i < |front| { assert IsLastFound(front, d, i); }
      }
      assert forall j :: 0 <= j < |front| ==> found[j] == front[j];
    }
  }

  ghost predicate ReportIs(p: PackageState, e: Event) {
    match e
    case Fail(_, globs, error) => p == if globs then InvalidGlobs(error) else NoPackageManager(error)
    case Find(_, manager, filter, found) =>
      p.ValidWorkspaces? && p.manager == manager && p.filter == filter && forall d :: FoundIs(p.workspaces, found, d)
    case _ => false
  }

  ghost predicate TaskIs(events: seq<(Event, nat)>, v: nat, t: Task) {
    && BeganAt(events, v) == Began(t)
    && if t.phase.Sending? || t.phase.Sent?
       then ReportOf(events, v).Some? && ReportIs(t.phase.found, ReportOf(events, v).value)
       else ReportOf(events, v).None?
  }

  ghost predicate Recorded(events: seq<(Event, nat)>, s: Sub) {
    && (forall v :: v in s.tasks ==> TaskIs(events, v, s.tasks[v]))
    && (forall v :: v !in s.tasks ==> BeganAt(events, v).None? && ReportOf(events, v).None?)
  }

  predicate IsOwnStep(e: Event) {
    e.Debounce? || e.Begin? || e.Fail? || e.Find? || e.Send?
  }

  lemma RecordsAreKept(events: seq<(Event, nat)>, e: Event, now: nat, v: nat)
    requires !(IsOwnStep(e) && e.version == v)
    ensures BeganAt(events + [(e, now)], v) == BeganAt(events, v)
    ensures ReportOf(events + [(e, now)], v) == ReportOf(events, v)
  {
    var all := events + [(e, now)];
    assert all[..|all| - 1] == events;
  }

  lemma OwnStepRecords(events: seq<(Event, nat)>, s: System, e: Event, now: nat)
    requires Enabled(s, e, now) && IsOwnStep(e) && TaskIs(events, e.version, s.sub.tasks[e.version])
    ensures TaskIs(events + [(e, now)], e.version, Advance(s, e, now))
  {
    var all := events + [(e, now)];
    assert all[..|all| - 1] == events;
    if e.Find? {
      forall d ensures FoundIs(Collect(e.found), e.found, d) { CollectIs(e.found, d); }
    }
  }

  /** Handlers leave the discoveries as they are, but for debouncers, and may add one. */
  ghost predicate Grown(s: Sub, s': Sub) {
    && (forall v :: v in s.tasks ==> v in s'.tasks && s'.tasks[v].phase == s.tasks[v].phase)
    && (forall v :: v in s'.tasks && v !in s.tasks ==> s'.tasks[v].phase.Debouncing?)
  }

  lemma HandlersGrow(roots: set<Path>, s: System, e: Event, now: nat)
    requires Inv(s) && Enabled(s, e, now) && !IsOwnStep(e)
    ensures Grown(s.sub, Next(roots, s, e, now).sub)
  {
    if MustRediscover(roots, s.sub, e) { BumpOrQueueIs(s.sub, s.history, now); }
  }

  lemma StepRecords(roots: set<Path>, s: System, events: seq<(Event, nat)>, e: Event, now: nat)
    requires Inv(s) && Enabled(s, e, now) && Recorded(events, s.sub)
    ensures Recorded(events + [(e, now)], Next(roots, s, e, now).sub)
  {
    var s', all := Next(roots, s, e, now), events + [(e, now)];
    forall v | !(IsOwnStep(e) && e.version == v)
      ensures BeganAt(all, v) == BeganAt(events, v) && ReportOf(all, v) == ReportOf(events, v)
    {
      RecordsAreKept(events, e, now, v);
    }
    if IsOwnStep(e) {
      OwnStepRecords(events, s, e, now);
      OneRecorded(events, all, s.sub, s'.sub, e.version);
    } else {
      HandlersGrow(roots, s, e, now);
      SameRecorded(events, all, s.sub, s'.sub);
    }
  }

  lemma OneRecorded(events: seq<(Event, nat)>, all: seq<(Event, nat)>, s: Sub, s': Sub, v: nat)
    requires Recorded(events, s) && v in s.tasks && v in s'.tasks
    requires s'.tasks == s.tasks[v := s'.tasks[v]] && TaskIs(all, v, s'.tasks[v])
    requires forall u :: u != v ==> BeganAt(all, u) == BeganAt(events, u) && ReportOf(all, u) == ReportOf(events, u)
    ensures Recorded(all, s')
  {
    forall u | u in s'.tasks && u != v ensures TaskIs(all, u, s'.tasks[u]) { assert TaskIs(events, u, s.tasks[u]); }
  }

  lemma SameRecorded(events: seq<(Event, nat)>, all: seq<(Event, nat)>, s: Sub, s': Sub)
    requires Recorded(events, s) && Grown(s, s')
    requires forall u :: BeganAt(all, u) == BeganAt(events, u) && ReportOf(all, u) == ReportOf(events, u)
    ensures Recorded(all, s')
  {
    forall u | u in s'.tasks ensures TaskIs(all, u, s'.tasks[u]) {
      if u in s.tasks { assert TaskIs(events, u, s.tasks[u]); }
    }
  }

  lemma LastEvent(roots: set<Path>, events: seq<(Event, nat)>)
    returns (front: seq<(Event, nat)>, s: System, e: Event, now: nat)
    requires Run(roots, events).Some? && events != []
    ensures front == events[..|events| - 1] && events == front + [(e, now)] && Run(roots, front) == Some(s) && Inv(s)
    ensures Enabled(s, e, now) && Run(roots, events) == Some(Next(roots, s, e, now))
  {
    front := events[..|events| - 1];
    e, now := events[|events| - 1].0, events[|events| - 1].1;
    RunKeeps(roots, front);
    s := Run(roots, front).value;
  }

  lemma {:induction false} RunRecords(roots: set<Path>, events: seq<(Event, nat)>)
    requires Run(roots, events).Some?
    ensures Recorded(events, Run(roots, events).value.sub)
    decreases |events|
  {
    if events != [] {
      var front, s, e, now := LastEvent(roots, events);
      RunRecords(roots, front);
      StepRecords(roots, s, front, e, now);
    }
  }

  /** The result that is received next is the one that is waited for. */
  ghost predicate Accepts(s: System, e: Event) {
    e.Deliver? && s.channel != [] && s.sub.state == Pending(s.channel[0].version)
  }

  ghost predicate PublishedIs(published: Published, p: PackageState) {
    match p
    case NoPackageManager(error) => published == Some(Err(error))
    case InvalidGlobs(error) => published == Some(Err(error))
    case ValidWorkspaces(manager, _, workspaces) => published == Some(Ok(Response(manager, workspaces.Values)))
  }

  /**
   In every run, receiving the result of the pending discovery makes what that discovery reported the held state and
   publishes it; any other result is ignored.
   */
  lemma DeliveryAccepts(roots: set<Path>, events: seq<(Event, nat)>, now: nat)
    requires Run(roots, events).Some? && Enabled(Run(roots, events).value, Deliver, now)
    ensures
      var s := Run(roots, events).value;
      var s', v := Next(roots, s, Deliver, now), s.channel[0].version;
      if Accepts(s, Deliver) then
        && ReportOf(events, v).Some? && s'.sub.state.Ready?
        && ReportIs(s'.sub.state.packages, ReportOf(events, v).value)
        && PublishedIs(s'.sub.published, s'.sub.state.packages) && s'.sub.tasks == s.sub.tasks
      else s'.sub == s.sub
  {
    RunKeeps(roots, events);
    RunRecords(roots, events);
    var s := Run(roots, events).value;
    var r := s.channel[0];
    assert ResultOk(s.sub, r);
    assert TaskIs(events, r.version, s.sub.tasks[r.version]);
  }

  // The held state, from the events of the whole run

  /** The discovery whose result was accepted last. */
  ghost function Accepted(roots: set<Path>, events: seq<(Event, nat)>): Option<nat>
    requires Run(roots, events).Some?
  {
    if events == [] then None else
    var front, e := events[..|events| - 1], events[|events| - 1].0;
    var s := Run(roots, front).value;
    if Accepts(s, e) then Some(s.channel[0].version) else Accepted(roots, front)
  }

  /** The event patches the held workspaces and names the directory. */
  ghost predicate Concerns(roots: set<Path>, s: System, e: Event, d: Path) {
    && e.FileEvent? && !MustRediscover(roots, s.sub, e) && s.sub.state.Ready? && s.sub.state.packages.ValidWorkspaces?
    && s.sub.state.packages.filter(d) && !NoneNames(e.paths, d, |e.paths|)
  }

  /** What the disk said about the directory last, since a discovery was accepted. */
  ghost predicate LastAnswer(roots: set<Path>, events: seq<(Event, nat)>, d: Path, answer: Option<Probe>)
    requires Run(roots, events).Some?
  {
    if events == [] then answer.None? else
    var front, e := events[..|events| - 1], events[|events| - 1].0;
    var s := Run(roots, front).value;
    if Accepts(s, e) then answer.None?
    else if Concerns(roots, s, e, d) then
      exists i: nat :: IsLastNaming(e.paths, d, |e.paths|, i) && i < |e.probes| && answer == Some(e.probes[i])
    else LastAnswer(roots, front, d, answer)
  }

  ghost predicate HeldIs(p: PackageState, report: Event, d: Path, answer: Option<Probe>) {
    match report
    case Find(_, manager, filter, found) =>
      && p.ValidWorkspaces? && p.manager == manager && p.filter == filter
      && if answer.Some? then EntryIs(p.workspaces, d, answer.value) else FoundIs(p.workspaces, found, d)
    case _ => ReportIs(p, report)
  }

  ghost predicate HeldOk(roots: set<Path>, events: seq<(Event, nat)>, s: Sub, d: Path, answer: Option<Probe>)
    requires Run(roots, events).Some?
  {
    s.state.Ready? ==>
      && Accepted(roots, events).Some? && ReportOf(events, Accepted(roots, events).value).Some?
      && HeldIs(s.state.packages, ReportOf(events, Accepted(roots, events).value).value, d, answer)
  }

  lemma ReportStays(roots: set<Path>, events: seq<(Event, nat)>, s: System, e: Event, now: nat, v: nat)
    requires Run(roots, events) == Some(s) && Enabled(s, e, now) && ReportOf(events, v).Some?
    ensures ReportOf(events + [(e, now)], v) == ReportOf(events, v)
  {
    RunRecords(roots, events);
    var all := events + [(e, now)];
    assert all[..|all| - 1] == events;
    if v in s.sub.tasks { assert TaskIs(events, v, s.sub.tasks[v]); }
  }

  lemma PatchHolds(p: PackageState, p': PackageState, report: Event, e: Event, d: Path, before: Option<Probe>,
      answer: Option<Probe>)
    requires HeldIs(p, report, d, before) && p.ValidWorkspaces? && e.FileEvent? && |e.paths| == |e.probes|
    requires p'.ValidWorkspaces? && p' == p.(workspaces := p'.workspaces)
    requires PatchIs(p.filter, p.workspaces, p'.workspaces, e.paths, e.probes, |e.paths|, d)
    requires if p.filter(d) && !NoneNames(e.paths, d, |e.paths|)
      then exists i: nat :: IsLastNaming(e.paths, d, |e.paths|, i) && answer == Some(e.probes[i]) else answer == before
    ensures HeldIs(p', report, d, answer)
  {
    if p.filter(d) && !NoneNames(e.paths, d, |e.paths|) {
      var i: nat :| IsLastNaming(e.paths, d, |e.paths|, i) && answer == Some(e.probes[i]);
    } else if before.Some? {
      assert SameEntry(p.workspaces, p'.workspaces, d);
    } else {
      SameFound(p.workspaces, p'.workspaces, report.found, d);
    }
  }

  lemma SameFound(ws: Workspaces, ws': Workspaces, found: seq<WorkspaceData>, d: Path)
    requires FoundIs(ws, found, d) && SameEntry(ws, ws', d)
    ensures FoundIs(ws', found, d)
  {
  }

  /** The step of a run that ends in a held state keeps that state, patches it, or accepts a discovery. */
  lemma ReadyStep(roots: set<Path>, events: seq<(Event, nat)>, s: System, e: Event, now: nat)
    requires Run(roots, events) == Some(s) && Enabled(s, e, now) && Next(roots, s, e, now).sub.state.Ready?
    ensures !MustRediscover(roots, s.sub, e)
    ensures
      || Accepts(s, e)
      || (s.sub.state.Ready? && e.FileEvent? && s.sub.state.packages.ValidWorkspaces?)
      || Next(roots, s, e, now).sub.state == s.sub.state
  {
    if MustRediscover(roots, s.sub, e) { EventRediscovers(roots, events, e, now); }
    if e.Deliver? { DeliveryAccepts(roots, events, now); }
  }

  lemma StepHolds(roots: set<Path>, front: seq<(Event, nat)>, events: seq<(Event, nat)>, s: System, e: Event, now: nat,
      d: Path, before: Option<Probe>, answer: Option<Probe>)
    requires events == front + [(e, now)] && front == events[..|events| - 1] && Run(roots, front) == Some(s)
    requires Enabled(s, e, now) && Run(roots, events) == Some(Next(roots, s, e, now))
    requires LastAnswer(roots, events, d, answer)
    requires if Accepts(s, e) then true else if Concerns(roots, s, e, d) then true else answer == before
    requires HeldOk(roots, front, s.sub, d, before)
    ensures HeldOk(roots, events, Next(roots, s, e, now).sub, d, answer)
  {
    var s' := Next(roots, s, e, now).sub;
    if s'.state.Ready? {
      ReadyStep(roots, front, s, e, now);
      if Accepts(s, e) {
        DeliveryAccepts(roots, front, now);
        ReportStays(roots, front, s, e, now, s.channel[0].version);
      } else {
        ReportStays(roots, front, s, e, now, Accepted(roots, front).value);
        if e.FileEvent? && s.sub.state.packages.ValidWorkspaces? {
          EventPatches(roots, front, e, now, d);
          PatchHolds(s.sub.state.packages, s'.state.packages, ReportOf(front, Accepted(roots, front).value).value, e, d,
              before, answer);
        }
      }
    }
  }

  lemma {:induction false} AnswerExists(roots: set<Path>, events: seq<(Event, nat)>, d: Path)
    returns (answer: Option<Probe>)
    requires Run(roots, events).Some?
    ensures LastAnswer(roots, events, d, answer)
  {
    answer := None;
    if events != [] {
      var front, s, e, now := LastEvent(roots, events);
      if Accepts(s, e) {
      } else if Concerns(roots, s, e, d) {
        var i := LastNamingExists(e.paths, d, |e.paths|);
        answer := Some(e.probes[i]);
      } else {
        answer := AnswerExists(roots, front, d);
      }
    }
  }

  /**
   In every run, the held state is what the accepted discovery reported, patched: a directory that the disk was asked
   about since is a workspace exactly if the disk's last answer says so, with the files that it names; any other one
   is held as it was reported.
   */
  lemma {:induction false} HeldIsReported(roots: set<Path>, events: seq<(Event, nat)>, d: Path, answer: Option<Probe>)
    requires Run(roots, events).Some? && LastAnswer(roots, events, d, answer)
    ensures HeldOk(roots, events, Run(roots, events).value.sub, d, answer)
    decreases |events|
  {
    if events != [] {
      var front, s, e, now := LastEvent(roots, events);
      var before := answer;
      if Accepts(s, e) || Concerns(roots, s, e, d) { before := AnswerExists(roots, front, d); }
      HeldIsReported(roots, front, d, before);
      StepHolds(roots, front, events, s, e, now, d, before, answer);
    }
  }

  // The accepted discovery is recent enough

  /** Event `i` called for a discovery. */
  ghost predicate Demands(roots: set<Path>, events: seq<(Event, nat)>, i: nat)
    requires i < |events|
  {
    Run(roots, events[..i]).Some? && MustRediscover(roots, Run(roots, events[..i]).value.sub, events[i].0)
  }

  lemma {:induction false} HandledIsLast(roots: set<Path>, events: seq<(Event, nat)>, i: nat)
    requires Run(roots, events).Some? && i < |events| && (events[i].0.FileEvent? || events[i].0.EventsLost?)
    ensures events[i].1 <= Run(roots, events).value.history.handled
    decreases |events|
  {
    var front, s, e, now := LastEvent(roots, events);
    if i < |front| {
      HandledIsLast(roots, front, i);
      assert s.history.handled <= s.history.clock;
    }
  }

  /** The held state's discovery began after every event that called for one. */
  lemma {:induction false} DiscoveryIsRecent(roots: set<Path>, events: seq<(Event, nat)>, i: nat)
    requires Run(roots, events).Some? && i < |events| && Demands(roots, events, i)
    requires Run(roots, events).value.sub.state.Ready?
    ensures Accepted(roots, events).Some?
    ensures var began := BeganAt(events, Accepted(roots, events).value); began.Some? && events[i].1 < began.value
    decreases |events|
  {
    var front, s, e, now := LastEvent(roots, events);
    ReadyStep(roots, front, s, e, now);
    RunRecords(roots, front);
    if i < |front| { assert front[..i] == events[..i]; }
    if Accepts(s, e) {
      var v := s.channel[0].version;
      assert ResultOk(s.sub, s.channel[0]) && TaskIs(front, v, s.sub.tasks[v]);
      RecordsAreKept(front, e, now, v);
      HandledIsLast(roots, front, i);
    } else {
      assert s.sub.state.Ready? && i < |front|;
      DiscoveryIsRecent(roots, front, i);
      BeganStays(roots, front, s, e, now, Accepted(roots, front).value);
    }
  }

  lemma BeganStays(roots: set<Path>, events: seq<(Event, nat)>, s: System, e: Event, now: nat, v: nat)
    requires Run(roots, events) == Some(s) && Enabled(s, e, now) && BeganAt(events, v).Some?
    ensures BeganAt(events + [(e, now)], v) == BeganAt(events, v)
  {
    RunRecords(roots, events);
    var all := events + [(e, now)];
    assert all[..|all| - 1] == events;
    if v in s.sub.tasks { assert TaskIs(events, v, s.sub.tasks[v]); }
  }
}
