/**
 What every step of the package watcher keeps, and what follows for every run: nothing is published
 while a rediscovery is pending, what is published names the held workspaces, and these are what an
 accepted discovery found, patched with the disk's latest answers.
 */
module PackageSafety {
  import opened Basics
  import opened PackageWatcher
  import Debouncing

  // The invariant

  function Began(t: Task): Option<nat> {
    match t.phase
    case Debouncing => None
    case Discovering(began) => Some(began)
    case Sending(began, _) => Some(began)
    case Sent(began, _) => Some(began)
  }

  /** A workspace is filed under the directory of its package.json. */
  ghost predicate Filed(ws: Workspaces) {
    forall w :: w in ws ==> ws[w].packageJson == w + [PACKAGE_JSON]
  }

  ghost predicate FiledState(p: PackageState) {
    p.ValidWorkspaces? ==> Filed(p.workspaces)
  }

  ghost predicate TaskOk(t: Task, clock: nat) {
    && Debouncing.Valid(t.debouncer, clock)
    && (!t.phase.Debouncing? ==> t.debouncer.pc.Returned?)
    && (Began(t).Some? ==> Began(t).value <= clock)
    && (t.phase.Sending? || t.phase.Sent? ==> FiledState(t.phase.found))
  }

  ghost predicate TasksOk(s: Sub, h: History) {
    && h.handled <= h.clock && h.demanded <= h.handled
    && (forall v: nat :: v in s.tasks <==> v < s.nextVersion)
    && (forall v :: v in s.tasks ==> TaskOk(s.tasks[v], h.clock))
  }

  function PackageJsons(ds: set<WorkspaceData>): set<Path> {
    set d | d in ds :: d.packageJson
  }

  /** What is published agrees with `p` on the error, or on the package manager and the package.json files. */
  ghost predicate Agrees(published: Published, p: PackageState) {
    match p
    case NoPackageManager(e) => published == Some(Err(e))
    case InvalidGlobs(e) => published == Some(Err(e))
    case ValidWorkspaces(manager, _, ws) =>
      && published.Some? && published.value.Ok? && published.value.value.manager == manager
      && PackageJsons(published.value.value.workspaces) == set w | w in ws :: w + [PACKAGE_JSON]
  }

  /** `w` is a workspace as far as the latest answer about it goes, and as discovered if there is none. */
  ghost predicate Known(found: Workspaces, answers: Answers, w: Path) {
    if w in answers then answers[w].packageJson else w in found
  }

  ghost predicate Tracks(p: PackageState, found: PackageState, answers: Answers) {
    if !p.ValidWorkspaces? then p == found
    else
      && found.ValidWorkspaces? && found.manager == p.manager && found.filter == p.filter
      && forall w :: w in p.workspaces <==> Known(found.workspaces, answers, w)
  }

  /** What is held of a workspace goes back to the disk's latest answer since the last publication, or to that. */
  function Latest(shown: Workspaces, since: Answers, w: Path): WorkspaceData
    requires w in shown
  {
    if w in since then DataFor(w, since[w]) else shown[w]
  }

  ghost predicate ShownOk(p: PackageState, published: Published, shown: Workspaces, since: Answers) {
    p.ValidWorkspaces? ==>
      && published == Some(Ok(Response(p.manager, shown.Values)))
      && Filed(shown) && shown.Keys == p.workspaces.Keys
      && forall w :: w in shown ==> p.workspaces[w] == Latest(shown, since, w)
  }

  ghost predicate StateOk(s: Sub, h: History) {
    match s.state
    case Pending(v) =>
      && s.published.None? && v in s.tasks
      && (Began(s.tasks[v]).Some? ==> h.handled < Began(s.tasks[v]).value)
    case Ready(p) =>
      && FiledState(p) && Agrees(s.published, p) && ShownOk(p, s.published, h.shown, h.since)
      && h.basis.Some?
      && h.basis.value.handledBefore < h.basis.value.began && h.demanded < h.basis.value.began
      && Tracks(p, h.basis.value.found, h.answers)
  }

  ghost predicate InChannel(channel: seq<DiscoveryResult>, v: nat) {
    exists i :: 0 <= i < |channel| && channel[i].version == v
  }

  ghost predicate ResultOk(s: Sub, r: DiscoveryResult) {
    r.version in s.tasks && s.tasks[r.version].phase.Sent? && s.tasks[r.version].phase.found == r.found
  }

  /** A result is sent once, so the one that is waited for cannot get lost. */
  ghost predicate ChannelOk(s: Sub, channel: seq<DiscoveryResult>) {
    && (forall i :: 0 <= i < |channel| ==> ResultOk(s, channel[i]))
    && (forall i, j :: 0 <= i < j < |channel| ==> channel[i].version != channel[j].version)
    && (s.state.Pending? && s.state.version in s.tasks && s.tasks[s.state.version].phase.Sent?
       ==> InChannel(channel, s.state.version))
  }

  ghost predicate Inv(s: System) {
    TasksOk(s.sub, s.history) && StateOk(s.sub, s.history) && ChannelOk(s.sub, s.channel)
  }

  // Rediscovery

  lemma QueueKeeps(s: Sub, channel: seq<DiscoveryResult>, h: History, immediate: bool)
    requires TasksOk(s, h) && forall i :: 0 <= i < |channel| ==> ResultOk(s, channel[i])
    requires forall i, j :: 0 <= i < j < |channel| ==> channel[i].version != channel[j].version
    ensures var s' := QueueRediscovery(s, immediate); TasksOk(s', h) && StateOk(s', h) && ChannelOk(s', channel)
  {
    var s' := QueueRediscovery(s, immediate);
    assert forall i :: 0 <= i < |channel| ==> ResultOk(s', channel[i]);
  }

  /** A bump that succeeds comes before the discovery begins. */
  lemma BumpOrQueueKeeps(s: Sub, channel: seq<DiscoveryResult>, h: History, now: nat, demanded: nat)
    requires TasksOk(s, h) && StateOk(s, h) && ChannelOk(s, channel) && h.clock < now && demanded <= now
    ensures
      var s', h' := BumpOrQueue(s, now), h.(clock := now, handled := now, demanded := demanded);
      s'.state.Pending? && TasksOk(s', h') && StateOk(s', h') && ChannelOk(s', channel)
  {
    var h' := h.(clock := now, handled := now, demanded := demanded);
    TickKeeps(s, h, h');
    if CanBump(s) {
      var v := s.state.version;
      var t := s.tasks[v];
      var s' := BumpOrQueue(s, now);
      Debouncing.BumpKeepsValid(t.debouncer, h.clock, now);
      assert TaskOk(s'.tasks[v], now);
      assert forall i :: 0 <= i < |channel| ==> ResultOk(s, channel[i]) ==> ResultOk(s', channel[i]);
    } else {
      QueueKeeps(s, channel, h', false);
    }
  }

  lemma TickKeeps(s: Sub, h: History, h': History)
    requires TasksOk(s, h) && h.clock <= h'.clock && h'.handled <= h'.clock && h'.demanded <= h'.handled
    ensures TasksOk(s, h')
  {
    forall v | v in s.tasks ensures TaskOk(s.tasks[v], h'.clock) { assert TaskOk(s.tasks[v], h.clock); }
  }

  // Patching

  lemma {:induction false} PatchAllTracks(filter: Path -> bool, ws: Workspaces, found: Workspaces, answers: Answers,
                                          paths: seq<Path>, probes: seq<Probe>, n: nat)
    requires n <= |paths| == |probes| && forall w :: w in ws <==> Known(found, answers, w)
    ensures forall w :: w in PatchAll(filter, ws, paths, probes, n).workspaces
                   <==> Known(found, Asked(filter, answers, paths, probes, n), w)
  {
    if n > 0 { PatchAllTracks(filter, ws, found, answers, paths, probes, n - 1); }
  }

  lemma {:induction false} PatchAllFiles(filter: Path -> bool, ws: Workspaces, paths: seq<Path>, probes: seq<Probe>,
      n: nat)
    requires n <= |paths| == |probes| && Filed(ws)
    ensures Filed(PatchAll(filter, ws, paths, probes, n).workspaces)
  {
    if n > 0 { PatchAllFiles(filter, ws, paths, probes, n - 1); }
  }

  /** As long as nothing counts as changed, no workspace has come or gone. */
  lemma {:induction false} UnchangedKeys(filter: Path -> bool, ws: Workspaces, paths: seq<Path>, probes: seq<Probe>,
      n: nat)
    requires n <= |paths| == |probes| && !PatchAll(filter, ws, paths, probes, n).changed
    ensures PatchAll(filter, ws, paths, probes, n).workspaces.Keys == ws.Keys
  {
    if n > 0 { UnchangedKeys(filter, ws, paths, probes, n - 1); }
  }

  /** Without a change of membership, every patch is the disk's latest answer about a workspace. */
  lemma {:induction false} UnchangedData(filter: Path -> bool, ws: Workspaces, shown: Workspaces, since: Answers,
                                         paths: seq<Path>, probes: seq<Probe>, n: nat)
    requires n <= |paths| == |probes| && !PatchAll(filter, ws, paths, probes, n).changed
    requires shown.Keys == ws.Keys && forall w :: w in shown ==> ws[w] == Latest(shown, since, w)
    ensures
      var after := PatchAll(filter, ws, paths, probes, n).workspaces;
      && after.Keys == shown.Keys
      && forall w :: w in shown ==> after[w] == Latest(shown, Asked(filter, since, paths, probes, n), w)
  {
    if n > 0 { UnchangedData(filter, ws, shown, since, paths, probes, n - 1); }
  }

  lemma ShownAgrees(p: PackageState)
    requires FiledState(p)
    ensures Agrees(Some(Shown(p)), p)
  {
    if p.ValidWorkspaces? {
      var ws := p.workspaces;
      forall w | w in ws ensures w + [PACKAGE_JSON] in PackageJsons(ws.Values) {
        assert ws[w] in ws.Values && ws[w].packageJson == w + [PACKAGE_JSON];
      }
    }
  }

  lemma PatchAgrees(p: PackageState, published: Published, paths: seq<Path>, probes: seq<Probe>)
    requires p.ValidWorkspaces? && Filed(p.workspaces) && Agrees(published, p) && |paths| == |probes|
    ensures
      var after := PatchAll(p.filter, p.workspaces, paths, probes, |paths|);
      var p' := p.(workspaces := after.workspaces);
      FiledState(p') && Agrees(if after.changed then Some(Shown(p')) else published, p')
  {
    var after := PatchAll(p.filter, p.workspaces, paths, probes, |paths|);
    var p' := p.(workspaces := after.workspaces);
    PatchAllFiles(p.filter, p.workspaces, paths, probes, |paths|);
    ShownAgrees(p');
    if !after.changed {
      UnchangedKeys(p.filter, p.workspaces, paths, probes, |paths|);
      assert forall w :: w in p.workspaces <==> w in after.workspaces;
      assert (set w | w in p.workspaces :: w + [PACKAGE_JSON]) == set w | w in after.workspaces :: w + [PACKAGE_JSON];
    }
  }

  lemma FileEventKeeps(roots: set<Path>, s: Sub, channel: seq<DiscoveryResult>, h: History, paths: seq<Path>,
      probes: seq<Probe>, now: nat)
    requires TasksOk(s, h) && StateOk(s, h) && ChannelOk(s, channel) && h.clock < now && |paths| == |probes|
    ensures
      var s', h' := HandleFileEvent(roots, s, paths, probes, now), Record(roots, s, h, paths, probes, now);
      TasksOk(s', h') && StateOk(s', h') && ChannelOk(s', channel)
  {
    if Invalidates(roots, paths) {
      BumpOrQueueKeeps(s, channel, h, now, now);
    } else if s.state.Pending? {
      BumpOrQueueKeeps(s, channel, h, now, h.demanded);
    } else {
      var h' := Record(roots, s, h, paths, probes, now);
      TickKeeps(s, h, h');
      var p := s.state.packages;
      if p.ValidWorkspaces? {
        PatchAgrees(p, s.published, paths, probes);
        PatchAllTracks(p.filter, p.workspaces, h.basis.value.found.workspaces, h.answers, paths, probes, |paths|);
        if !PatchAll(p.filter, p.workspaces, paths, probes, |paths|).changed {
          UnchangedData(p.filter, p.workspaces, h.shown, h.since, paths, probes, |paths|);
        }
      }
      var s' := HandleFileEvent(roots, s, paths, probes, now);
      assert forall i :: 0 <= i < |channel| ==> ResultOk(s, channel[i]) ==> ResultOk(s', channel[i]);
    }
  }

  // Discoveries

  lemma DeliverKeeps(s: Sub, channel: seq<DiscoveryResult>, h: History, now: nat)
    requires TasksOk(s, h) && StateOk(s, h) && ChannelOk(s, channel) && h.clock < now && channel != []
    ensures
      var s', h' := HandleDiscoveryResult(s, channel[0]), Accept(s, h, channel[0], now);
      TasksOk(s', h') && StateOk(s', h') && ChannelOk(s', channel[1..])
  {
    var r := channel[0];
    var s', h' := HandleDiscoveryResult(s, r), Accept(s, h, r, now);
    assert ResultOk(s, r);
    TickKeeps(s, h, h');
    assert TaskOk(s.tasks[r.version], h.clock);
    assert StateOk(s', h') by {
      if s.state.Pending? && r.version == s.state.version { ShownAgrees(r.found); }
    }
    assert ChannelOk(s', channel[1..]) by {
      assert forall i :: 0 <= i < |channel[1..]| ==> channel[1..][i] == channel[i + 1] && ResultOk(s, channel[i + 1]);
      if s'.state.Pending? && s'.tasks[s'.state.version].phase.Sent? {
        var i :| 0 <= i < |channel| && channel[i].version == s.state.version;
        assert channel[1..][i - 1].version == s.state.version;
      }
    }
  }

  lemma {:induction false} CollectFiles(found: seq<WorkspaceData>)
    requires forall i :: 0 <= i < |found| ==> IsPackageJson(found[i])
    ensures Filed(Collect(found))
  {
    if found != [] {
      var d := found[|found| - 1];
      CollectFiles(found[..|found| - 1]);
      assert d.packageJson == d.packageJson[..|d.packageJson| - 1] + [PACKAGE_JSON];
    }
  }

  lemma AdvanceKeepsTask(s: System, e: Event, now: nat)
    requires Enabled(s, e, now) && (e.Debounce? || e.Begin? || e.Fail? || e.Find? || e.Send?)
    requires TaskOk(s.sub.tasks[e.version], s.history.clock)
    ensures
      var t, t' := s.sub.tasks[e.version], Advance(s, e, now);
      && TaskOk(t', now)
      && Began(t') == (if e.Begin? then Some(now) else Began(t))
      && (t'.phase.Sent? <==> e.Send? || t.phase.Sent?) && (t.phase.Sent? ==> t'.phase == t.phase)
  {
    var t := s.sub.tasks[e.version];
    match e {
      case Debounce(_, branch) => Debouncing.TurnKeepsValid(t.debouncer, branch, s.history.clock, now);
      case Find(_, _, _, found) => CollectFiles(found);
      case _ =>
    }
  }

  /** A discovery's own step leaves the results in the channel alone; sending adds one. */
  lemma AdvanceKeepsChannel(roots: set<Path>, s: System, e: Event, now: nat, t': Task)
    requires Enabled(s, e, now) && (e.Debounce? || e.Begin? || e.Fail? || e.Find? || e.Send?)
        && t' == Advance(s, e, now)
    requires ChannelOk(s.sub, s.channel)
    requires
      var t := s.sub.tasks[e.version];
      (t'.phase.Sent? <==> e.Send? || t.phase.Sent?) && (t.phase.Sent? ==> t'.phase == t.phase)
    ensures ChannelOk(Next(roots, s, e, now).sub, Next(roots, s, e, now).channel)
  {
    var s' := Next(roots, s, e, now);
    forall i | 0 <= i < |s.channel| ensures ResultOk(s'.sub, s'.channel[i]) && s'.channel[i] == s.channel[i] {
      assert ResultOk(s.sub, s.channel[i]);
    }
    if s.sub.state.Pending? && InChannel(s.channel, s.sub.state.version) {
      var i :| 0 <= i < |s.channel| && s.channel[i].version == s.sub.state.version;
      assert s'.channel[i].version == s.sub.state.version;
    }
    if e.Send? { assert s'.channel[|s.channel|].version == e.version; }
  }

  lemma AdvanceKeeps(roots: set<Path>, s: System, e: Event, now: nat)
    requires Inv(s) && Enabled(s, e, now) && (e.Debounce? || e.Begin? || e.Fail? || e.Find? || e.Send?)
    ensures Inv(Next(roots, s, e, now))
  {
    var s' := Next(roots, s, e, now);
    assert TaskOk(s.sub.tasks[e.version], s.history.clock);
    AdvanceKeepsTask(s, e, now);
    assert TasksOk(s'.sub, s'.history) by { TickKeeps(s.sub, s.history, s'.history); }
    AdvanceKeepsChannel(roots, s, e, now, Advance(s, e, now));
  }

  lemma NextKeeps(roots: set<Path>, s: System, e: Event, now: nat)
    requires Inv(s) && Enabled(s, e, now)
    ensures Inv(Next(roots, s, e, now))
  {
    match e {
      case FileEvent(paths, probes) => FileEventKeeps(roots, s.sub, s.channel, s.history, paths, probes, now);
      case EventsLost => BumpOrQueueKeeps(s.sub, s.channel, s.history, now, now);
      case Closed => TickKeeps(s.sub, s.history, s.history.(clock := now));
      case Deliver => DeliverKeeps(s.sub, s.channel, s.history, now);
      case _ => AdvanceKeeps(roots, s, e, now);
    }
  }

  lemma {:induction false} RunKeeps(roots: set<Path>, events: seq<(Event, nat)>)
    requires Run(roots, events).Some?
    ensures Inv(Run(roots, events).value)
  {
    if events == [] {
      var empty := Sub(Pending(0), None, 0, map[]);
      assert Start().history.handled == 0;
      QueueKeeps(empty, [], Start().history, true);
    } else {
      var before := events[..|events| - 1];
      RunKeeps(roots, before);
      NextKeeps(roots, Run(roots, before).value, events[|events| - 1].0, events[|events| - 1].1);
    }
  }

  // What follows for every run

  /** Nothing is published while a rediscovery is pending; otherwise what is published names the held state. */
  lemma PublishedAgrees(roots: set<Path>, events: seq<(Event, nat)>)
    requires Run(roots, events).Some?
    ensures
      var s := Run(roots, events).value.sub;
      && (s.state.Pending? <==> s.published.None?)
      && (s.state.Ready? ==> Agrees(s.published, s.state.packages))
  {
    RunKeeps(roots, events);
  }

  /**
   The held state goes back to a discovery that began after every event handled before it was accepted
   and after every later one that called for a rediscovery; since then each workspace is in it exactly
   if the disk's latest answer about it says so, or if it was discovered and not asked about.
   */
  lemma HeldStateIsCurrent(roots: set<Path>, events: seq<(Event, nat)>)
    requires Run(roots, events).Some? && Run(roots, events).value.sub.state.Ready?
    ensures
      var s := Run(roots, events).value;
      && s.history.basis.Some?
      && s.history.basis.value.handledBefore < s.history.basis.value.began
         && s.history.demanded < s.history.basis.value.began
      && Tracks(s.sub.state.packages, s.history.basis.value.found, s.history.answers)
  {
    RunKeeps(roots, events);
  }

  /** Steps the system takes by itself. */
  predicate Internal(e: Event) {
    !e.FileEvent? && !e.EventsLost? && !e.Closed?
  }

  /** A pending discovery can always make a step, or its result can be received. */
  lemma StepOf(s: System, v: nat) returns (e: Event, now: nat)
    requires Inv(s) && s.running && s.sub.state == Pending(v)
    ensures Internal(e) && Enabled(s, e, now)
  {
    var t := s.sub.tasks[v];
    assert TaskOk(t, s.history.clock);
    now := s.history.clock + 1;
    if s.channel != [] { e := Deliver; return; }
    match t.phase {
      case Debouncing =>
        if t.debouncer.pc.Returned? {
          e := Begin(v);
        } else {
          e := Debounce(v, Debouncing.Timer);
          if t.debouncer.pc.Waiting? && t.debouncer.pc.deadline > now { now := t.debouncer.pc.deadline; }
        }
      case Discovering(_) => e := Fail(v, false, "");
      case Sending(_, _) => e := Send(v);
      case Sent(_, _) => e := Deliver;
    }
  }

  /** Nothing the system does by itself is possible any more, at any time. */
  ghost predicate AtRest(s: System) {
    forall e, now :: Internal(e) ==> !Enabled(s, e, now)
  }

  /** The system rests only when a state is held and published: no rediscovery is ever forgotten. */
  lemma RestMeansReady(roots: set<Path>, events: seq<(Event, nat)>)
    requires Run(roots, events).Some?
    ensures var s := Run(roots, events).value; s.running ==> !AtRest(s) || (s.sub.state.Ready? && s.sub.published.Some?)
  {
    RunKeeps(roots, events);
    var s := Run(roots, events).value;
    if s.running && s.sub.state.Pending? {
      var e, now := StepOf(s, s.sub.state.version);
    }
  }

  /** How many steps a discovery still needs, at most, with receiving its result. */
  function Remaining(t: Task): nat {
    match t.phase
    case Debouncing => 4 + Debouncing.Rank(t.debouncer)
    case Discovering(_) => 3
    case Sending(_, _) => 2
    case Sent(_, _) => 0
  }

  function Work(tasks: map<nat, Task>, n: nat): nat {
    if n == 0 then 0 else Work(tasks, n - 1) + if n - 1 in tasks then Remaining(tasks[n - 1]) else 0
  }

  function Budget(s: System): nat {
    Work(s.sub.tasks, s.sub.nextVersion) + |s.channel|
  }

  lemma {:induction false} WorkAfterUpdate(tasks: map<nat, Task>, v: nat, t: Task, n: nat)
    requires v in tasks
    ensures v < n ==> Work(tasks[v := t], n) == Work(tasks, n) - Remaining(tasks[v]) + Remaining(t)
    ensures v >= n ==> Work(tasks[v := t], n) == Work(tasks, n)
  {
    if n > 0 { WorkAfterUpdate(tasks, v, t, n - 1); }
  }

  lemma InternalStepCosts(roots: set<Path>, s: System, e: Event, now: nat)
    requires Inv(s) && Internal(e) && Enabled(s, e, now)
    ensures Budget(Next(roots, s, e, now)) < Budget(s)
  {
    if !e.Deliver? {
      var v, t, t' := e.version, s.sub.tasks[e.version], Advance(s, e, now);
      TickKeeps(s.sub, s.history, s.history.(clock := now));
      assert TaskOk(t, now);
      if e.Debounce? { Debouncing.TurnMakesProgress(t.debouncer, e.branch, now); }
      assert Remaining(t') + (if e.Send? then 1 else 0) < Remaining(t);
      WorkAfterUpdate(s.sub.tasks, v, t', s.sub.nextVersion);
    }
  }

  lemma LastStepCosts(roots: set<Path>, front: seq<(Event, nat)>, e: Event, now: nat)
    requires Run(roots, front + [(e, now)]).Some? && Internal(e)
    ensures Run(roots, front).Some?
    ensures Budget(Run(roots, front + [(e, now)]).value) < Budget(Run(roots, front).value)
  {
    var all := front + [(e, now)];
    assert all[..|all| - 1] == front && all[|all| - 1] == (e, now);
    RunKeeps(roots, front);
    InternalStepCosts(roots, Run(roots, front).value, e, now);
  }

  /** Left alone, the package watcher takes at most as many steps as its budget, so it comes to rest. */
  lemma {:induction false} Settles(roots: set<Path>, events: seq<(Event, nat)>, internal: seq<(Event, nat)>)
    requires Run(roots, events + internal).Some?
    requires forall i :: 0 <= i < |internal| ==> Internal(internal[i].0)
    ensures Run(roots, events).Some?
    ensures |internal| + Budget(Run(roots, events + internal).value) <= Budget(Run(roots, events).value)
  {
    if internal == [] {
      assert events + internal == events;
    } else {
      var front, last := internal[..|internal| - 1], internal[|internal| - 1];
      assert events + internal == (events + front) + [(last.0, last.1)];
      LastStepCosts(roots, events + front, last.0, last.1);
      Settles(roots, events, front);
    }
  }

  // What is not kept

  lemma SameValues(a: Workspaces, b: Workspaces)
    requires Filed(a) && Filed(b) && a.Values == b.Values
    ensures a == b
  {
    forall w | w in a ensures w in b && b[w] == a[w] { FiledAt(a, b, w); }
    forall w | w in b ensures w in a && a[w] == b[w] { FiledAt(b, a, w); }
  }

  lemma FiledAt(a: Workspaces, b: Workspaces, w: Path)
    requires Filed(a) && Filed(b) && a.Values == b.Values && w in a
    ensures w in b && b[w] == a[w]
  {
    assert a[w] in b.Values;
    var u :| u in b && b[u] == a[w];
    assert u == (u + [PACKAGE_JSON])[..|u|] && w == (w + [PACKAGE_JSON])[..|w|];
  }

  /**
   In every run, what is published is what is held exactly if, for every held workspace, the disk's latest answer
   since the last publication agrees with what was published about its nrz.json.
   */
  lemma PublishedIsHeldIff(roots: set<Path>, events: seq<(Event, nat)>)
    requires Run(roots, events).Some?
    requires var s := Run(roots, events).value.sub; s.state.Ready? && s.state.packages.ValidWorkspaces?
    ensures
      var s, h := Run(roots, events).value.sub, Run(roots, events).value.history;
      var p := s.state.packages;
      && s.published == Some(Ok(Response(p.manager, h.shown.Values))) && h.shown.Keys == p.workspaces.Keys
      && (s.published == Some(Shown(p)) <==>
            forall w :: w in h.shown && w in h.since ==> DataFor(w, h.since[w]).nrzJson == h.shown[w].nrzJson)
  {
    RunKeeps(roots, events);
    var s, h := Run(roots, events).value.sub, Run(roots, events).value.history;
    HeldIff(s.state.packages, s.published, h.shown, h.since);
  }

  lemma HeldIff(p: PackageState, published: Published, shown: Workspaces, since: Answers)
    requires p.ValidWorkspaces? && Filed(p.workspaces) && ShownOk(p, published, shown, since)
    ensures published == Some(Shown(p)) <==>
      forall w :: w in shown && w in since ==> DataFor(w, since[w]).nrzJson == shown[w].nrzJson
  {
    if published == Some(Shown(p)) { SameValues(p.workspaces, shown); }
    if forall w :: w in shown && w in since ==> DataFor(w, since[w]).nrzJson == shown[w].nrzJson {
      forall w | w in shown ensures p.workspaces[w] == shown[w] {
        assert p.workspaces[w] == Latest(shown, since, w);
      }
      assert p.workspaces == shown;
    }
  }

  // A run in which it is not

  function Only(w: Path): Path -> bool {
    path => path == w
  }

  function OneWorkspace(nrzJson: bool): PackageState {
    ValidWorkspaces("npm", Only(["app"]), map[["app"] := DataFor(["app"], Probe(true, nrzJson))])
  }

  lemma Step(roots: set<Path>, events: seq<(Event, nat)>, e: Event, now: nat) returns (s: System)
    requires Run(roots, events).Some? && Enabled(Run(roots, events).value, e, now)
    ensures Run(roots, events + [(e, now)]) == Some(s) && s == Next(roots, Run(roots, events).value, e, now)
  {
    assert (events + [(e, now)])[..|events|] == events;
    s := Next(roots, Run(roots, events).value, e, now);
  }

  /** The initial discovery's debouncer lets it through after four turns. */
  lemma FirstTurns(roots: set<Path>) returns (events: seq<(Event, nat)>, s: System)
    ensures Run(roots, events) == Some(s) && s.running && s.channel == [] && s.history.clock == 4
    ensures s.sub.state == Pending(0) && s.sub.tasks.Keys == {0}
    ensures s.sub.tasks[0].phase.Debouncing? && s.sub.tasks[0].debouncer.pc.Returned?
  {
    var turn := Debounce(0, Debouncing.Timer);
    events := [];
    s := Step(roots, events, turn, 1);
    events := events + [(turn, 1)];
    s := Step(roots, events, turn, 2);
    events := events + [(turn, 2)];
    assert s.sub.tasks[0].debouncer.pc == Debouncing.Waiting(0, 2);
    s := Step(roots, events, turn, 3);
    events := events + [(turn, 3)];
    s := Step(roots, events, turn, 4);
    events := events + [(turn, 4)];
  }

  /** It finds one workspace without a nrz.json, and that is published. */
  lemma OneIsFound(roots: set<Path>) returns (events: seq<(Event, nat)>, s: System)
    ensures Run(roots, events) == Some(s) && s.running && s.history.clock == 8
    ensures s.sub.state == Ready(OneWorkspace(false)) && s.sub.published == Some(Shown(OneWorkspace(false)))
  {
    events, s := FirstTurns(roots);
    s := Step(roots, events, Begin(0), 5);
    events := events + [(Begin(0), 5)];
    var found := [DataFor(["app"], Probe(true, false))];
    var find := Find(0, "npm", Only(["app"]), found);
    s := Step(roots, events, find, 6);
    events := events + [(find, 6)];
    FoundOne();
    s := Step(roots, events, Send(0), 7);
    events := events + [(Send(0), 7)];
    s := Step(roots, events, Deliver, 8);
    events := events + [(Deliver, 8)];
  }

  lemma FoundOne()
    ensures Collect([DataFor(["app"], Probe(true, false))]) == map[["app"] := DataFor(["app"], Probe(true, false))]
  {
    var d := DataFor(["app"], Probe(true, false));
    assert [d][..0] == [] && d.packageJson[..1] == ["app"];
  }

  lemma PatchOne(s: Sub, now: nat)
    requires s.state == Ready(OneWorkspace(false))
    ensures HandleWorkspaceChanges(s, [["app"]], [Probe(true, true)], now) == s.(state := Ready(OneWorkspace(true)))
    ensures Shown(OneWorkspace(false)) != Shown(OneWorkspace(true))
  {
    var probe := Probe(true, true);
    var p, p' := OneWorkspace(false), OneWorkspace(true);
    var d' := DataFor(["app"], probe);
    assert WorkspaceOf(p.filter, ["app"]) == Some(["app"]);
    assert PatchAll(p.filter, p.workspaces, [["app"]], [probe], 0) == Patched(p.workspaces, false);
    assert p.workspaces[["app"] := d'] == p'.workspaces;
    assert PatchAll(p.filter, p.workspaces, [["app"]], [probe], 1) == Patched(p'.workspaces, false);
    assert p'.workspaces[["app"]] in p'.workspaces.Values;
    assert d' !in p.workspaces.Values;
  }

  /** A nrz.json that appears in a known workspace is held but not published. */
  lemma NrzJsonIsNotRepublished(roots: set<Path>) returns (events: seq<(Event, nat)>)
    requires ["app"] !in roots
    ensures
      && Run(roots, events).Some?
      && var s := Run(roots, events).value.sub;
         && s.state == Ready(OneWorkspace(true)) && s.published == Some(Shown(OneWorkspace(false)))
         && s.published != Some(Shown(s.state.packages))
  {
    var s;
    events, s := OneIsFound(roots);
    var touch := FileEvent([["app"]], [Probe(true, true)]);
    PatchOne(s.sub, 9);
    s := Step(roots, events, touch, 9);
    events := events + [(touch, 9)];
  }
}
