/**
 The package watcher: a loop that holds the discovered workspaces, patches them when a workspace is
 touched, throws them away when a file that decides about the package manager changes, and publishes
 what it knows. Discoveries run beside the loop, each behind a debouncer.
 */
module PackageWatcher {
  import opened Basics
  import Debouncing

  /** Absolute paths as their components. */
  type Path = seq<string>

  datatype WorkspaceData = WorkspaceData(packageJson: Path, nrzJson: Option<Path>)

  type Workspaces = map<Path, WorkspaceData>

  /** `filter` says which directories match the workspace globs; a glob error counts as no. */
  datatype PackageState =
    | NoPackageManager(error: string)
    | InvalidGlobs(error: string)
    | ValidWorkspaces(manager: string, filter: Path -> bool, workspaces: Workspaces)

  datatype Response = Response(manager: string, workspaces: set<WorkspaceData>)

  type Published = Option<Result<Response, string>>

  datatype State = Pending(version: nat) | Ready(packages: PackageState)

  /** A spawned discovery; `began` is the time at which it started to look at the disk. */
  datatype Phase =
    | Debouncing
    | Discovering(began: nat)
    | Sending(began: nat, found: PackageState)
    | Sent(began: nat, found: PackageState)

  datatype Task = Task(debouncer: Debouncing.State, phase: Phase)

  /** The subscriber and the discoveries it has spawned, each reached through its version. */
  datatype Sub = Sub(state: State, published: Published, nextVersion: nat, tasks: map<nat, Task>)

  // The handlers

  function QueueRediscovery(s: Sub, immediate: bool): Sub {
    var d := Debouncing.New(if immediate then 0 else Debouncing.DEFAULT_TIMEOUT);
    Sub(Pending(s.nextVersion), None, s.nextVersion + 1, s.tasks[s.nextVersion := Task(d, Debouncing)])
  }

  predicate CanBump(s: Sub) {
    s.state.Pending? && s.state.version in s.tasks && Debouncing.Accepts(s.tasks[s.state.version].debouncer)
  }

  function BumpOrQueue(s: Sub, now: nat): Sub {
    if CanBump(s) then
      var t := s.tasks[s.state.version];
      s.(tasks := s.tasks[s.state.version := t.(debouncer := Debouncing.Bump(t.debouncer, now))])
    else QueueRediscovery(s, false)
  }

  function Shown(p: PackageState): Result<Response, string> {
    match p
    case NoPackageManager(e) => Err(e)
    case InvalidGlobs(e) => Err(e)
    case ValidWorkspaces(manager, _, workspaces) => Ok(Response(manager, workspaces.Values))
  }

  datatype DiscoveryResult = DiscoveryResult(version: nat, found: PackageState)

  function HandleDiscoveryResult(s: Sub, r: DiscoveryResult): Sub {
    if s.state.Pending? && r.version == s.state.version
    then s.(state := Ready(r.found), published := Some(Shown(r.found)))
    else s
  }

  const PACKAGE_JSON := "package.json"
  const NRZ_JSON := "nrz.json"

  /** The workspace a changed path belongs to, if any: its package.json, or the directory itself. */
  function WorkspaceOf(filter: Path -> bool, path: Path): Option<Path> {
    if path != [] && path[|path| - 1] == PACKAGE_JSON then
      if filter(path[..|path| - 1]) then Some(path[..|path| - 1]) else None
    else if filter(path) then Some(path)
    else None
  }

  /** What the disk answers when it is asked about a workspace. */
  datatype Probe = Probe(packageJson: bool, nrzJson: bool)

  function DataFor(w: Path, probe: Probe): WorkspaceData {
    WorkspaceData(w + [PACKAGE_JSON], if probe.nrzJson then Some(w + [NRZ_JSON]) else None)
  }

  function Patch(ws: Workspaces, w: Path, probe: Probe): Workspaces {
    if probe.packageJson then ws[w := DataFor(w, probe)] else ws - {w}
  }

  datatype Patched = Patched(workspaces: Workspaces, changed: bool)

  /** The first `n` paths of an event, one after the other; `probes[i]` is the answer for path `i`. */
  function PatchAll(filter: Path -> bool, ws: Workspaces, paths: seq<Path>, probes: seq<Probe>, n: nat): Patched
    requires n <= |paths| == |probes|
  {
    if n == 0 then Patched(ws, false) else
    var before := PatchAll(filter, ws, paths, probes, n - 1);
    match WorkspaceOf(filter, paths[n - 1])
    case None => before
    case Some(w) =>
      Patched(Patch(before.workspaces, w, probes[n - 1]),
              before.changed || (w in before.workspaces) != probes[n - 1].packageJson)
  }

  function HandleWorkspaceChanges(s: Sub, paths: seq<Path>, probes: seq<Probe>, now: nat): Sub
    requires |paths| == |probes|
  {
    match s.state
    case Pending(_) => BumpOrQueue(s, now)
    case Ready(p) =>
      if !p.ValidWorkspaces? then s else
      var after := PatchAll(p.filter, p.workspaces, paths, probes, |paths|);
      var p' := p.(workspaces := after.workspaces);
      s.(state := Ready(p'), published := if after.changed then Some(Shown(p')) else s.published)
  }

  predicate Invalidates(roots: set<Path>, paths: seq<Path>) {
    exists i :: 0 <= i < |paths| && paths[i] in roots
  }

  function HandleFileEvent(roots: set<Path>, s: Sub, paths: seq<Path>, probes: seq<Probe>, now: nat): Sub
    requires |paths| == |probes|
  {
    if Invalidates(roots, paths) then BumpOrQueue(s, now) else HandleWorkspaceChanges(s, paths, probes, now)
  }

  /** Discoveries report package.json files. */
  predicate IsPackageJson(d: WorkspaceData) {
    d.packageJson != [] && d.packageJson[|d.packageJson| - 1] == PACKAGE_JSON
  }

  /** The map that `discover_packages` builds from its list of workspaces. */
  function Collect(found: seq<WorkspaceData>): Workspaces
    requires forall i :: 0 <= i < |found| ==> IsPackageJson(found[i])
  {
    if found == [] then map[] else
    var d := found[|found| - 1];
    assert IsPackageJson(d);
    Collect(found[..|found| - 1])[d.packageJson[..|d.packageJson| - 1] := d]
  }

  // The system

  const CHANNEL_CAPACITY: nat := 256

  /** The accepted discovery: when it began, what it found, and when the last event before that was handled. */
  datatype Basis = Basis(began: nat, found: PackageState, handledBefore: nat)

  type Answers = map<Path, Probe>

  /**
   What has happened: the time, the last handled event, the last one that called for a rediscovery by itself,
   the accepted discovery and the disk's last answer about each workspace since then, and the workspaces as they
   were last published and the disk's last answers since that.
   */
  datatype History = History(clock: nat, handled: nat, demanded: nat, basis: Option<Basis>, answers: Answers,
                             shown: Workspaces, since: Answers)

  datatype System = System(running: bool, sub: Sub, channel: seq<DiscoveryResult>, history: History)

  function Start(): System {
    System(true, QueueRediscovery(Sub(Pending(0), None, 0, map[]), true), [],
        History(0, 0, 0, None, map[], map[], map[]))
  }

  datatype Event =
    | FileEvent(paths: seq<Path>, probes: seq<Probe>)
    | EventsLost                                     // a watcher error, or the receiver lagged
    | Closed
    | Deliver
    | Debounce(version: nat, branch: Debouncing.Branch)
    | Begin(version: nat)
    | Fail(version: nat, globs: bool, error: string)
    | Find(version: nat, manager: string, filter: Path -> bool, found: seq<WorkspaceData>)
    | Send(version: nat)

  ghost predicate Enabled(s: System, e: Event, now: nat) {
    var ts := s.sub.tasks;
    && s.history.clock < now
    && match e
       case FileEvent(paths, probes) => s.running && |paths| == |probes|
       case EventsLost => s.running
       case Closed => s.running
       case Deliver => s.running && s.channel != []
       case Debounce(v, branch) =>
         v in ts && ts[v].debouncer.serial.Some? && Debouncing.CanTurn(ts[v].debouncer, branch, now)
       case Begin(v) => v in ts && ts[v].phase.Debouncing? && ts[v].debouncer.pc.Returned?
       case Fail(v, _, _) => v in ts && ts[v].phase.Discovering?
       case Find(v, _, _, found) =>
         v in ts && ts[v].phase.Discovering? && forall i :: 0 <= i < |found| ==> IsPackageJson(found[i])
       case Send(v) => v in ts && ts[v].phase.Sending? && |s.channel| < CHANNEL_CAPACITY
  }

  function SetTask(s: Sub, v: nat, t: Task): Sub {
    s.(tasks := s.tasks[v := t])
  }

  /** A discovery's own step. */
  ghost function Advance(s: System, e: Event, now: nat): Task
    requires Enabled(s, e, now) && (e.Debounce? || e.Begin? || e.Fail? || e.Find? || e.Send?)
  {
    var t := s.sub.tasks[e.version];
    match e
    case Debounce(_, branch) => t.(debouncer := Debouncing.Turn(t.debouncer, branch, now))
    case Begin(_) => t.(phase := Discovering(now))
    case Fail(_, globs, error) =>
      t.(phase := Sending(t.phase.began, if globs then InvalidGlobs(error) else NoPackageManager(error)))
    case Find(_, manager, filter, found) =>
      t.(phase := Sending(t.phase.began, ValidWorkspaces(manager, filter, Collect(found))))
    case Send(_) => t.(phase := Sent(t.phase.began, t.phase.found))
  }

  /** The disk's last answers after the first `n` paths of an event. */
  function Asked(filter: Path -> bool, answers: Answers, paths: seq<Path>, probes: seq<Probe>, n: nat): Answers
    requires n <= |paths| == |probes|
  {
    if n == 0 then answers else
    var before := Asked(filter, answers, paths, probes, n - 1);
    match WorkspaceOf(filter, paths[n - 1])
    case None => before
    case Some(w) => before[w := probes[n - 1]]
  }

  function Record(roots: set<Path>, s: Sub, h: History, paths: seq<Path>, probes: seq<Probe>, now: nat): History
    requires |paths| == |probes|
  {
    var h' := h.(clock := now, handled := now);
    if Invalidates(roots, paths) then h'.(demanded := now)
    else if s.state.Ready? && s.state.packages.ValidWorkspaces? then
      var p, n := s.state.packages, |paths|;
      var after := PatchAll(p.filter, p.workspaces, paths, probes, n);
      h'.(answers := Asked(p.filter, h.answers, paths, probes, n),
          shown := if after.changed then after.workspaces else h.shown,
          since := if after.changed then map[] else Asked(p.filter, h.since, paths, probes, n))
    else h'
  }

  function Accept(s: Sub, h: History, r: DiscoveryResult, now: nat): History {
    var h' := h.(clock := now);
    if s.state.Pending? && r.version == s.state.version && r.version in s.tasks && s.tasks[r.version].phase.Sent?
    then h'.(basis := Some(Basis(s.tasks[r.version].phase.began, r.found, h.handled)), answers := map[],
             shown := if r.found.ValidWorkspaces? then r.found.workspaces else map[], since := map[])
    else h'
  }

  ghost function Next(roots: set<Path>, s: System, e: Event, now: nat): System
    requires Enabled(s, e, now)
  {
    var h := s.history;
    match e
    case FileEvent(paths, probes) =>
      s.(sub := HandleFileEvent(roots, s.sub, paths, probes, now),
          history := Record(roots, s.sub, h, paths, probes, now))
    case EventsLost =>
      s.(sub := BumpOrQueue(s.sub, now), history := h.(clock := now, handled := now, demanded := now))
    case Closed => s.(running := false, history := h.(clock := now))
    case Deliver =>
      s.(sub := HandleDiscoveryResult(s.sub, s.channel[0]), channel := s.channel[1..],
         history := Accept(s.sub, h, s.channel[0], now))
    case Send(v) =>
      var t := Advance(s, e, now);
      s.(sub := SetTask(s.sub, v, t), channel := s.channel + [DiscoveryResult(v, t.phase.found)],
          history := h.(clock := now))
    case _ => s.(sub := SetTask(s.sub, e.version, Advance(s, e, now)), history := h.(clock := now))
  }

  ghost function Run(roots: set<Path>, events: seq<(Event, nat)>): Option<System> {
    if events == [] then Some(Start()) else
    match Run(roots, events[..|events| - 1])
    case None => None
    case Some(s) =>
      var (e, now) := events[|events| - 1];
      if Enabled(s, e, now) then Some(Next(roots, s, e, now)) else None
  }
}
