/**
 The package watcher's subscriber as the object it is: handlers that update its fields in place. The system around it
 is a ghost field: every handler is one step of that system, so what is proved of all runs holds of the object.
 */
module PackageSubscriber {
  import opened Basics
  import opened PackageWatcher
  import Debouncing
  import Safety = PackageSafety

  class Subscriber {
    const invalidationPaths: seq<Path>
    var state: State
    var published: Published
    var nextVersion: nat
    var tasks: map<nat, Task>
    ghost var system: System

    /** The object is the subscriber of a system that keeps the invariant of all runs. */
    ghost predicate Valid()
      reads this
    {
      Safety.Inv(system) && system.sub == View()
    }

    /** The system makes a step. */
    ghost predicate Steps(before: System, e: Event, now: nat)
      reads this
    {
      Enabled(before, e, now) && system == Next(Roots(), before, e, now)
    }

    ghost function View(): Sub
      reads this
    {
      Sub(state, published, nextVersion, tasks)
    }

    ghost function Roots(): set<Path> {
      set p | p in invalidationPaths
    }

    constructor (invalidationPaths: seq<Path>)
      ensures this.invalidationPaths == invalidationPaths
      ensures Valid() && system == Start()
    {
      this.invalidationPaths := invalidationPaths;
      state, published, nextVersion, tasks := Pending(0), None, 0, map[];
      system := Start();
      new;
      var version := QueueRediscovery(true);
      state := Pending(version);
      Safety.RunKeeps({}, []);
    }

    method ResetDiscoveryData()
      modifies this`published
      ensures View() == old(View()).(published := None)
    {
      if published.Some? { published := None; }
    }

    method WriteState(p: PackageState)
      modifies this`published
      ensures View() == old(View()).(published := Some(Shown(p)))
    {
      match p {
        case NoPackageManager(e) => WriteError(e);
        case InvalidGlobs(e) => WriteError(e);
        case ValidWorkspaces(manager, _, workspaces) => published := Some(Ok(Response(manager, workspaces.Values)));
      }
    }

    /** An error that is published already is left alone. */
    method WriteError(e: string)
      modifies this`published
      ensures View() == old(View()).(published := Some(Err(e)))
    {
      if published.Some? && published.value.Err? && published.value.error == e { return; }
      published := Some(Err(e));
    }

    method QueueRediscovery(immediate: bool) returns (version: nat)
      modifies this`published, this`nextVersion, this`tasks
      ensures View().(state := Pending(version)) == PackageWatcher.QueueRediscovery(old(View()), immediate)
      ensures state == old(state)
    {
      ResetDiscoveryData();
      version := nextVersion;
      nextVersion := nextVersion + 1;
      var debouncer := if immediate then Debouncing.New(0) else Debouncing.New(Debouncing.DEFAULT_TIMEOUT);
      tasks := tasks[version := Task(debouncer, Debouncing)];
    }

    /** Bumping goes through the handle in the pending state. */
    method Bump(version: nat, now: nat) returns (ok: bool)
      requires version in tasks
      modifies this`tasks
      ensures ok == Debouncing.Accepts(old(tasks)[version].debouncer)
      ensures
        var t := old(tasks)[version];
        View() == old(View()).(tasks := old(tasks)[version := t.(debouncer := Debouncing.Bump(t.debouncer, now))])
    {
      var t := tasks[version];
      ok := t.debouncer.serial.Some?;
      tasks := tasks[version := t.(debouncer := Debouncing.Bump(t.debouncer, now))];
    }

    method BumpOrQueueRediscovery(now: nat)
      requires state.Pending? ==> state.version in tasks
      modifies this`state, this`published, this`nextVersion, this`tasks
      ensures View() == BumpOrQueue(old(View()), now)
    {
      if state.Pending? {
        ghost var before := tasks;
        var ok := Bump(state.version, now);
        if ok { return; }
        assert tasks == before;
      }
      var version := QueueRediscovery(false);
      state := Pending(version);
    }

    /** The oldest result in the channel is received. */
    method HandleResult(result: DiscoveryResult, ghost now: nat)
      requires Valid() && Enabled(system, Deliver, now) && result == system.channel[0]
      modifies this
      ensures Valid() && Steps(old(system), Deliver, now)
    {
      Safety.NextKeeps(Roots(), system, Deliver, now);
      system := Next(Roots(), system, Deliver, now);
      if state.Pending? && result.version == state.version {
        WriteState(result.found);
        state := Ready(result.found);
      }
    }

    /** A watcher error, or events lost to lag. */
    method HandleError(now: nat)
      requires Valid() && Enabled(system, EventsLost, now)
      modifies this
      ensures Valid() && Steps(old(system), EventsLost, now) && state.Pending? && published.None?
    {
      BumpOrQueueRediscovery(now);
      Safety.BumpOrQueueKeeps(system.sub, system.channel, system.history, now, now);
      Safety.NextKeeps(Roots(), system, EventsLost, now);
      system := Next(Roots(), system, EventsLost, now);
    }

    method PathInvalidatesEverything(path: Path) returns (r: bool)
      ensures r <==> path in Roots()
    {
      r := false;
      for i := 0 to |invalidationPaths|
        invariant r <==> path in invalidationPaths[..i]
      {
        if path == invalidationPaths[i] { r := true; }
      }
      assert invalidationPaths[..|invalidationPaths|] == invalidationPaths;
    }

    method HandleChanges(paths: seq<Path>, probes: seq<Probe>, now: nat)
      requires |paths| == |probes| && (state.Pending? ==> state.version in tasks)
      modifies this`state, this`published, this`nextVersion, this`tasks
      ensures View() == HandleWorkspaceChanges(old(View()), paths, probes, now)
    {
      if state.Pending? {
        BumpOrQueueRediscovery(now);
        return;
      }
      var p := state.packages;
      if !p.ValidWorkspaces? { return; }
      var workspaces, changed := PatchWorkspaces(p.filter, p.workspaces, paths, probes);
      state := Ready(p.(workspaces := workspaces));
      if changed { WriteState(state.packages); }
    }

    method HandleEvent(paths: seq<Path>, probes: seq<Probe>, now: nat)
      requires Valid() && Enabled(system, FileEvent(paths, probes), now)
      modifies this
      ensures Valid() && Steps(old(system), FileEvent(paths, probes), now)
    {
      var invalidated := false;
      for i := 0 to |paths|
        invariant invalidated <==> exists j :: 0 <= j < i && paths[j] in Roots()
        invariant View() == old(View()) && system == old(system)
      {
        var hit := PathInvalidatesEverything(paths[i]);
        invalidated := invalidated || hit;
      }
      Safety.NextKeeps(Roots(), system, FileEvent(paths, probes), now);
      system := Next(Roots(), system, FileEvent(paths, probes), now);
      if invalidated { BumpOrQueueRediscovery(now); } else { HandleChanges(paths, probes, now); }
    }
  }

  /** The loop over an event's paths that patches the workspaces. */
  method PatchWorkspaces(filter: Path -> bool, held: Workspaces, paths: seq<Path>, probes: seq<Probe>)
    returns (workspaces: Workspaces, changed: bool)
    requires |paths| == |probes|
    ensures Patched(workspaces, changed) == PatchAll(filter, held, paths, probes, |paths|)
  {
    workspaces, changed := held, false;
    for i := 0 to |paths|
      invariant Patched(workspaces, changed) == PatchAll(filter, held, paths, probes, i)
    {
      var w := paths[i];
      if w != [] && w[|w| - 1] == PACKAGE_JSON {
        w := w[..|w| - 1];
        if !filter(w) { continue; }
      } else if !filter(w) {
        continue;
      }
      var was := w in workspaces;
      if probes[i].packageJson {
        workspaces := workspaces[w := DataFor(w, probes[i])];
        changed := changed || !was;
      } else {
        workspaces := workspaces - {w};
        changed := changed || was;
      }
    }
  }
}
