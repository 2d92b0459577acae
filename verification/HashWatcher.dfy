/**
 The hash watcher as a concurrent system: the event loop, its spawned computations and the bounded
 channel between them, interleaved in every possible way.
 */
module HashWatcher {
  import opened Basics
  import opened Globs
  import opened HashState
  import Debouncing

  const CHANNEL_CAPACITY: nat := 16

  /**
   What has happened so far, as opposed to what the program remembers: the logical time, when each
   spec was last touched by a processed file event, when everything was last flushed because
   events were lost, and who asked for what.
   */
  datatype History = History(clock: nat, touched: map<HashSpec, nat>, flushed: nat, asked: map<Sender, HashSpec>)

  datatype System = System(
    running: bool,
    loop: Loop,
    channel: seq<Update>,
    discovery: Discovery,
    permits: nat,
    history: History)

  function Start(permits: nat): System {
    System(true, Loop(map[], 0, map[], map[]), [], None, permits, History(0, map[], 0, map[]))
  }

  datatype Event =
    | Discovered(data: Discovery, order: seq<string>)
    | FileEvent(files: seq<string>, specs: seq<HashSpec>)
    | EventsLost(reason: string, order: seq<string>)    // a watcher error, or the receiver lagged
    | Closed
    | Deliver                                           // the loop receives the oldest update
    | Ask(who: Sender, spec: HashSpec)
    | Debounce(version: nat, branch: Debouncing.Branch)
    | Acquire(version: nat)
    | BeginRead(version: nat)
    | EndRead(version: nat, failure: Option<string>)
    | SendUpdate(version: nat)

  /** The computations that hold a permit of the repository's semaphore. */
  function Holders(l: Loop): set<nat> {
    set v | v in l.computations && (l.computations[v].phase.Acquired? || l.computations[v].phase.Reading?
                                    || l.computations[v].phase.Sending?)
  }

  ghost predicate Enabled(matcher: Matcher, s: System, e: Event, now: nat) {
    var cs := s.loop.computations;
    && s.history.clock < now
    && match e
       case Discovered(data, order) => s.running && IsOrderOf(order, Packages(data))
       case FileEvent(files, specs) =>
         s.running && IsOrderOf(specs, AllChangedSpecs(matcher, s.loop.entries, files))
       case EventsLost(_, order) => s.running && IsOrderOf(order, Packages(s.discovery))
       case Closed => s.running
       case Deliver => s.running && s.channel != []
       case Ask(who, _) => s.running && who !in s.history.asked
       case Debounce(v, branch) =>
         v in cs && cs[v].debouncer.serial.Some? && Debouncing.CanTurn(cs[v].debouncer, branch, now)
       case Acquire(v) =>
         v in cs && cs[v].phase.Debouncing? && cs[v].debouncer.pc.Returned? && |Holders(s.loop)| < s.permits
       case BeginRead(v) => v in cs && cs[v].phase.Acquired?
       case EndRead(v, _) => v in cs && cs[v].phase.Reading?
       case SendUpdate(v) => v in cs && cs[v].phase.Sending? && |s.channel| < CHANNEL_CAPACITY
  }

  function SetComputation(l: Loop, v: nat, c: Computation): Loop {
    l.(computations := l.computations[v := c])
  }

  /** A computation's own step; it never looks at the loop's table. */
  function Advance(c: Computation, e: Event, now: nat): Computation
    requires e.Debounce? || e.Acquire? || e.BeginRead? || e.EndRead? || e.SendUpdate?
    requires e.Debounce? ==> c.debouncer.serial.Some? && Debouncing.CanTurn(c.debouncer, e.branch, now)
    requires e.EndRead? ==> c.phase.Reading?
    requires e.SendUpdate? ==> c.phase.Sending?
  {
    match e
    case Debounce(_, branch) => c.(debouncer := Debouncing.Turn(c.debouncer, branch, now))
    case Acquire(_) => c.(phase := Acquired)
    case BeginRead(_) => c.(phase := Reading(now))
    case EndRead(_, failure) =>
      var outcome := match failure case None => Ok(GitHashes(c.spec, c.phase.began)) case Some(reason) => Err(reason);
      c.(phase := Sending(c.phase.began, outcome))
    case SendUpdate(_) => c.(phase := Sent(c.phase.began, c.phase.outcome))
  }

  ghost function Next(matcher: Matcher, s: System, e: Event, now: nat): System
    requires Enabled(matcher, s, e, now)
  {
    var l := s.loop;
    var h := s.history.(clock := now);
    match e
    case Discovered(data, order) =>
      s.(loop := HandlePackages(l, data, order), discovery := data, history := h)
    case FileEvent(_, specs) =>
      s.(loop := TouchAll(l, specs, now),
         history := h.(touched := h.touched + map spec | spec in specs :: now))
    case EventsLost(reason, order) =>
      s.(loop := FlushAndRehash(l, s.discovery, reason, order), history := h.(flushed := now))
    case Closed =>
      s.(loop := DropOutside(l, {}, "file watcher closed"), running := false, history := h)
    case Deliver =>
      s.(loop := HandleUpdate(l, s.channel[0]), channel := s.channel[1..], history := h)
    case Ask(who, spec) =>
      s.(loop := HandleQuery(l, spec, who), history := h.(asked := h.asked[who := spec]))
    case SendUpdate(v) =>
      var c := l.computations[v];
      s.(loop := SetComputation(l, v, Advance(c, e, now)),
         channel := s.channel + [Update(c.spec, v, c.phase.outcome)], history := h)
    case _ =>
      s.(loop := SetComputation(l, e.version, Advance(l.computations[e.version], e, now)), history := h)
  }

  /** A run is a sequence of timed events; it has no result if one of them was not enabled. */
  ghost function Run(matcher: Matcher, permits: nat, events: seq<(Event, nat)>): Option<System> {
    if events == [] then Some(Start(permits)) else
    match Run(matcher, permits, events[..|events| - 1])
    case None => None
    case Some(s) =>
      var (e, now) := events[|events| - 1];
      if Enabled(matcher, s, e, now) then Some(Next(matcher, s, e, now)) else None
  }
}
