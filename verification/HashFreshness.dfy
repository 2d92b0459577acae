/**
 Freshness against everything that was processed: not only against the changes that touched a spec while it was
 tracked, but against every file event with a file that matters to it, from the start of the run on.
 */
module HashFreshness {
  import opened Basics
  import opened Globs
  import opened HashState
  import opened HashWatcher
  import opened HashSafety
  import opened HashReports
  import Debouncing
  import PackagePaths

  /** When the read behind an entry began, if it has. */
  function ReadTime(l: Loop, spec: HashSpec): Option<nat> {
    if spec !in l.entries then None else
    match l.entries[spec]
    case Hashes(hashes) => Some(hashes.readAt)
    case Pending(v, _) => if v in l.computations then Began(l.computations[v]) else None
    case Failed(_) => None
  }

  // Which changes concern a spec

  /** `rest` is the path of `file` within `package`; the root package is the empty path. */
  predicate IsWithin(package: string, file: string, rest: string) {
    if package == "" then file == rest
    else if file == package then rest == ""
    else file == package + "/" + rest
  }

  /** Some include matches and no exclude does. */
  ghost predicate Selects(matcher: Matcher, globs: GlobSet, rest: string) {
    (exists g :: g in globs.includes && matcher(g, rest)) && forall g :: g in globs.excludes ==> !matcher(g, rest)
  }

  /** The file is the package or below it; specific inputs also have to select it. */
  ghost predicate Concerns(matcher: Matcher, spec: HashSpec, file: string) {
    exists rest :: IsWithin(spec.packagePath, file, rest)
                   && (spec.inputs.Specific? ==> Selects(matcher, spec.inputs.globs, rest))
  }

  lemma WithinIff(package: string, file: string, rest: string)
    ensures IsWithin(package, file, rest) <==> PackagePaths.Contains(package, file) && Within(package, file) == rest
  {
    PackagePaths.ContainsAsStrings(package, file);
    if package != "" && package + "/" <= file {
      assert file == package + "/" + file[|package| + 1..];
    }
    if file == package + "/" + rest { assert file[|package| + 1..] == rest; }
  }

  lemma ConcernsIff(matcher: Matcher, spec: HashSpec, file: string)
    ensures Concerns(matcher, spec, file)
       <==> PackagePaths.Contains(spec.packagePath, file) && IsRelevant(matcher, spec, file)
  {
    var p := spec.packagePath;
    forall rest ensures IsWithin(p, file, rest) <==> PackagePaths.Contains(p, file) && Within(p, file) == rest {
      WithinIff(p, file, rest);
    }
    if PackagePaths.Contains(p, file) { assert IsWithin(p, file, Within(p, file)); }
  }

  /** No tracked package path is a longer string prefix of the file. */
  ghost predicate IsNearest(packages: set<string>, package: string, file: string) {
    forall q :: q in packages && q <= file ==> |q| <= |package|
  }

  lemma ChangedIff(matcher: Matcher, entries: map<HashSpec, HashState>, file: string, spec: HashSpec)
    ensures spec in ChangedSpecs(matcher, entries, file)
       <==> spec in entries && Concerns(matcher, spec, file) && IsNearest(PackagesOf(entries), spec.packagePath, file)
  {
    var keys, p := PackagesOf(entries), spec.packagePath;
    ConcernsIff(matcher, spec, file);
    PackagePaths.LookupIsSound(keys, file);
    PackagePaths.ContainsAsStrings(p, file);
    if spec in entries && PackagePaths.Contains(p, file) && IsNearest(keys, p, file) {
      assert p in keys && PackagePaths.IsLongestKey(keys, file, p);
      PackagePaths.LongestKeyIsUnique(file, p, PackagePaths.Lookup(keys, file).value);
    }
  }

  /**
   A file event touches exactly the tracked specs that one of its files concerns, unless a longer tracked package path
   is a string prefix of that file.
   */
  lemma TouchedIff(matcher: Matcher, s: System, e: Event, now: nat, spec: HashSpec)
    requires Inv(s) && Enabled(matcher, s, e, now) && e.FileEvent?
    ensures
      spec in e.specs <==>
        spec in s.loop.entries
        && exists i :: 0 <= i < |e.files| && Concerns(matcher, spec, e.files[i])
                       && IsNearest(Packages(s.discovery), spec.packagePath, e.files[i])
  {
    forall i | 0 <= i < |e.files|
      ensures spec in ChangedSpecs(matcher, s.loop.entries, e.files[i])
         <==> spec in s.loop.entries && Concerns(matcher, spec, e.files[i])
              && IsNearest(Packages(s.discovery), spec.packagePath, e.files[i])
    {
      ChangedIff(matcher, s.loop.entries, e.files[i], spec);
    }
  }

  /** With flat packages no longer path can be. */
  lemma FlatMeansNearest(packages: set<string>, package: string, file: string)
    requires PackagePaths.NoNestedPackages(packages) && package in packages && PackagePaths.Contains(package, file)
    ensures IsNearest(packages, package, file)
  {
    PackagePaths.FlatLookupAgrees(packages, file);
    var p := PackagePaths.Lookup(packages, file).value;
    assert PackagePaths.Contains(package, p);
  }

  /** After this event only a new read can tell what the spec's files are: one of them changed, or events were lost. */
  ghost predicate Outdates(matcher: Matcher, e: Event, spec: HashSpec) {
    e.EventsLost? || (e.FileEvent? && exists i :: 0 <= i < |e.files| && Concerns(matcher, spec, e.files[i]))
  }

  // Where a read time comes from

  lemma UpdateReads(l: Loop, channel: seq<Update>, h: History, spec: HashSpec)
    requires LoopInv(l, channel, h) && channel != []
    requires ReadTime(HandleUpdate(l, channel[0]), spec).Some?
    ensures ReadTime(HandleUpdate(l, channel[0]), spec) == ReadTime(l, spec)
  {
    assert ComputationOk(l.computations[channel[0].version], h.clock);
  }

  lemma AdvanceReads(l: Loop, e: Event, v: nat, now: nat, spec: HashSpec)
    requires v in l.computations && IsOwnStep(e)
    requires var c := l.computations[v];
      && (e.Debounce? ==> c.debouncer.serial.Some? && Debouncing.CanTurn(c.debouncer, e.branch, now))
      && (e.Acquire? ==> c.phase.Debouncing?)
      && (e.EndRead? ==> c.phase.Reading?) && (e.SendUpdate? ==> c.phase.Sending?)
    ensures
      var t, t' := ReadTime(l, spec), ReadTime(SetComputation(l, v, Advance(l.computations[v], e, now)), spec);
      t' == t || (e.BeginRead? && t' == Some(now))
  {
  }

  /** The entry and what it waits for are those before, or the read has not begun. */
  lemma UnreadOrSame(matcher: Matcher, s: System, e: Event, now: nat, spec: HashSpec)
    requires Inv(s) && Enabled(matcher, s, e, now) && !IsOwnStep(e) && !e.Deliver?
    ensures
      var t := ReadTime(Next(matcher, s, e, now).loop, spec);
      t.Some? ==> t == ReadTime(s.loop, spec) && !e.EventsLost? && (e.FileEvent? ==> spec !in e.specs)
  {
    HandlersGrow(matcher, s, e, now);
    if spec in s.loop.entries { assert EntryOk(s.loop, s.history, spec); }
    match e
    case Discovered(_, _) => DiscoveryStep(matcher, s, e, now, spec, 0);
    case FileEvent(_, _) =>
      FileStep(matcher, s, e, now, spec, 0);
      if spec in s.loop.entries && s.loop.entries[spec].Pending? {
        assert ComputationOk(s.loop.computations[s.loop.entries[spec].version], s.history.clock);
      }
    case EventsLost(_, _) => LossStep(matcher, s, e, now, spec, 0);
    case Closed => CloseStep(matcher, s, now, 0);
    case Ask(who, asked) =>
      QueryAnswers(matcher, s, who, asked, now);
      assert spec != asked ==> SameEntry(s.loop, Next(matcher, s, e, now).loop, spec);
  }

  /**
   A read time after a step was there before the step, which then neither touched the spec nor lost events, or it is
   the step's own.
   */
  lemma StepReads(matcher: Matcher, s: System, e: Event, now: nat, spec: HashSpec)
    requires Inv(s) && Enabled(matcher, s, e, now)
    requires ReadTime(Next(matcher, s, e, now).loop, spec).Some?
    ensures
      var t := ReadTime(Next(matcher, s, e, now).loop, spec);
      || (e.BeginRead? && t == Some(now))
      || (t == ReadTime(s.loop, spec) && !e.EventsLost? && (e.FileEvent? ==> spec !in e.specs))
  {
    if IsOwnStep(e) {
      AdvanceReads(s.loop, e, e.version, now, spec);
    } else if e.Deliver? {
      UpdateReads(s.loop, s.channel, s.history, spec);
    } else {
      UnreadOrSame(matcher, s, e, now, spec);
    }
  }

  // Over a whole run

  /** While a file event is processed, no package is nested in another. */
  ghost predicate FlatAt(matcher: Matcher, permits: nat, events: seq<(Event, nat)>, i: nat)
    requires i < |events|
  {
    events[i].0.FileEvent? ==>
      && Run(matcher, permits, events[..i]).Some?
      && PackagePaths.NoNestedPackages(Packages(Run(matcher, permits, events[..i]).value.discovery))
  }

  ghost predicate Flat(matcher: Matcher, permits: nat, events: seq<(Event, nat)>) {
    forall i :: 0 <= i < |events| ==> FlatAt(matcher, permits, events, i)
  }

  lemma {:induction false} TimesIncrease(matcher: Matcher, permits: nat, events: seq<(Event, nat)>, i: nat)
    requires Run(matcher, permits, events).Some? && i < |events|
    ensures events[i].1 <= Run(matcher, permits, events).value.history.clock
  {
    if i < |events| - 1 { TimesIncrease(matcher, permits, events[..|events| - 1], i); }
  }

  lemma FlatFront(matcher: Matcher, permits: nat, events: seq<(Event, nat)>)
    requires Flat(matcher, permits, events) && events != []
    ensures Flat(matcher, permits, events[..|events| - 1])
  {
    var front := events[..|events| - 1];
    forall i | 0 <= i < |front| ensures FlatAt(matcher, permits, front, i) {
      assert front[..i] == events[..i] && FlatAt(matcher, permits, events, i);
    }
  }

  /** With flat packages, a file event touches exactly the tracked specs that one of its files concerns. */
  lemma FlatTouches(matcher: Matcher, s: System, e: Event, now: nat, spec: HashSpec)
    requires Inv(s) && Enabled(matcher, s, e, now) && e.FileEvent?
    requires PackagePaths.NoNestedPackages(Packages(s.discovery))
    ensures spec in e.specs <==> spec in s.loop.entries && Outdates(matcher, e, spec)
  {
    TouchedIff(matcher, s, e, now, spec);
    if spec in s.loop.entries && Outdates(matcher, e, spec) {
      var i :| 0 <= i < |e.files| && Concerns(matcher, spec, e.files[i]);
      ConcernsIff(matcher, spec, e.files[i]);
      assert spec.packagePath in PackagesOf(s.loop.entries);
      FlatMeansNearest(Packages(s.discovery), spec.packagePath, e.files[i]);
    }
  }

  /**
   In every run in which packages are flat whenever a file event is processed, a read behind an entry began after
   every processed event that outdates the spec, whether the spec was tracked then or not.
   */
  lemma {:induction false} ReadsAreFresh(matcher: Matcher, permits: nat, events: seq<(Event, nat)>, spec: HashSpec,
      i: nat)
    requires Run(matcher, permits, events).Some? && Flat(matcher, permits, events)
    requires i < |events| && Outdates(matcher, events[i].0, spec)
    ensures
      var t := ReadTime(Run(matcher, permits, events).value.loop, spec);
      t.Some? ==> events[i].1 < t.value
    decreases |events|
  {
    var n := |events| - 1;
    var front, s, e, now := LastEvent(matcher, permits, events);
    assert events[..n] == front;
    if ReadTime(Run(matcher, permits, events).value.loop, spec).Some? {
      StepReads(matcher, s, e, now, spec);
      if i == n {
        assert FlatAt(matcher, permits, events, n);
        if e.FileEvent? { FlatTouches(matcher, s, e, now, spec); }
      } else {
        TimesIncrease(matcher, permits, front, i);
        FlatFront(matcher, permits, events);
        ReadsAreFresh(matcher, permits, front, spec, i);
      }
    }
  }

  /** So the hashes in the table are newer than every processed event that outdates them. */
  lemma HashesAreFresh(matcher: Matcher, permits: nat, events: seq<(Event, nat)>, spec: HashSpec, i: nat)
    requires Run(matcher, permits, events).Some? && Flat(matcher, permits, events)
    requires i < |events| && Outdates(matcher, events[i].0, spec)
    requires var l := Run(matcher, permits, events).value.loop; spec in l.entries && l.entries[spec].Hashes?
    ensures events[i].1 < Run(matcher, permits, events).value.loop.entries[spec].hashes.readAt
  {
    ReadsAreFresh(matcher, permits, events, spec, i);
  }

  /** And so are the hashes that a client is told at the last of the events. */
  lemma AnswersAreNewer(matcher: Matcher, permits: nat, events: seq<(Event, nat)>, who: Sender, i: nat)
    requires Run(matcher, permits, events).Some? && Flat(matcher, permits, events) && i < |events| - 1
    requires var s := Run(matcher, permits, events).value;
      && who in s.loop.replies && s.loop.replies[who].Hashed? && who in s.history.asked
      && Outdates(matcher, events[i].0, s.history.asked[who])
    requires who !in Run(matcher, permits, events[..|events| - 1]).value.loop.replies
    ensures events[i].1 < Run(matcher, permits, events).value.loop.replies[who].hashes.readAt
  {
    var front, s, e, now := LastEvent(matcher, permits, events);
    assert events[..|events| - 1] == front;
    RepliesStay(matcher, s, e, now, who);
    var spec := Run(matcher, permits, events).value.history.asked[who];
    FlatFront(matcher, permits, events);
    ReadsAreFresh(matcher, permits, front, spec, i);
    if e.Deliver? { DeliveredReadTime(s, who, spec); }
  }

  lemma DeliveredReadTime(s: System, who: Sender, spec: HashSpec)
    requires Inv(s) && s.channel != [] && s.channel[0].spec == spec && s.channel[0].outcome.Ok?
    requires who in s.history.asked && s.history.asked[who] == spec && who !in s.loop.replies
    requires who in HandleUpdate(s.loop, s.channel[0]).replies
    ensures ReadTime(s.loop, spec) == Some(s.channel[0].outcome.value.readAt)
  {
    assert ComputationOk(s.loop.computations[s.channel[0].version], s.history.clock);
  }

  // The quiet period

  ghost predicate TimeoutOk(l: Loop, spec: HashSpec) {
    spec in l.entries && l.entries[spec].Pending? ==>
      l.entries[spec].version in l.computations
      && l.computations[l.entries[spec].version].debouncer.timeout == Debouncing.DEFAULT_TIMEOUT
  }

  /** A read behind the entry began, or will begin, a whole quiet period after `t` or later. */
  ghost predicate WaitsAfter(l: Loop, spec: HashSpec, t: nat) {
    spec in l.entries ==>
      match l.entries[spec]
      case Hashes(hashes) => t + Debouncing.DEFAULT_TIMEOUT <= hashes.readAt
      case Pending(v, _) =>
        && v in l.computations && Debouncing.QuietSince(l.computations[v].debouncer, t)
        && (Began(l.computations[v]).Some? ==> t + Debouncing.DEFAULT_TIMEOUT <= Began(l.computations[v]).value)
      case Failed(_) => true
  }

  lemma OwnStepWaits(matcher: Matcher, s: System, e: Event, now: nat, spec: HashSpec, t: nat)
    requires Inv(s) && Enabled(matcher, s, e, now) && IsOwnStep(e) && t <= s.history.clock
    requires TimeoutOk(s.loop, spec)
    ensures TimeoutOk(Next(matcher, s, e, now).loop, spec)
    ensures WaitsAfter(s.loop, spec, t) ==> WaitsAfter(Next(matcher, s, e, now).loop, spec, t)
  {
    OwnStepIsLocal(matcher, s, e, now);
    var c := s.loop.computations[e.version];
    assert ComputationOk(c, s.history.clock);
    if e.Debounce? && Debouncing.QuietSince(c.debouncer, t) {
      Debouncing.TurnStaysQuiet(c.debouncer, e.branch, t, s.history.clock, now);
    }
  }

  lemma DeliverWaits(matcher: Matcher, s: System, now: nat, spec: HashSpec, t: nat)
    requires Inv(s) && Enabled(matcher, s, Deliver, now) && TimeoutOk(s.loop, spec)
    ensures TimeoutOk(Next(matcher, s, Deliver, now).loop, spec)
    ensures WaitsAfter(s.loop, spec, t) ==> WaitsAfter(Next(matcher, s, Deliver, now).loop, spec, t)
  {
    assert ComputationOk(s.loop.computations[s.channel[0].version], s.history.clock);
  }

  lemma FileEventWaits(matcher: Matcher, s: System, e: Event, now: nat, spec: HashSpec, t: nat)
    requires Inv(s) && Enabled(matcher, s, e, now) && e.FileEvent? && TimeoutOk(s.loop, spec)
    ensures TimeoutOk(Next(matcher, s, e, now).loop, spec)
    ensures WaitsAfter(s.loop, spec, t) || (t <= now && spec in e.specs)
            ==> WaitsAfter(Next(matcher, s, e, now).loop, spec, t)
  {
    FileStep(matcher, s, e, now, spec, 0);
    if spec in s.loop.entries && s.loop.entries[spec].Pending? {
      var c := s.loop.computations[s.loop.entries[spec].version];
      assert ComputationOk(c, s.history.clock);
      if !c.debouncer.pc.Returned? {
        Debouncing.BumpIsQuiet(c.debouncer, s.history.clock, now);
        if Debouncing.QuietSince(c.debouncer, t) {
          Debouncing.BumpStaysQuiet(c.debouncer, t, s.history.clock, now);
        }
      }
    }
  }

  lemma HandlerWaits(matcher: Matcher, s: System, e: Event, now: nat, spec: HashSpec, t: nat)
    requires Inv(s) && Enabled(matcher, s, e, now) && (e.Discovered? || e.EventsLost? || e.Closed? || e.Ask?)
    requires TimeoutOk(s.loop, spec) && spec.inputs.Default?
    ensures TimeoutOk(Next(matcher, s, e, now).loop, spec)
    ensures WaitsAfter(s.loop, spec, t) || e.EventsLost? ==> WaitsAfter(Next(matcher, s, e, now).loop, spec, t)
  {
    match e
    case Discovered(_, _) => DiscoveryStep(matcher, s, e, now, spec, 0);
    case EventsLost(_, _) => LossStep(matcher, s, e, now, spec, 0);
    case Closed => CloseStep(matcher, s, now, 0);
    case Ask(who, asked) =>
      QueryAnswers(matcher, s, who, asked, now);
      KnownIff(s, spec);
      assert spec != asked ==> SameEntry(s.loop, Next(matcher, s, e, now).loop, spec);
  }

  lemma StepWaits(matcher: Matcher, s: System, e: Event, now: nat, spec: HashSpec, t: nat)
    requires Inv(s) && Enabled(matcher, s, e, now) && TimeoutOk(s.loop, spec) && spec.inputs.Default?
    ensures TimeoutOk(Next(matcher, s, e, now).loop, spec)
    ensures (t <= s.history.clock && WaitsAfter(s.loop, spec, t))
            || (t <= now && (e.EventsLost? || (e.FileEvent? && spec in e.specs)))
            ==> WaitsAfter(Next(matcher, s, e, now).loop, spec, t)
  {
    if IsOwnStep(e) {
      OwnStepWaits(matcher, s, e, now, spec, if t <= s.history.clock then t else 0);
    } else if e.Deliver? {
      DeliverWaits(matcher, s, now, spec, t);
    } else if e.FileEvent? {
      FileEventWaits(matcher, s, e, now, spec, t);
    } else {
      HandlerWaits(matcher, s, e, now, spec, t);
    }
  }

  lemma {:induction false} TimeoutsAreDefault(matcher: Matcher, permits: nat, events: seq<(Event, nat)>, spec: HashSpec)
    requires Run(matcher, permits, events).Some? && spec.inputs.Default?
    ensures TimeoutOk(Run(matcher, permits, events).value.loop, spec)
    decreases |events|
  {
    if events != [] {
      var front, s, e, now := LastEvent(matcher, permits, events);
      TimeoutsAreDefault(matcher, permits, front, spec);
      StepWaits(matcher, s, e, now, spec, 0);
    }
  }

  lemma {:induction false} ReadsWait(matcher: Matcher, permits: nat, events: seq<(Event, nat)>, spec: HashSpec, i: nat)
    requires Run(matcher, permits, events).Some? && Flat(matcher, permits, events) && spec.inputs.Default?
    requires i < |events| && Outdates(matcher, events[i].0, spec)
    ensures WaitsAfter(Run(matcher, permits, events).value.loop, spec, events[i].1)
    decreases |events|
  {
    var n := |events| - 1;
    var front, s, e, now := LastEvent(matcher, permits, events);
    assert events[..n] == front;
    TimeoutsAreDefault(matcher, permits, front, spec);
    StepWaits(matcher, s, e, now, spec, events[i].1);
    if i == n {
      assert FlatAt(matcher, permits, events, n);
      if e.FileEvent? {
        FlatTouches(matcher, s, e, now, spec);
        FileStep(matcher, s, e, now, spec, 0);
      }
    } else {
      TimesIncrease(matcher, permits, front, i);
      FlatFront(matcher, permits, events);
      ReadsWait(matcher, permits, front, spec, i);
    }
  }

  /** Default hashes in the table are read a whole quiet period after every processed event that outdates them. */
  lemma HashesAreQuiet(matcher: Matcher, permits: nat, events: seq<(Event, nat)>, spec: HashSpec, i: nat)
    requires Run(matcher, permits, events).Some? && Flat(matcher, permits, events) && spec.inputs.Default?
    requires i < |events| && Outdates(matcher, events[i].0, spec)
    requires var l := Run(matcher, permits, events).value.loop; spec in l.entries && l.entries[spec].Hashes?
    ensures var hashes := Run(matcher, permits, events).value.loop.entries[spec].hashes;
      events[i].1 + Debouncing.DEFAULT_TIMEOUT <= hashes.readAt
  {
    ReadsWait(matcher, permits, events, spec, i);
  }
}
