/**
 What the table holds and what clients are told, told by the events of a run: every hash and every error goes back to
 the end of a read of the very spec, and each event answers exactly the clients it should.
 */
module HashReports {
  import opened Basics
  import opened Globs
  import opened HashState
  import opened HashWatcher
  import opened HashSafety
  import Debouncing

  // What a run's events say about a computation

  /** When the read of computation `v` began. */
  function ReadBegan(events: seq<(Event, nat)>, v: nat): Option<nat> {
    if events == [] then None else
    var (e, now) := events[|events| - 1];
    if e == BeginRead(v) then Some(now) else ReadBegan(events[..|events| - 1], v)
  }

  /** How the read of computation `v` ended: with or without a failure. */
  function ReadEnded(events: seq<(Event, nat)>, v: nat): Option<Option<string>> {
    if events == [] then None else
    var e := events[|events| - 1].0;
    if e.EndRead? && e.version == v then Some(e.failure) else ReadEnded(events[..|events| - 1], v)
  }

  /** The read of `spec` by computation `v` gave these hashes. */
  ghost predicate ReadGave(events: seq<(Event, nat)>, v: nat, spec: HashSpec, hashes: GitHashes) {
    ReadEnded(events, v) == Some(None) && ReadBegan(events, v) == Some(hashes.readAt) && hashes.spec == spec
  }

  ghost predicate ReadFailed(events: seq<(Event, nat)>, v: nat, reason: string) {
    ReadEnded(events, v) == Some(Some(reason))
  }

  ghost predicate IsOutcome(events: seq<(Event, nat)>, v: nat, spec: HashSpec, outcome: HashResult) {
    match outcome
    case Ok(hashes) => ReadGave(events, v, spec, hashes)
    case Err(reason) => ReadFailed(events, v, reason)
  }

  /** Some computation of `spec` ended that way. */
  ghost predicate CameOf(events: seq<(Event, nat)>, l: Loop, spec: HashSpec, outcome: HashResult) {
    exists v :: v in l.computations && l.computations[v].spec == spec && IsOutcome(events, v, spec, outcome)
  }

  // The phases of the computations are the run's record of their reads

  ghost predicate PhaseOk(events: seq<(Event, nat)>, v: nat, c: Computation) {
    && Began(c) == ReadBegan(events, v)
    && (if c.phase.Sending? || c.phase.Sent? then IsOutcome(events, v, c.spec, c.phase.outcome)
        else ReadEnded(events, v).None?)
  }

  ghost predicate Recorded(events: seq<(Event, nat)>, l: Loop) {
    && (forall v :: v in l.computations ==> PhaseOk(events, v, l.computations[v]))
    && (forall v :: v !in l.computations ==> ReadBegan(events, v).None? && ReadEnded(events, v).None?)
  }

  /** Computations are only ever added, and those are debouncing. */
  ghost predicate Grown(l: Loop, l': Loop) {
    && (forall v :: v in l.computations ==>
          v in l'.computations && l'.computations[v].spec == l.computations[v].spec
          && l'.computations[v].phase == l.computations[v].phase)
    && (forall v :: v in l'.computations && v !in l.computations ==> l'.computations[v].phase.Debouncing?)
  }

  lemma GrownTwice(l: Loop, l': Loop, l'': Loop)
    requires Grown(l, l') && Grown(l', l'')
    ensures Grown(l, l'')
  {
  }

  lemma TouchGrows(l: Loop, h: History, spec: HashSpec)
    requires ComputationsOk(l, h)
    ensures Grown(l, Touch(l, spec, h.clock))
  {
    assert l.nextVersion !in l.computations;
  }

  lemma {:induction false} TouchAllGrows(l: Loop, channel: seq<Update>, h: History, specs: seq<HashSpec>)
    requires LoopInv(l, channel, h)
    ensures Grown(l, TouchAll(l, specs, h.clock))
  {
    if specs != [] {
      var front := specs[..|specs| - 1];
      var l1, h1 := TouchAll(l, front, h.clock), h.(touched := h.touched + map s | s in front :: h.clock);
      TouchAllKeeps(l, channel, h, front);
      TouchAllGrows(l, channel, h, front);
      TouchGrows(l1, h1, specs[|specs| - 1]);
      GrownTwice(l, l1, TouchAll(l, specs, h.clock));
    }
  }

  lemma {:induction false} AddPackagesGrows(l: Loop, channel: seq<Update>, h: History, packages: seq<string>)
    requires LoopInv(l, channel, h)
    ensures Grown(l, AddPackages(l, packages))
  {
    if packages != [] {
      var front := packages[..|packages| - 1];
      AddPackagesKeeps(l, channel, h, front);
      AddPackagesGrows(l, channel, h, front);
    }
  }

  lemma PackagesGrow(l: Loop, channel: seq<Update>, h: History, data: Discovery, order: seq<string>)
    requires LoopInv(l, channel, h)
    ensures Grown(l, HandlePackages(l, data, order))
  {
    if data.Some? && data.value.Ok? {
      DropKeeps(l, channel, h, data.value.value, "package was removed");
      AddPackagesGrows(DropOutside(l, data.value.value, "package was removed"), channel, h, order);
    }
  }

  lemma FlushGrows(l: Loop, channel: seq<Update>, h: History, data: Discovery, reason: string, order: seq<string>)
    requires LoopInv(l, channel, h)
    ensures Grown(l, FlushAndRehash(l, data, reason, order))
  {
    DropKeeps(l, channel, h, {}, reason);
    PackagesGrow(DropOutside(l, {}, reason), channel, h, data, order);
  }

  lemma QueryGrows(l: Loop, h: History, spec: HashSpec, who: Sender)
    requires ComputationsOk(l, h)
    ensures Grown(l, HandleQuery(l, spec, who))
  {
    assert l.nextVersion !in l.computations;
  }

  lemma UpdateGrows(l: Loop, u: Update)
    ensures Grown(l, HandleUpdate(l, u))
  {
  }

  predicate IsOwnStep(e: Event) {
    e.Debounce? || e.Acquire? || e.BeginRead? || e.EndRead? || e.SendUpdate?
  }

  /** Whatever the loop handles, the computations stay as they are, but for their debouncers. */
  lemma HandlersGrow(matcher: Matcher, s: System, e: Event, now: nat)
    requires Inv(s) && Enabled(matcher, s, e, now) && !IsOwnStep(e)
    ensures Grown(s.loop, Next(matcher, s, e, now).loop)
  {
    TickKeeps(s.loop, s.channel, s.history, now);
    var h := s.history.(clock := now);
    match e
    case Discovered(data, order) => PackagesGrow(s.loop, s.channel, h, data, order);
    case FileEvent(_, specs) => TouchAllGrows(s.loop, s.channel, h, specs);
    case EventsLost(reason, order) => FlushGrows(s.loop, s.channel, h, s.discovery, reason, order);
    case Closed =>
    case Deliver => UpdateGrows(s.loop, s.channel[0]);
    case Ask(who, spec) => QueryGrows(s.loop, h, spec, who);
  }

  /** A step of one computation changes no other one. */
  lemma OwnStepIsLocal(matcher: Matcher, s: System, e: Event, now: nat)
    requires Enabled(matcher, s, e, now) && IsOwnStep(e)
    ensures
      var l, l' := s.loop, Next(matcher, s, e, now).loop;
      && l'.entries == l.entries && l'.replies == l.replies && e.version in l.computations
      && l'.computations == l.computations[e.version := Advance(l.computations[e.version], e, now)]
  {
  }

  lemma OwnStepRecords(events: seq<(Event, nat)>, c: Computation, e: Event, now: nat)
    requires IsOwnStep(e) && PhaseOk(events, e.version, c)
    requires e.Debounce? ==> c.debouncer.serial.Some? && Debouncing.CanTurn(c.debouncer, e.branch, now)
    requires e.Acquire? ==> c.phase.Debouncing?
    requires e.BeginRead? ==> c.phase.Acquired?
    requires e.EndRead? ==> c.phase.Reading?
    requires e.SendUpdate? ==> c.phase.Sending?
    ensures PhaseOk(events + [(e, now)], e.version, Advance(c, e, now))
  {
    var all := events + [(e, now)];
    assert all[..|all| - 1] == events;
  }

  /** A read is recorded once; what it gave stays what it gave. */
  lemma RecordsAreKept(events: seq<(Event, nat)>, e: Event, now: nat, v: nat)
    requires !(IsOwnStep(e) && e.version == v)
    ensures ReadBegan(events + [(e, now)], v) == ReadBegan(events, v)
    ensures ReadEnded(events + [(e, now)], v) == ReadEnded(events, v)
  {
    var all := events + [(e, now)];
    assert all[..|all| - 1] == events;
  }

  lemma StepRecords(matcher: Matcher, s: System, events: seq<(Event, nat)>, e: Event, now: nat)
    requires Inv(s) && Enabled(matcher, s, e, now) && Recorded(events, s.loop)
    ensures Recorded(events + [(e, now)], Next(matcher, s, e, now).loop)
  {
    var l, l', all := s.loop, Next(matcher, s, e, now).loop, events + [(e, now)];
    forall v | !(IsOwnStep(e) && e.version == v)
      ensures ReadBegan(all, v) == ReadBegan(events, v) && ReadEnded(all, v) == ReadEnded(events, v)
    {
      RecordsAreKept(events, e, now, v);
    }
    if IsOwnStep(e) {
      OwnStepIsLocal(matcher, s, e, now);
      OwnStepRecords(events, l.computations[e.version], e, now);
      OneRecorded(events, all, l, l', e.version);
    } else {
      HandlersGrow(matcher, s, e, now);
      SameRecorded(events, all, l, l');
    }
  }

  lemma OneRecorded(events: seq<(Event, nat)>, all: seq<(Event, nat)>, l: Loop, l': Loop, v: nat)
    requires Recorded(events, l) && v in l.computations && v in l'.computations
    requires l'.computations == l.computations[v := l'.computations[v]] && PhaseOk(all, v, l'.computations[v])
    requires forall u :: u != v ==>
      ReadBegan(all, u) == ReadBegan(events, u) && ReadEnded(all, u) == ReadEnded(events, u)
    ensures Recorded(all, l')
  {
    forall u | u in l'.computations && u != v ensures PhaseOk(all, u, l'.computations[u]) {
      assert PhaseOk(events, u, l.computations[u]);
    }
  }

  lemma SameRecorded(events: seq<(Event, nat)>, all: seq<(Event, nat)>, l: Loop, l': Loop)
    requires Recorded(events, l) && Grown(l, l')
    requires forall u :: ReadBegan(all, u) == ReadBegan(events, u) && ReadEnded(all, u) == ReadEnded(events, u)
    ensures Recorded(all, l')
  {
    forall u | u in l'.computations ensures PhaseOk(all, u, l'.computations[u]) {
      if u in l.computations { assert PhaseOk(events, u, l.computations[u]); }
    }
  }

  lemma LastEvent(matcher: Matcher, permits: nat, events: seq<(Event, nat)>)
    returns (front: seq<(Event, nat)>, s: System, e: Event, now: nat)
    requires Run(matcher, permits, events).Some? && events != []
    ensures events == front + [(e, now)] && Run(matcher, permits, front) == Some(s) && Inv(s)
    ensures Enabled(matcher, s, e, now) && Run(matcher, permits, events) == Some(Next(matcher, s, e, now))
  {
    front := events[..|events| - 1];
    e, now := events[|events| - 1].0, events[|events| - 1].1;
    RunKeeps(matcher, permits, front);
    s := Run(matcher, permits, front).value;
  }

  lemma {:induction false} RunRecords(matcher: Matcher, permits: nat, events: seq<(Event, nat)>)
    requires Run(matcher, permits, events).Some?
    ensures Recorded(events, Run(matcher, permits, events).value.loop)
    decreases |events|
  {
    if events != [] {
      var front, s, e, now := LastEvent(matcher, permits, events);
      RunRecords(matcher, permits, front);
      StepRecords(matcher, s, front, e, now);
    }
  }

  // Hashes and errors go back to reads

  ghost predicate ReplyCameOf(events: seq<(Event, nat)>, l: Loop, spec: HashSpec, reply: Reply) {
    match reply
    case Hashed(hashes) => CameOf(events, l, spec, Ok(hashes))
    case HashingError(reason) => CameOf(events, l, spec, Err(reason))
    case _ => true
  }

  ghost predicate EntryCameOf(events: seq<(Event, nat)>, l: Loop, spec: HashSpec, entry: HashState) {
    match entry
    case Hashes(hashes) => CameOf(events, l, spec, Ok(hashes))
    case Failed(reason) => CameOf(events, l, spec, Err(reason))
    case Pending(_, _) => true
  }

  ghost predicate Reported(events: seq<(Event, nat)>, l: Loop, h: History) {
    && (forall spec :: spec in l.entries ==> EntryCameOf(events, l, spec, l.entries[spec]))
    && (forall who :: who in l.replies && who in h.asked ==> ReplyCameOf(events, l, h.asked[who], l.replies[who]))
  }

  /** What came of a read still did after another step. */
  lemma CameOfIsKept(matcher: Matcher, s: System, events: seq<(Event, nat)>, e: Event, now: nat, spec: HashSpec,
      outcome: HashResult)
    requires Inv(s) && Enabled(matcher, s, e, now) && Recorded(events, s.loop) && CameOf(events, s.loop, spec, outcome)
    ensures CameOf(events + [(e, now)], Next(matcher, s, e, now).loop, spec, outcome)
  {
    var l := s.loop;
    var v :| v in l.computations && l.computations[v].spec == spec && IsOutcome(events, v, spec, outcome);
    assert PhaseOk(events, v, l.computations[v]);
    OutcomeIsKept(events, e, now, v, spec, outcome);
    ComputationStays(matcher, s, e, now, v);
  }

  lemma ComputationStays(matcher: Matcher, s: System, e: Event, now: nat, v: nat)
    requires Inv(s) && Enabled(matcher, s, e, now) && v in s.loop.computations
    ensures var l' := Next(matcher, s, e, now).loop;
      v in l'.computations && l'.computations[v].spec == s.loop.computations[v].spec
  {
    if IsOwnStep(e) { OwnStepIsLocal(matcher, s, e, now); } else { HandlersGrow(matcher, s, e, now); }
  }

  lemma OutcomeIsKept(events: seq<(Event, nat)>, e: Event, now: nat, v: nat, spec: HashSpec, outcome: HashResult)
    requires IsOutcome(events, v, spec, outcome) && e != BeginRead(v) && !(e.EndRead? && e.version == v)
    ensures IsOutcome(events + [(e, now)], v, spec, outcome)
  {
    var all := events + [(e, now)];
    assert all[..|all| - 1] == events;
  }

  // What each event does to the table and to the clients

  /** Some glob of the inputs climbs out of the package. */
  ghost predicate Escapes(inputs: InputGlobs) {
    match inputs
    case Default => false
    case DefaultWithExtras(globs) => exists g :: (g in globs.includes || g in globs.excludes) && "../" <= g
    case Specific(globs) => exists g :: (g in globs.includes || g in globs.excludes) && "../" <= g
  }

  lemma EscapesIff(spec: HashSpec)
    ensures Escapes(spec.inputs) <==> !IsLocal(spec)
  {
  }

  /** No computation is touched; some may be new. */
  ghost predicate Extended(l: Loop, l': Loop) {
    forall v :: v in l.computations ==> v in l'.computations && l'.computations[v] == l.computations[v]
  }

  ghost predicate SameEntry(l: Loop, l': Loop, spec: HashSpec) {
    (spec in l'.entries <==> spec in l.entries) && (spec in l.entries ==> l'.entries[spec] == l.entries[spec])
  }

  ghost predicate SameReply(l: Loop, l': Loop, who: Sender) {
    (who in l'.replies <==> who in l.replies) && (who in l.replies ==> l'.replies[who] == l.replies[who])
  }

  ghost predicate Told(l: Loop, who: Sender, reply: Reply) {
    who in l.replies && l.replies[who] == reply
  }

  /** A new computation of `spec` under way, not begun, on behalf of `waiters`. */
  ghost predicate StartsFor(l: Loop, l': Loop, spec: HashSpec, waiters: seq<Sender>, timeout: nat) {
    && spec in l'.entries && l'.entries[spec].Pending? && l'.entries[spec].waiters == waiters
    && var v := l'.entries[spec].version;
       && v !in l.computations && v in l'.computations && l'.computations[v].spec == spec
       && l'.computations[v].phase.Debouncing? && l'.computations[v].debouncer == Debouncing.New(timeout)
  }

  lemma KnownIff(s: System, spec: HashSpec)
    requires Tracks(s)
    ensures spec in s.loop.entries ==> spec.packagePath in Packages(s.discovery)
    ensures HashSpec(spec.packagePath, Default) in s.loop.entries <==> spec.packagePath in Packages(s.discovery)
  {
    if spec in s.loop.entries { assert spec.packagePath in PackagesOf(s.loop.entries); }
    if HashSpec(spec.packagePath, Default) in s.loop.entries {
      assert HashSpec(spec.packagePath, Default).packagePath in PackagesOf(s.loop.entries);
    }
  }

  /**
   A question is turned away if a glob escapes or the package was not discovered, answered at once with what the
   table holds, and otherwise waits: for the computation under way, or for a new one that starts without delay.
   */
  lemma QueryAnswers(matcher: Matcher, s: System, who: Sender, spec: HashSpec, now: nat)
    requires Inv(s) && Enabled(matcher, s, Ask(who, spec), now)
    ensures
      var l, l' := s.loop, Next(matcher, s, Ask(who, spec), now).loop;
      && Extended(l, l') && (forall other :: other != spec ==> SameEntry(l, l', other))
      && (forall w :: w != who ==> SameReply(l, l', w))
      && (if Escapes(spec.inputs) then Told(l', who, UnsupportedGlob) && SameEntry(l, l', spec)
          else if spec.packagePath !in Packages(s.discovery)
          then Told(l', who, UnknownPackage) && SameEntry(l, l', spec)
          else if spec !in l.entries then who !in l'.replies && StartsFor(l, l', spec, [who], 0)
          else match l.entries[spec]
            case Hashes(hashes) => Told(l', who, Hashed(hashes)) && SameEntry(l, l', spec)
            case Failed(reason) => Told(l', who, HashingError(reason)) && SameEntry(l, l', spec)
            case Pending(v, waiters) =>
              who !in l'.replies && l'.entries == l.entries[spec := Pending(v, waiters + [who])])
  {
    EscapesIff(spec);
    KnownIff(s, spec);
    assert who !in s.loop.replies && s.loop.nextVersion !in s.loop.computations;
    QueryTells(s.loop, spec, who);
  }

  lemma QueryTells(l: Loop, spec: HashSpec, who: Sender)
    requires who !in l.replies && l.nextVersion !in l.computations
    requires spec.inputs.Default? && spec !in l.entries ==> HashSpec(spec.packagePath, Default) !in l.entries
    ensures
      var l' := HandleQuery(l, spec, who);
      && Extended(l, l') && (forall other :: other != spec ==> SameEntry(l, l', other))
      && (forall w :: w != who ==> SameReply(l, l', w))
      && (if !IsLocal(spec) then Told(l', who, UnsupportedGlob) && SameEntry(l, l', spec)
          else if spec !in l.entries then
            if HashSpec(spec.packagePath, Default) in l.entries
            then who !in l'.replies && StartsFor(l, l', spec, [who], 0)
            else Told(l', who, UnknownPackage) && SameEntry(l, l', spec)
          else match l.entries[spec]
            case Hashes(hashes) => Told(l', who, Hashed(hashes)) && SameEntry(l, l', spec)
            case Failed(reason) => Told(l', who, HashingError(reason)) && SameEntry(l, l', spec)
            case Pending(v, waiters) =>
              who !in l'.replies && l'.entries == l.entries[spec := Pending(v, waiters + [who])])
  {
  }

  /** An update nobody waits for any more changes nothing. */
  lemma OutdatedUpdate(matcher: Matcher, s: System, now: nat)
    requires Enabled(matcher, s, Deliver, now)
    requires var u := s.channel[0];
      !(u.spec in s.loop.entries && s.loop.entries[u.spec].Pending? && s.loop.entries[u.spec].version == u.version)
    ensures Next(matcher, s, Deliver, now).loop == s.loop
  {
  }

  ghost predicate AllTold(l: Loop, waiters: seq<Sender>, reply: Reply) {
    forall i :: 0 <= i < |waiters| ==> Told(l, waiters[i], reply)
  }

  /**
   When the update of the computation that a spec waits for is delivered, its read has ended. If it did so without
   a failure, the hashes of that read are in the table and every waiter has them; otherwise the failure is, and has
   been told to every waiter. Nothing else changes.
   */
  lemma DeliveryReports(matcher: Matcher, permits: nat, events: seq<(Event, nat)>, now: nat, spec: HashSpec)
    requires Run(matcher, permits, events).Some? && Enabled(matcher, Run(matcher, permits, events).value, Deliver, now)
    requires var s := Run(matcher, permits, events).value;
      spec in s.loop.entries && s.loop.entries[spec].Pending? && s.loop.entries[spec].version == s.channel[0].version
    ensures
      var s := Run(matcher, permits, events).value;
      var l, l' := s.loop, Next(matcher, s, Deliver, now).loop;
      var Pending(v, waiters) := l.entries[spec];
      && ReadEnded(events, v).Some? && ReadBegan(events, v).Some?
      && (match ReadEnded(events, v).value
          case None =>
            var hashes := GitHashes(spec, ReadBegan(events, v).value);
            l'.entries == l.entries[spec := Hashes(hashes)] && AllTold(l', waiters, Hashed(hashes))
          case Some(reason) =>
            l'.entries == l.entries[spec := Failed(reason)] && AllTold(l', waiters, HashingError(reason)))
      && (forall w :: w !in waiters ==> SameReply(l, l', w))
  {
    RunKeeps(matcher, permits, events);
    RunRecords(matcher, permits, events);
    var s := Run(matcher, permits, events).value;
    assert EntryOk(s.loop, s.history, spec);
    assert PhaseOk(events, s.channel[0].version, s.loop.computations[s.channel[0].version]);
    UpdateGives(s.loop, s.channel[0]);
  }

  lemma UpdateGives(l: Loop, u: Update)
    requires u.spec in l.entries && l.entries[u.spec].Pending? && l.entries[u.spec].version == u.version
    ensures
      var l', waiters := HandleUpdate(l, u), l.entries[u.spec].waiters;
      && (forall w :: w !in waiters ==> SameReply(l, l', w))
      && match u.outcome
         case Ok(hashes) => l'.entries == l.entries[u.spec := Hashes(hashes)] && AllTold(l', waiters, Hashed(hashes))
         case Err(reason) =>
           l'.entries == l.entries[u.spec := Failed(reason)] && AllTold(l', waiters, HashingError(reason))
  {
  }

  /** Whoever waits for a spec of a package outside `keep` is told why, and nobody else is told anything. */
  lemma DropTells(l: Loop, h: History, keep: set<string>, reason: string, who: Sender)
    requires WaitersOk(l, h)
    ensures
      var l' := DropOutside(l, keep, reason);
      if who in h.asked && who !in l.replies && h.asked[who].packagePath !in keep
      then Told(l', who, Unavailable(reason))
      else SameReply(l, l', who)
  {
    if who in h.asked && who !in l.replies {
      var spec, i :| WaitsAt(l, who, spec, i);
    }
    if who in WaitersOutside(l.entries, keep) {
      var spec, i :| spec in l.entries && spec.packagePath !in keep && l.entries[spec].Pending?
                     && 0 <= i < |l.entries[spec].waiters| && l.entries[spec].waiters[i] == who;
      assert WaitsAt(l, who, spec, i);
    }
  }

  /** A discovered package is tracked with its default inputs: as before, or by a computation that waits first. */
  lemma {:induction false} AddPackagesStarts(l: Loop, channel: seq<Update>, h: History, packages: seq<string>,
      spec: HashSpec)
    requires LoopInv(l, channel, h)
    ensures
      var l' := AddPackages(l, packages);
      Extended(l, l') &&
      if spec in l.entries || !(spec.inputs.Default? && spec.packagePath in packages) then SameEntry(l, l', spec)
      else StartsFor(l, l', spec, [], Debouncing.DEFAULT_TIMEOUT)
  {
    if packages != [] {
      var front, last := packages[..|packages| - 1], packages[|packages| - 1];
      assert packages == front + [last];
      var l1 := AddPackages(l, front);
      AddPackagesKeeps(l, channel, h, front);
      AddPackagesGrows(l, channel, h, front);
      AddPackagesStarts(l, channel, h, front, spec);
      assert l1.nextVersion !in l1.computations;
    }
  }

  ghost predicate PackagesStep(l: Loop, l': Loop, data: Discovery, spec: HashSpec) {
    Extended(l, l') &&
    if spec.packagePath !in Packages(data) then spec !in l'.entries
    else if spec in l.entries || !spec.inputs.Default? then SameEntry(l, l', spec)
    else StartsFor(l, l', spec, [], Debouncing.DEFAULT_TIMEOUT)
  }

  function GoneBecause(data: Discovery): string {
    if data.Some? && data.value.Ok? then "package was removed" else "package discovery is unavailable"
  }

  /**
   A discovery keeps what it knows of the packages that stay, starts the default inputs of the new ones after a
   quiet period, forgets the others and tells those who waited for them.
   */
  lemma PackagesAre(l: Loop, channel: seq<Update>, h: History, data: Discovery, order: seq<string>, spec: HashSpec,
      who: Sender)
    requires LoopInv(l, channel, h) && IsOrderOf(order, Packages(data))
    ensures
      var l' := HandlePackages(l, data, order);
      && PackagesStep(l, l', data, spec)
      && (if who in h.asked && who !in l.replies && h.asked[who].packagePath !in Packages(data)
          then Told(l', who, Unavailable(GoneBecause(data)))
          else SameReply(l, l', who))
  {
    DropTells(l, h, Packages(data), GoneBecause(data), who);
    if data.Some? && data.value.Ok? {
      var l1 := DropOutside(l, data.value.value, "package was removed");
      DropKeeps(l, channel, h, data.value.value, "package was removed");
      AddPackagesStarts(l1, channel, h, order, spec);
      AddPackagesReplies(l1, order);
    }
  }

  /** A discovery value, the loss of events and the end of the watcher, as steps of the system. */
  lemma DiscoveryStep(matcher: Matcher, s: System, e: Event, now: nat, spec: HashSpec, who: Sender)
    requires Inv(s) && Enabled(matcher, s, e, now) && e.Discovered?
    ensures
      var l, l', waits := s.loop, Next(matcher, s, e, now).loop, who in s.history.asked && who !in s.loop.replies;
      && PackagesStep(l, l', e.data, spec)
      && (if waits && s.history.asked[who].packagePath !in Packages(e.data)
          then Told(l', who, Unavailable(GoneBecause(e.data))) else SameReply(l, l', who))
  {
    PackagesAre(s.loop, s.channel, s.history, e.data, e.order, spec, who);
  }

  /** After a loss of events every package starts anew, and everybody who waited is told. */
  lemma LossStep(matcher: Matcher, s: System, e: Event, now: nat, spec: HashSpec, who: Sender)
    requires Inv(s) && Enabled(matcher, s, e, now) && e.EventsLost?
    ensures
      var l, l', waits := s.loop, Next(matcher, s, e, now).loop, who in s.history.asked && who !in s.loop.replies;
      && (if spec.inputs.Default? && spec.packagePath in Packages(s.discovery)
          then StartsFor(l, l', spec, [], Debouncing.DEFAULT_TIMEOUT) else spec !in l'.entries)
      && (if waits then Told(l', who, Unavailable(e.reason)) else SameReply(l, l', who))
  {
    var l1 := DropOutside(s.loop, {}, e.reason);
    DropTells(s.loop, s.history, {}, e.reason, who);
    DropKeeps(s.loop, s.channel, s.history, {}, e.reason);
    PackagesAre(l1, s.channel, s.history, s.discovery, e.order, spec, who);
  }

  lemma CloseStep(matcher: Matcher, s: System, now: nat, who: Sender)
    requires Inv(s) && Enabled(matcher, s, Closed, now)
    ensures
      var l, l', waits := s.loop, Next(matcher, s, Closed, now).loop, who in s.history.asked && who !in s.loop.replies;
      l'.entries == map[]
      && if waits then Told(l', who, Unavailable("file watcher closed")) else SameReply(l, l', who)
  {
    DropTells(s.loop, s.history, {}, "file watcher closed", who);
  }

  // File events

  ghost predicate Untouched(l: Loop, l': Loop, spec: HashSpec) {
    && SameEntry(l, l', spec)
    && (spec in l.entries && l.entries[spec].Pending? && l.entries[spec].version in l.computations ==>
          && l.entries[spec].version in l'.computations
          && l'.computations[l.entries[spec].version] == l.computations[l.entries[spec].version])
  }

  /** The computation a spec waits for is put off if it has not started; otherwise a new one takes its waiters over. */
  ghost predicate PutOff(l: Loop, l': Loop, spec: HashSpec, now: nat) {
    if spec in l.entries && l.entries[spec].Pending? && l.entries[spec].version in l.computations
       && !l.computations[l.entries[spec].version].debouncer.pc.Returned?
    then
      var v := l.entries[spec].version;
      && SameEntry(l, l', spec) && v in l'.computations
      && l'.computations[v] == l.computations[v].(debouncer := Debouncing.Bump(l.computations[v].debouncer, now))
    else StartsFor(l, l', spec, WaitersAt(l, spec), Debouncing.DEFAULT_TIMEOUT)
  }

  lemma TouchOther(l: Loop, channel: seq<Update>, h: History, spec: HashSpec, other: HashSpec)
    requires LoopInv(l, channel, h) && other != spec
    ensures Untouched(l, Touch(l, spec, h.clock), other)
  {
    if other in l.entries { assert EntryOk(l, h, other); }
    if spec in l.entries { assert EntryOk(l, h, spec); }
  }

  lemma TouchOne(l: Loop, channel: seq<Update>, h: History, spec: HashSpec)
    requires LoopInv(l, channel, h)
    ensures PutOff(l, Touch(l, spec, h.clock), spec, h.clock)
  {
    assert l.nextVersion !in l.computations;
    if spec in l.entries && l.entries[spec].Pending? {
      assert EntryOk(l, h, spec);
      assert ComputationOk(l.computations[l.entries[spec].version], h.clock);
    }
  }

  lemma UntouchedThenPutOff(l: Loop, l1: Loop, l2: Loop, spec: HashSpec, now: nat)
    requires Grown(l, l1) && Untouched(l, l1, spec) && PutOff(l1, l2, spec, now)
    requires spec in l.entries && l.entries[spec].Pending? ==> l.entries[spec].version in l.computations
    ensures PutOff(l, l2, spec, now)
  {
  }

  lemma PutOffThenUntouched(l: Loop, l1: Loop, l2: Loop, spec: HashSpec, now: nat)
    requires PutOff(l, l1, spec, now) && Untouched(l1, l2, spec)
    ensures PutOff(l, l2, spec, now)
  {
  }

  lemma {:induction false} TouchAllIs(l: Loop, channel: seq<Update>, h: History, specs: seq<HashSpec>, spec: HashSpec)
    requires LoopInv(l, channel, h) && forall i, j :: 0 <= i < j < |specs| ==> specs[i] != specs[j]
    ensures
      var l' := TouchAll(l, specs, h.clock);
      if spec in specs then PutOff(l, l', spec, h.clock) else Untouched(l, l', spec)
  {
    if specs != [] {
      var front, last := specs[..|specs| - 1], specs[|specs| - 1];
      assert specs == front + [last] && last !in front;
      var l1, h1 := TouchAll(l, front, h.clock), h.(touched := h.touched + map s | s in front :: h.clock);
      TouchAllKeeps(l, channel, h, front);
      TouchAllIs(l, channel, h, front, spec);
      TouchAllGrows(l, channel, h, front);
      if spec in l.entries { assert EntryOk(l, h, spec); }
      var l2 := Touch(l1, last, h.clock);
      if spec == last {
        TouchOne(l1, channel, h1, spec);
        UntouchedThenPutOff(l, l1, l2, spec, h.clock);
      } else {
        TouchOther(l1, channel, h1, last, spec);
        if spec in specs { PutOffThenUntouched(l, l1, l2, spec, h.clock); }
      }
    }
  }

  /** A file event puts off what it touches, leaves the rest alone and answers nobody. */
  lemma FileStep(matcher: Matcher, s: System, e: Event, now: nat, spec: HashSpec, who: Sender)
    requires Inv(s) && Enabled(matcher, s, e, now) && e.FileEvent?
    ensures
      var l, l' := s.loop, Next(matcher, s, e, now).loop;
      && (if spec in e.specs then PutOff(l, l', spec, now) else Untouched(l, l', spec))
      && SameReply(l, l', who)
  {
    TickKeeps(s.loop, s.channel, s.history, now);
    TouchAllIs(s.loop, s.channel, s.history.(clock := now), e.specs, spec);
    TouchAllReplies(s.loop, e.specs, now);
  }

  // Over a whole run

  /** An entry after a step that is not the delivery of its update is the one before, or waits. */
  lemma EntriesStay(matcher: Matcher, s: System, e: Event, now: nat, spec: HashSpec)
    requires Inv(s) && Enabled(matcher, s, e, now) && spec in Next(matcher, s, e, now).loop.entries
    ensures
      var l, l' := s.loop, Next(matcher, s, e, now).loop;
      || l'.entries[spec].Pending? || (spec in l.entries && l'.entries[spec] == l.entries[spec])
      || (e.Deliver? && s.channel[0].spec == spec && l'.entries[spec]
          == match s.channel[0].outcome case Ok(hashes) => Hashes(hashes) case Err(reason) => Failed(reason))
  {
    match e
    case Discovered(_, _) => DiscoveryStep(matcher, s, e, now, spec, 0);
    case FileEvent(_, _) => FileStep(matcher, s, e, now, spec, 0);
    case EventsLost(_, _) => LossStep(matcher, s, e, now, spec, 0);
    case Closed =>
    case Ask(who, asked) =>
      QueryAnswers(matcher, s, who, asked, now);
      assert spec != asked ==> SameEntry(s.loop, Next(matcher, s, e, now).loop, spec);
    case _ =>
  }

  /** A reply with hashes or an error is an old one, or says what the table holds, or what an update brings. */
  lemma RepliesStay(matcher: Matcher, s: System, e: Event, now: nat, who: Sender)
    requires Inv(s) && Enabled(matcher, s, e, now) && who in Next(matcher, s, e, now).loop.replies
    ensures
      var l, l' := s.loop, Next(matcher, s, e, now).loop;
      var reply := l'.replies[who];
      || Told(l, who, reply) || !(reply.Hashed? || reply.HashingError?)
      || (e.Ask? && e.who == who && e.spec in l.entries
          && (l.entries[e.spec] == if reply.Hashed? then Hashes(reply.hashes) else Failed(reply.reason)))
      || (e.Deliver? && who in s.history.asked && s.history.asked[who] == s.channel[0].spec
          && (s.channel[0].outcome == if reply.Hashed? then Ok(reply.hashes) else Err(reply.reason)))
  {
    var spec := HashSpec("", Default);
    match e
    case Discovered(_, _) => DiscoveryStep(matcher, s, e, now, spec, who);
    case FileEvent(_, _) => FileStep(matcher, s, e, now, spec, who);
    case EventsLost(_, _) => LossStep(matcher, s, e, now, spec, who);
    case Closed => CloseStep(matcher, s, now, who);
    case Ask(w, asked) =>
      QueryAnswers(matcher, s, w, asked, now);
      assert who != w ==> SameReply(s.loop, Next(matcher, s, e, now).loop, who);
    case Deliver => DeliverReplies(s.loop, s.channel, s.history, who);
    case _ =>
  }

  lemma UpdateCameOf(s: System, events: seq<(Event, nat)>)
    requires Inv(s) && Recorded(events, s.loop) && s.channel != []
    ensures CameOf(events, s.loop, s.channel[0].spec, s.channel[0].outcome)
  {
    var u := s.channel[0];
    assert PhaseOk(events, u.version, s.loop.computations[u.version]);
  }

  lemma StepReports(matcher: Matcher, s: System, events: seq<(Event, nat)>, e: Event, now: nat)
    requires Inv(s) && Enabled(matcher, s, e, now) && Recorded(events, s.loop) && Reported(events, s.loop, s.history)
    ensures var s' := Next(matcher, s, e, now); Reported(events + [(e, now)], s'.loop, s'.history)
  {
    var s', all := Next(matcher, s, e, now), events + [(e, now)];
    if e.Deliver? { UpdateCameOf(s, events); }
    forall spec, outcome | CameOf(events, s.loop, spec, outcome) ensures CameOf(all, s'.loop, spec, outcome) {
      CameOfIsKept(matcher, s, events, e, now, spec, outcome);
    }
    forall spec | spec in s'.loop.entries ensures EntryCameOf(all, s'.loop, spec, s'.loop.entries[spec]) {
      EntriesStay(matcher, s, e, now, spec);
      if spec in s.loop.entries { assert EntryCameOf(events, s.loop, spec, s.loop.entries[spec]); }
    }
    forall who | who in s'.loop.replies && who in s'.history.asked
      ensures ReplyCameOf(all, s'.loop, s'.history.asked[who], s'.loop.replies[who])
    {
      RepliesStay(matcher, s, e, now, who);
      if who in s.loop.replies { assert ReplyCameOf(events, s.loop, s.history.asked[who], s.loop.replies[who]); }
      if e.Ask? && e.spec in s.loop.entries { assert EntryCameOf(events, s.loop, e.spec, s.loop.entries[e.spec]); }
    }
  }

  lemma {:induction false} RunReports(matcher: Matcher, permits: nat, events: seq<(Event, nat)>)
    requires Run(matcher, permits, events).Some?
    ensures var s := Run(matcher, permits, events).value; Reported(events, s.loop, s.history)
    decreases |events|
  {
    if events != [] {
      var front, s, e, now := LastEvent(matcher, permits, events);
      RunReports(matcher, permits, front);
      RunRecords(matcher, permits, front);
      StepReports(matcher, s, front, e, now);
    }
  }

  /**
   In every run, hashes in the table are those of a read of that very spec that ended without a failure, and a failure
   in the table is one that a read of that spec ended with.
   */
  lemma TableIsTrue(matcher: Matcher, permits: nat, events: seq<(Event, nat)>, spec: HashSpec)
    requires Run(matcher, permits, events).Some? && spec in Run(matcher, permits, events).value.loop.entries
    ensures
      var l := Run(matcher, permits, events).value.loop;
      match l.entries[spec]
      case Hashes(hashes) =>
        exists v :: v in l.computations && l.computations[v].spec == spec && ReadGave(events, v, spec, hashes)
      case Failed(reason) =>
        exists v :: v in l.computations && l.computations[v].spec == spec && ReadFailed(events, v, reason)
      case Pending(v, _) => v in l.computations && l.computations[v].spec == spec
  {
    RunReports(matcher, permits, events);
    RunKeeps(matcher, permits, events);
    var s := Run(matcher, permits, events).value;
    assert EntryCameOf(events, s.loop, spec, s.loop.entries[spec]) && EntryOk(s.loop, s.history, spec);
    if s.loop.entries[spec].Hashes? {
      var v :| v in s.loop.computations && s.loop.computations[v].spec == spec
               && IsOutcome(events, v, spec, Ok(s.loop.entries[spec].hashes));
      assert ReadGave(events, v, spec, s.loop.entries[spec].hashes);
    } else if s.loop.entries[spec].Failed? {
      var v :| v in s.loop.computations && s.loop.computations[v].spec == spec
               && IsOutcome(events, v, spec, Err(s.loop.entries[spec].reason));
      assert ReadFailed(events, v, s.loop.entries[spec].reason);
    }
  }

  /** And the same goes for what a client was told about the spec it asked for. */
  lemma AnswersAreTrue(matcher: Matcher, permits: nat, events: seq<(Event, nat)>, who: Sender)
    requires Run(matcher, permits, events).Some? && who in Run(matcher, permits, events).value.loop.replies
    ensures
      var s := Run(matcher, permits, events).value;
      var l := s.loop;
      && who in s.history.asked
      && match l.replies[who]
         case Hashed(hashes) =>
           var spec := s.history.asked[who];
           exists v :: v in l.computations && l.computations[v].spec == spec && ReadGave(events, v, spec, hashes)
         case HashingError(reason) =>
           exists v :: v in l.computations && l.computations[v].spec == s.history.asked[who]
                       && ReadFailed(events, v, reason)
         case _ => true
  {
    RunReports(matcher, permits, events);
    RunKeeps(matcher, permits, events);
    var s := Run(matcher, permits, events).value;
    var l, spec := s.loop, s.history.asked[who];
    assert ReplyCameOf(events, l, spec, l.replies[who]);
    if l.replies[who].Hashed? {
      var v :| v in l.computations && l.computations[v].spec == spec
               && IsOutcome(events, v, spec, Ok(l.replies[who].hashes));
      assert ReadGave(events, v, spec, l.replies[who].hashes);
    } else if l.replies[who].HashingError? {
      var v :| v in l.computations && l.computations[v].spec == spec
               && IsOutcome(events, v, spec, Err(l.replies[who].reason));
      assert ReadFailed(events, v, l.replies[who].reason);
    }
  }

  // The tracked packages

  /** The last discovery value of the run. */
  function LastDiscovery(events: seq<(Event, nat)>): Discovery {
    if events == [] then None else
    var e := events[|events| - 1].0;
    if e.Discovered? then e.data else LastDiscovery(events[..|events| - 1])
  }

  lemma {:induction false} DiscoveryIsLast(matcher: Matcher, permits: nat, events: seq<(Event, nat)>)
    requires Run(matcher, permits, events).Some?
    ensures Run(matcher, permits, events).value.discovery == LastDiscovery(events)
    decreases |events|
  {
    if events != [] {
      var front, s, e, now := LastEvent(matcher, permits, events);
      DiscoveryIsLast(matcher, permits, front);
      assert events[..|events| - 1] == front;
    }
  }

  /**
   In every run, while the watcher is running, exactly the packages of the last discovery value are tracked, each with
   its default inputs; none if there was no value yet or it was an error.
   */
  lemma DiscoveredAreTracked(matcher: Matcher, permits: nat, events: seq<(Event, nat)>)
    requires Run(matcher, permits, events).Some? && Run(matcher, permits, events).value.running
    ensures
      var entries := Run(matcher, permits, events).value.loop.entries;
      match LastDiscovery(events)
      case Some(Ok(packages)) =>
        && (forall spec :: spec in entries ==> spec.packagePath in packages)
        && (forall p :: p in packages ==> HashSpec(p, Default) in entries)
      case _ => entries == map[]
  {
    RunKeeps(matcher, permits, events);
    DiscoveryIsLast(matcher, permits, events);
    var s := Run(matcher, permits, events).value;
    forall spec | spec in s.loop.entries ensures spec.packagePath in Packages(s.discovery) { KnownIff(s, spec); }
  }

  // The semaphore

  lemma HandlersHoldNothing(matcher: Matcher, s: System, e: Event, now: nat)
    requires Inv(s) && Enabled(matcher, s, e, now) && !IsOwnStep(e)
    ensures Holders(Next(matcher, s, e, now).loop) == Holders(s.loop)
  {
    HandlersGrow(matcher, s, e, now);
  }

  predicate Holds(c: Computation) {
    c.phase.Acquired? || c.phase.Reading? || c.phase.Sending?
  }

  lemma HoldersHold(l: Loop)
    ensures Holders(l) == set v | v in l.computations && Holds(l.computations[v])
  {
  }

  lemma OwnStepHolds(l: Loop, l': Loop, v: nat)
    requires v in l.computations && v in l'.computations
    requires l'.computations == l.computations[v := l'.computations[v]]
    ensures |Holders(l')| <= |Holders(l)| + if Holds(l'.computations[v]) && !Holds(l.computations[v]) then 1 else 0
  {
    if Holds(l'.computations[v]) {
      assert Holders(l') == Holders(l) + {v};
    } else {
      assert Holders(l') == Holders(l) - {v};
    }
  }

  /** Never more computations between acquiring and sending than the semaphore has permits. */
  lemma {:induction false} ReadsAreBounded(matcher: Matcher, permits: nat, events: seq<(Event, nat)>)
    requires Run(matcher, permits, events).Some?
    ensures var cs := Run(matcher, permits, events).value.loop.computations;
      |set v | v in cs && Holds(cs[v])| <= permits
    decreases |events|
  {
    HoldersHold(Run(matcher, permits, events).value.loop);
    if events == [] {
      assert Holders(Start(permits).loop) == {};
    } else {
      var front, s, e, now := LastEvent(matcher, permits, events);
      ReadsAreBounded(matcher, permits, front);
      HoldersHold(s.loop);
      RunKeeps(matcher, permits, front);
      if IsOwnStep(e) {
        OwnStepIsLocal(matcher, s, e, now);
        OwnStepHolds(s.loop, Next(matcher, s, e, now).loop, e.version);
      } else {
        HandlersHoldNothing(matcher, s, e, now);
      }
    }
  }
}
