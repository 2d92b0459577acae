/**
 The subscriber that owns the hash table and updates it in place. The whole system around it is a ghost field: every
 handler is one step of that system, so what is proved of all runs holds of the object.
 */
module HashSubscriber {
  import opened Basics
  import opened Globs
  import opened HashState
  import opened HashWatcher
  import Debouncing
  import HashSafety
  import PackagePaths

  class Subscriber {
    const matcher: Matcher
    var packageData: Discovery
    var entries: map<HashSpec, HashState>
    var nextVersion: nat
    var computations: map<nat, Computation>
    var replies: map<Sender, Reply>
    ghost var system: System

    ghost function View(): Loop
      reads this
    {
      Loop(entries, nextVersion, computations, replies)
    }

    /** The object is the loop of a system that keeps the invariant of all runs. */
    ghost predicate Valid()
      reads this
    {
      HashSafety.Inv(system) && system.loop == View() && system.discovery == packageData
    }

    /** The system makes a step. */
    ghost predicate Steps(before: System, e: Event, now: nat)
      reads this
    {
      Enabled(matcher, before, e, now) && system == Next(matcher, before, e, now)
    }

    constructor (matcher: Matcher, ghost permits: nat)
      ensures Valid() && system == Start(permits) && this.matcher == matcher
    {
      this.matcher, packageData := matcher, None;
      entries, nextVersion, computations, replies := map[], 0, map[], map[];
      system := Start(permits);
      HashSafety.RunKeeps(matcher, permits, []);
    }

    method Send(who: Sender, reply: Reply)
      modifies this`entries, this`nextVersion, this`computations, this`replies
      ensures View() == Answer(old(View()), who, reply)
    {
      replies := replies[who := reply];
    }

    method SendAll(waiters: seq<Sender>, reply: Reply)
      modifies this`entries, this`nextVersion, this`computations, this`replies
      ensures View() == AnswerAll(old(View()), waiters, reply)
    {
      var i := 0;
      while i < |waiters|
        invariant 0 <= i <= |waiters|
        invariant View() == AnswerAll(old(View()), waiters[..i], reply)
      {
        AnswerOneMore(old(View()), waiters, i, reply);
        Send(waiters[i], reply);
        i := i + 1;
      }
      assert waiters[..i] == waiters;
    }

    method QueuePackageHash(spec: HashSpec, immediate: bool) returns (version: nat)
      modifies this`entries, this`nextVersion, this`computations, this`replies
      ensures View() == Queue(old(View()), spec, immediate) && version == old(nextVersion)
    {
      version := nextVersion;
      nextVersion := nextVersion + 1;
      var timeout := if immediate then 0 else Debouncing.DEFAULT_TIMEOUT;
      computations := computations[version := Computation(spec, Debouncing.New(timeout), Debouncing)];
    }

    method HandleQueryNow(spec: HashSpec, who: Sender, ghost now: nat)
      requires Valid() && Enabled(matcher, system, Ask(who, spec), now)
      modifies this
      ensures Valid() && Steps(old(system), Ask(who, spec), now)
    {
      HashSafety.NextKeeps(matcher, system, Ask(who, spec), now);
      system := Next(matcher, system, Ask(who, spec), now);
      if !IsLocal(spec) {
        Send(who, UnsupportedGlob);
        return;
      }
      if spec in entries {
        match entries[spec]
        case Hashes(hashes) => Send(who, Hashed(hashes));
        case Pending(version, waiters) => entries := entries[spec := Pending(version, waiters + [who])];
        case Failed(reason) => Send(who, HashingError(reason));
      } else if !spec.inputs.Default? && HashSpec(spec.packagePath, Default) in entries {
        var version := QueuePackageHash(spec, true);
        entries := entries[spec := Pending(version, [who])];
      } else {
        Send(who, UnknownPackage);
      }
    }

    /** The oldest update in the channel is received. */
    method HandleHashUpdate(u: Update, ghost now: nat)
      requires Valid() && Enabled(matcher, system, Deliver, now) && u == system.channel[0]
      modifies this
      ensures Valid() && Steps(old(system), Deliver, now)
    {
      HashSafety.NextKeeps(matcher, system, Deliver, now);
      system := Next(matcher, system, Deliver, now);
      if u.spec in entries && entries[u.spec].Pending? && entries[u.spec].version == u.version {
        match u.outcome
        case Ok(hashes) =>
          SendAll(entries[u.spec].waiters, Hashed(hashes));
          entries := entries[u.spec := Hashes(hashes)];
        case Err(reason) =>
          SendAll(entries[u.spec].waiters, HashingError(reason));
          entries := entries[u.spec := Failed(reason)];
      }
    }

    /** Bump the debouncer behind a version; the answer says whether the computation had not started. */
    method BumpDebouncer(version: nat, now: nat) returns (ok: bool)
      modifies this`entries, this`nextVersion, this`computations, this`replies
      ensures ok == CanBump(old(View()), version)
      ensures View() == if ok then BumpVersion(old(View()), version, now) else old(View())
    {
      ok := version in computations && computations[version].debouncer.serial.Some?;
      if ok {
        var c := computations[version];
        computations := computations[version := c.(debouncer := Debouncing.Bump(c.debouncer, now))];
      }
    }

    /** `get_changed_specs`: the specs of the package around a file that the change is relevant to. */
    method GetChangedSpecs(file: string) returns (changed: set<HashSpec>)
      ensures changed == ChangedSpecs(matcher, entries, file)
    {
      var keys := PackagesOf(entries);
      var ancestor := GetAncestor(keys, file);
      LookupIsAncestor(keys, file, ancestor);
      if ancestor.Some? && PackagePaths.Contains(ancestor.value, file) {
        var p := ancestor.value;
        var inPackage := Within(p, file);
        changed := set spec | spec in entries && spec.packagePath == p
                              && (spec.inputs.Specific? ==> Matches(matcher, spec.inputs.globs, inPackage));
      } else {
        changed := {};
      }
    }

    /** The specs that any of the files touches. */
    method CollectChangedSpecs(files: seq<string>) returns (changed: set<HashSpec>)
      ensures changed == AllChangedSpecs(matcher, entries, files)
    {
      changed := {};
      for i := 0 to |files|
        invariant changed == AllChangedSpecs(matcher, entries, files[..i])
      {
        var more := GetChangedSpecs(files[i]);
        ChangedByOneMore(matcher, entries, files, i);
        changed := changed + more;
      }
      assert files[..|files|] == files;
    }

    method HandleFileEvent(files: seq<string>, now: nat) returns (ghost order: seq<HashSpec>)
      requires Valid() && system.running && system.history.clock < now
      modifies this
      ensures Valid() && Steps(old(system), FileEvent(files, order), now)
    {
      var changed := CollectChangedSpecs(files);
      order := HandleChangedSpecs(changed, now);
      HashSafety.NextKeeps(matcher, system, FileEvent(files, order), now);
      system := Next(matcher, system, FileEvent(files, order), now);
    }

    /** Postpone the computation a changed spec waits for, or start a new one. */
    method HandleChangedSpec(spec: HashSpec, now: nat)
      modifies this`entries, this`nextVersion, this`computations, this`replies
      ensures View() == Touch(old(View()), spec, now)
    {
      if spec in entries && entries[spec].Pending? {
        var Pending(version, waiters) := entries[spec];
        var ok := BumpDebouncer(version, now);
        if !ok {
          var v := QueuePackageHash(spec, false);
          entries := entries[spec := Pending(v, waiters)];
        }
      } else {
        var v := QueuePackageHash(spec, false);
        entries := entries[spec := Pending(v, [])];
      }
    }

    /** The second half of `handle_file_event`: treat every changed spec. */
    method HandleChangedSpecs(changed: set<HashSpec>, now: nat) returns (ghost order: seq<HashSpec>)
      modifies this`entries, this`nextVersion, this`computations, this`replies
      ensures IsOrderOf(order, changed) && View() == TouchAll(old(View()), order, now)
    {
      order := [];
      var todo := changed;
      while todo != {}
        invariant todo <= changed && IsOrderOf(order, changed - todo)
        invariant View() == TouchAll(old(View()), order, now)
        decreases |todo|
      {
        var spec :| spec in todo;
        HandleChangedSpec(spec, now);
        OrderOneMore(order, changed, todo, spec);
        assert (order + [spec])[..|order|] == order;
        order := order + [spec];
        todo := todo - {spec};
      }
      assert changed - {} == changed;
    }

    /** A spec goes back into the table, or its waiters are told why it does not. */
    method DropOne(spec: HashSpec, state: HashState, keep: set<string>, reason: string)
      modifies this`entries, this`nextVersion, this`computations, this`replies
      ensures View() == DropSpec(old(View()), spec, state, keep, reason)
    {
      if spec.packagePath in keep {
        entries := entries[spec := state];
      } else if state.Pending? {
        SendAll(state.waiters, Unavailable(reason));
      }
    }

    /** Rebuild the table without the packages outside `keep`, answering whoever waited for them. */
    method DropMatching(keep: set<string>, reason: string)
      modifies this`entries, this`nextVersion, this`computations, this`replies
      ensures View() == DropOutside(old(View()), keep, reason)
    {
      ghost var l := View();
      var previous := entries;
      entries := map[];
      var todo := previous.Keys;
      DroppedNone(l, previous - todo, keep, reason);
      while todo != {}
        invariant todo <= previous.Keys
        invariant View() == Dropped(l, previous - todo, keep, reason)
        decreases |todo|
      {
        var spec :| spec in todo;
        DroppedOneMore(l, previous, todo, spec, keep, reason);
        DropOne(spec, previous[spec], keep, reason);
        todo := todo - {spec};
      }
      assert previous - {} == previous;
    }

    method AddNewPackage(package: string)
      modifies this`entries, this`nextVersion, this`computations, this`replies
      ensures View() == AddPackage(old(View()), package)
    {
      var spec := HashSpec(package, Default);
      if spec !in entries {
        var version := QueuePackageHash(spec, false);
        entries := entries[spec := Pending(version, [])];
      }
    }

    /** Drop the packages that are gone and add the new ones. */
    method ReplacePackages(data: Discovery) returns (ghost order: seq<string>)
      modifies this`entries, this`nextVersion, this`computations, this`replies
      ensures IsOrderOf(order, Packages(data)) && View() == HandlePackages(old(View()), data, order)
    {
      order := [];
      if data.Some? && data.value.Ok? {
        var packages := data.value.value;
        DropMatching(packages, "package was removed");
        ghost var l := View();
        var todo := packages;
        while todo != {}
          invariant todo <= packages && IsOrderOf(order, packages - todo)
          invariant View() == AddPackages(l, order)
          decreases |todo|
        {
          var package :| package in todo;
          AddNewPackage(package);
          OrderOneMore(order, packages, todo, package);
          assert (order + [package])[..|order|] == order;
          order := order + [package];
          todo := todo - {package};
        }
        assert packages - {} == packages;
      } else {
        DropMatching({}, "package discovery is unavailable");
      }
    }

    method HandlePackageDataUpdate(data: Discovery, ghost now: nat) returns (ghost order: seq<string>)
      requires Valid() && system.running && system.history.clock < now
      modifies this
      ensures Valid() && Steps(old(system), Discovered(data, order), now)
    {
      packageData := data;
      order := ReplacePackages(data);
      HashSafety.NextKeeps(matcher, system, Discovered(data, order), now);
      system := Next(matcher, system, Discovered(data, order), now);
    }

    /** A watcher error, or events lost to lag. */
    method Flush(reason: string, ghost now: nat) returns (ghost order: seq<string>)
      requires Valid() && system.running && system.history.clock < now
      modifies this
      ensures Valid() && Steps(old(system), EventsLost(reason, order), now)
    {
      DropMatching({}, reason);
      order := ReplacePackages(packageData);
      HashSafety.NextKeeps(matcher, system, EventsLost(reason, order), now);
      system := Next(matcher, system, EventsLost(reason, order), now);
    }

    /** The file watcher is gone: everybody who waits is told, and the loop ends. */
    method Close(ghost now: nat)
      requires Valid() && system.running && system.history.clock < now
      modifies this
      ensures Valid() && Steps(old(system), Closed, now) && entries == map[]
      ensures forall who :: who in old(system).history.asked ==> who in replies
    {
      DropMatching({}, "file watcher closed");
      HashSafety.NextKeeps(matcher, system, Closed, now);
      system := Next(matcher, system, Closed, now);
      HashSafety.ClosedMeansAnswered(system);
    }
  }

  /** The trie's `get_ancestor`, here by a scan: the longest key that is a string prefix of the file. */
  method GetAncestor(keys: set<string>, file: string) returns (found: Option<string>)
    ensures found.Some? ==> PackagePaths.IsLongestKey(keys, file, found.value)
    ensures found.None? ==> forall q :: q in keys ==> !(q <= file)
  {
    found := None;
    var todo := keys;
    while todo != {}
      invariant todo <= keys
      invariant found.Some? ==> PackagePaths.IsLongestKey(keys - todo, file, found.value)
      invariant found.None? ==> forall q :: q in keys - todo ==> !(q <= file)
      decreases |todo|
    {
      var k :| k in todo;
      assert forall q :: q in keys - (todo - {k}) ==> q == k || q in keys - todo;
      if k <= file && (found.None? || |k| > |found.value|) { found := Some(k); }
      todo := todo - {k};
    }
    assert keys - {} == keys;
  }

  lemma LookupIsAncestor(keys: set<string>, file: string, found: Option<string>)
    requires found.Some? ==> PackagePaths.IsLongestKey(keys, file, found.value)
    requires found.None? ==> forall q :: q in keys ==> !(q <= file)
    ensures PackagePaths.Lookup(keys, file)
         == if found.Some? && PackagePaths.Contains(found.value, file) then found else None
  {
    forall p | PackagePaths.IsLongestKey(keys, file, p)
      ensures found.Some? && found.value == p
    {
      PackagePaths.LongestKeyIsUnique(file, p, found.value);
    }
  }

  lemma ChangedByOneMore(matcher: Matcher, entries: map<HashSpec, HashState>, files: seq<string>, i: nat)
    requires i < |files|
    ensures AllChangedSpecs(matcher, entries, files[..i + 1])
         == AllChangedSpecs(matcher, entries, files[..i]) + ChangedSpecs(matcher, entries, files[i])
  {
    var a, b := files[..i], files[..i + 1];
    assert b == a + [files[i]];
    forall spec | spec in AllChangedSpecs(matcher, entries, b)
      ensures spec in AllChangedSpecs(matcher, entries, a) + ChangedSpecs(matcher, entries, files[i])
    {
      var k :| 0 <= k < |b| && spec in ChangedSpecs(matcher, entries, b[k]);
      if k < i { assert b[k] == a[k]; }
    }
    forall spec | spec in AllChangedSpecs(matcher, entries, a)
      ensures spec in AllChangedSpecs(matcher, entries, b)
    {
      var k :| 0 <= k < |a| && spec in ChangedSpecs(matcher, entries, a[k]);
      assert b[k] == a[k];
    }
    assert b[i] == files[i];
  }

  lemma AnswerOneMore(l: Loop, waiters: seq<Sender>, i: nat, reply: Reply)
    requires i < |waiters|
    ensures Answer(AnswerAll(l, waiters[..i], reply), waiters[i], reply) == AnswerAll(l, waiters[..i + 1], reply)
  {
    assert waiters[..i + 1] == waiters[..i] + [waiters[i]];
    assert AnswerAll(l, waiters[..i], reply).replies[waiters[i] := reply]
        == AnswerAll(l, waiters[..i + 1], reply).replies;
  }

  lemma OrderOneMore<T(!new)>(order: seq<T>, all: set<T>, todo: set<T>, x: T)
    requires todo <= all && x in todo && IsOrderOf(order, all - todo)
    ensures IsOrderOf(order + [x], all - (todo - {x}))
  {
    assert all - (todo - {x}) == (all - todo) + {x};
  }

  function Kept(entries: map<HashSpec, HashState>, keep: set<string>): map<HashSpec, HashState> {
    map spec | spec in entries && spec.packagePath in keep :: entries[spec]
  }

  lemma KeptOneMore(entries: map<HashSpec, HashState>, todo: set<HashSpec>, spec: HashSpec, keep: set<string>)
    requires todo <= entries.Keys && spec in todo
    ensures Kept(entries - (todo - {spec}), keep)
         == if spec.packagePath in keep then Kept(entries - todo, keep)[spec := entries[spec]]
             else Kept(entries - todo, keep)
  {
  }

  /** The loop's state after the specs of `part` have been sorted out. */
  function Dropped(l: Loop, part: map<HashSpec, HashState>, keep: set<string>, reason: string): Loop {
    l.(entries := Kept(part, keep),
       replies := l.replies + map w | w in WaitersOutside(part, keep) :: Unavailable(reason))
  }

  function DropSpec(l: Loop, spec: HashSpec, state: HashState, keep: set<string>, reason: string): Loop {
    if spec.packagePath in keep then l.(entries := l.entries[spec := state])
    else if state.Pending? then AnswerAll(l, state.waiters, Unavailable(reason))
    else l
  }

  lemma DroppedNone(l: Loop, part: map<HashSpec, HashState>, keep: set<string>, reason: string)
    requires part == map[]
    ensures Dropped(l, part, keep, reason) == l.(entries := map[])
  {
    assert WaitersOutside(part, keep) == {};
  }

  lemma DroppedOneMore(l: Loop, entries: map<HashSpec, HashState>, todo: set<HashSpec>, spec: HashSpec,
      keep: set<string>, reason: string)
    requires todo <= entries.Keys && spec in todo
    ensures Dropped(l, entries - (todo - {spec}), keep, reason)
         == DropSpec(Dropped(l, entries - todo, keep, reason), spec, entries[spec], keep, reason)
  {
    KeptOneMore(entries, todo, spec, keep);
    AnsweredOneMore(l.replies, entries, todo, spec, keep, reason);
  }

  lemma AnsweredOneMore(replies: map<Sender, Reply>, entries: map<HashSpec, HashState>, todo: set<HashSpec>,
      spec: HashSpec, keep: set<string>, reason: string)
    requires todo <= entries.Keys && spec in todo
    ensures
      var before := replies + map w | w in WaitersOutside(entries - todo, keep) :: Unavailable(reason);
      replies + (map w | w in WaitersOutside(entries - (todo - {spec}), keep) :: Unavailable(reason))
      == if spec.packagePath !in keep && entries[spec].Pending?
         then before + map w | w in entries[spec].waiters :: Unavailable(reason)
         else before
  {
    WaitersSplit(entries, todo, spec, keep);
  }

  lemma WaitersSplit(entries: map<HashSpec, HashState>, todo: set<HashSpec>, spec: HashSpec, keep: set<string>)
    requires todo <= entries.Keys && spec in todo
    ensures WaitersOutside(entries - (todo - {spec}), keep)
         == WaitersOutside(entries - todo, keep)
            + if spec.packagePath !in keep && entries[spec].Pending? then set w | w in entries[spec].waiters else {}
  {
    var a, b := entries - todo, entries - (todo - {spec});
    forall w | w in WaitersOutside(b, keep)
      ensures w in WaitersOutside(a, keep) || (spec.packagePath !in keep && entries[spec].Pending?
          && w in entries[spec].waiters)
    {
      var s, i :| s in b && s.packagePath !in keep && b[s].Pending? && 0 <= i < |b[s].waiters| && b[s].waiters[i] == w;
      if s != spec { assert s in a && a[s].waiters[i] == w; }
    }
    forall w | w in WaitersOutside(a, keep)
      ensures w in WaitersOutside(b, keep)
    {
      var s, i :| s in a && s.packagePath !in keep && a[s].Pending? && 0 <= i < |a[s].waiters| && a[s].waiters[i] == w;
      assert s in b && b[s].waiters[i] == w;
    }
    if spec.packagePath !in keep && entries[spec].Pending? {
      forall w | w in entries[spec].waiters
        ensures w in WaitersOutside(b, keep)
      {
        var i :| 0 <= i < |entries[spec].waiters| && entries[spec].waiters[i] == w;
        assert spec in b && b[spec].waiters[i] == w;
      }
    }
  }
}
