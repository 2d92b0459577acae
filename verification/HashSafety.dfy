/**
 What every step of the hash watcher keeps, and what follows for every run: answers are fresh, no
 client is lost, exactly the discovered packages are tracked, and the system only comes to rest
 when nobody waits.
 */
module HashSafety {
  import opened Basics
  import opened Globs
  import opened HashState
  import opened HashWatcher
  import Debouncing
  import PackagePaths

  // The invariant, in four parts

  /** A read that began at `t` saw every change to `spec` that has been processed or lost so far. */
  ghost predicate FreshAt(h: History, spec: HashSpec, t: nat) {
    h.flushed < t && (spec in h.touched ==> h.touched[spec] < t)
  }

  function Began(c: Computation): Option<nat> {
    match c.phase
    case Debouncing => None
    case Acquired => None
    case Reading(began) => Some(began)
    case Sending(began, _) => Some(began)
    case Sent(began, _) => Some(began)
  }

  ghost predicate OutcomeOf(spec: HashSpec, began: nat, outcome: HashResult) {
    outcome.Ok? ==> outcome.value == GitHashes(spec, began)
  }

  ghost predicate ComputationOk(c: Computation, clock: nat) {
    && Debouncing.Valid(c.debouncer, clock)
    && (!c.phase.Debouncing? ==> c.debouncer.pc.Returned?)
    && (Began(c).Some? ==> Began(c).value <= clock)
    && (c.phase.Sending? || c.phase.Sent? ==> OutcomeOf(c.spec, c.phase.began, c.phase.outcome))
  }

  /** Versions count the computations, so none is ever reused. */
  ghost predicate ComputationsOk(l: Loop, h: History) {
    && (forall v: nat :: v in l.computations <==> v < l.nextVersion)
    && (forall v :: v in l.computations ==> ComputationOk(l.computations[v], h.clock))
    && h.flushed <= h.clock
    && (forall spec :: spec in h.touched ==> h.touched[spec] <= h.clock)
  }

  ghost predicate EntryOk(l: Loop, h: History, spec: HashSpec)
    requires spec in l.entries
  {
    match l.entries[spec]
    case Hashes(hashes) => hashes.spec == spec && FreshAt(h, spec, hashes.readAt)
    case Pending(v, _) =>
      && v in l.computations
      && l.computations[v].spec == spec
      && (Began(l.computations[v]).Some? ==> FreshAt(h, spec, Began(l.computations[v]).value))
    case Failed(_) => true
  }

  ghost predicate EntriesOk(l: Loop, h: History) {
    forall spec :: spec in l.entries ==> EntryOk(l, h, spec)
  }

  ghost predicate WaitsAt(l: Loop, w: Sender, spec: HashSpec, i: int) {
    spec in l.entries && l.entries[spec].Pending? && 0 <= i < |l.entries[spec].waiters|
        && l.entries[spec].waiters[i] == w
  }

  /** Every sender that was handed in has been answered or sits in exactly one waiting list. */
  ghost predicate WaitersOk(l: Loop, h: History) {
    && (forall w :: w in l.replies ==> w in h.asked)
    && (forall w :: w in h.asked && w !in l.replies ==> exists spec, i :: WaitsAt(l, w, spec, i))
    && (forall w, spec, i :: WaitsAt(l, w, spec, i) ==> w in h.asked && w !in l.replies && h.asked[w] == spec)
    && (forall w, spec, i, spec', i' :: WaitsAt(l, w, spec, i) && WaitsAt(l, w, spec', i') ==> spec == spec' && i == i')
  }

  /** An entry that waits for a finished computation finds its update in the channel, once. */
  ghost predicate ChannelOk(l: Loop, channel: seq<Update>) {
    && (forall i :: 0 <= i < |channel| ==>
          var u := channel[i];
          && u.version in l.computations && l.computations[u.version].phase.Sent?
          && l.computations[u.version].phase.outcome == u.outcome && l.computations[u.version].spec == u.spec)
    && (forall i, j :: 0 <= i < j < |channel| ==> channel[i].version != channel[j].version)
    && (forall spec :: spec in l.entries && l.entries[spec].Pending? && l.entries[spec].version in l.computations
          && l.computations[l.entries[spec].version].phase.Sent?
          ==> exists i :: 0 <= i < |channel| && channel[i].version == l.entries[spec].version)
  }

  ghost predicate LoopInv(l: Loop, channel: seq<Update>, h: History) {
    ComputationsOk(l, h) && EntriesOk(l, h) && WaitersOk(l, h) && ChannelOk(l, channel)
  }

  // Each handler keeps it

  lemma TickKeeps(l: Loop, channel: seq<Update>, h: History, now: nat)
    requires LoopInv(l, channel, h) && h.clock <= now
    ensures LoopInv(l, channel, h.(clock := now))
  {
    var h' := h.(clock := now);
    assert forall spec :: spec in l.entries ==> EntryOk(l, h, spec) ==> EntryOk(l, h', spec);
  }

  /** The waiting list that replaces a spec's entry must be the one it had. */
  function WaitersAt(l: Loop, spec: HashSpec): seq<Sender> {
    if spec in l.entries && l.entries[spec].Pending? then l.entries[spec].waiters else []
  }

  /** Steps that move no sender keep the waiting lists in order. */
  lemma WaitersFrame(l: Loop, h: History, l': Loop, h': History)
    requires WaitersOk(l, h) && l'.replies == l.replies && h'.asked == h.asked
    requires forall spec :: WaitersAt(l', spec) == WaitersAt(l, spec)
    ensures WaitersOk(l', h')
  {
    forall w, spec, i
      ensures WaitsAt(l', w, spec, i) <==> WaitsAt(l, w, spec, i)
    {
      assert WaitersAt(l', spec) == WaitersAt(l, spec);
    }
  }

  lemma QueueKeeps(l: Loop, channel: seq<Update>, h: History, spec: HashSpec, immediate: bool)
    requires LoopInv(l, channel, h)
    ensures LoopInv(QueueFor(l, spec, WaitersAt(l, spec), immediate), channel, h)
  {
    var l' := QueueFor(l, spec, WaitersAt(l, spec), immediate);
    WaitersFrame(l, h, l', h);
    assert EntriesOk(l', h) by {
      assert forall s :: s in l.entries ==> EntryOk(l, h, s);
      assert EntryOk(l', h, spec);
    }
  }

  lemma BumpKeepsComputations(l: Loop, h: History, v: nat)
    requires ComputationsOk(l, h) && CanBump(l, v)
    ensures ComputationsOk(BumpVersion(l, v, h.clock), h) && l.computations[v].phase.Debouncing?
  {
    var c := l.computations[v];
    assert ComputationOk(c, h.clock);
    Debouncing.BumpKeepsValid(c.debouncer, h.clock, h.clock);
  }

  lemma BumpKeeps(l: Loop, channel: seq<Update>, h: History, spec: HashSpec)
    requires LoopInv(l, channel, h)
    requires spec in l.entries && l.entries[spec].Pending? && CanBump(l, l.entries[spec].version)
    ensures LoopInv(BumpVersion(l, l.entries[spec].version, h.clock), channel,
        h.(touched := h.touched[spec := h.clock]))
  {
    var v := l.entries[spec].version;
    var l', h' := BumpVersion(l, v, h.clock), h.(touched := h.touched[spec := h.clock]);
    BumpKeepsComputations(l, h, v);
    WaitersFrame(l, h, l', h');
    assert EntriesOk(l', h') by {
      forall s | s in l'.entries ensures EntryOk(l', h', s) { assert EntryOk(l, h, s); }
    }
    assert ChannelOk(l', channel) by {
      assert forall u :: u in l.computations ==> l'.computations[u].phase == l.computations[u].phase;
    }
  }

  /** Whatever a touched spec waits for now has not begun to read: its answer will be fresh. */
  lemma TouchKeeps(l: Loop, channel: seq<Update>, h: History, spec: HashSpec)
    requires LoopInv(l, channel, h)
    ensures LoopInv(Touch(l, spec, h.clock), channel, h.(touched := h.touched[spec := h.clock]))
  {
    if spec in l.entries && l.entries[spec].Pending? && CanBump(l, l.entries[spec].version) {
      BumpKeeps(l, channel, h, spec);
    } else {
      QueueKeeps(l, channel, h, spec, false);
      var l' := QueueFor(l, spec, WaitersAt(l, spec), false);
      var h' := h.(touched := h.touched[spec := h.clock]);
      assert Touch(l, spec, h.clock) == l';
      WaitersFrame(l', h, l', h');
      assert EntriesOk(l', h') by {
        assert forall s :: s in l'.entries ==> EntryOk(l', h, s);
        assert Began(l'.computations[l.nextVersion]).None?;
      }
    }
  }

  lemma TouchedFront(touched: map<HashSpec, nat>, specs: seq<HashSpec>, now: nat)
    requires specs != []
    ensures
      var front, last := specs[..|specs| - 1], specs[|specs| - 1];
      touched + (map s | s in specs :: now) == (touched + map s | s in front :: now)[last := now]
  {
    assert specs == specs[..|specs| - 1] + [specs[|specs| - 1]];
  }

  lemma {:induction false} TouchAllKeeps(l: Loop, channel: seq<Update>, h: History, specs: seq<HashSpec>)
    requires LoopInv(l, channel, h)
    ensures LoopInv(TouchAll(l, specs, h.clock), channel, h.(touched := h.touched + map s | s in specs :: h.clock))
  {
    if specs == [] {
      assert h.touched + (map s | s in specs :: h.clock) == h.touched;
    } else {
      var front, last := specs[..|specs| - 1], specs[|specs| - 1];
      TouchAllKeeps(l, channel, h, front);
      TouchedFront(h.touched, specs, h.clock);
      TouchKeeps(TouchAll(l, front, h.clock), channel, h.(touched := h.touched + map s | s in front :: h.clock), last);
    }
  }

  lemma DropKeeps(l: Loop, channel: seq<Update>, h: History, keep: set<string>, reason: string)
    requires LoopInv(l, channel, h)
    ensures LoopInv(DropOutside(l, keep, reason), channel, h)
  {
    var l' := DropOutside(l, keep, reason);
    assert forall s :: s in l.entries ==> EntryOk(l, h, s);
    forall w, s, i
      ensures WaitsAt(l', w, s, i) <==> WaitsAt(l, w, s, i) && s.packagePath in keep
      ensures WaitsAt(l, w, s, i) && s.packagePath !in keep ==> w in WaitersOutside(l.entries, keep)
    {
    }
    forall w | w in WaitersOutside(l.entries, keep)
      ensures exists s, i :: WaitsAt(l, w, s, i) && s.packagePath !in keep
    {
      var s, i :| s in l.entries && s.packagePath !in keep && l.entries[s].Pending?
                  && 0 <= i < |l.entries[s].waiters| && l.entries[s].waiters[i] == w;
      assert WaitsAt(l, w, s, i);
    }
  }

  lemma {:induction false} AddPackagesKeeps(l: Loop, channel: seq<Update>, h: History, packages: seq<string>)
    requires LoopInv(l, channel, h)
    ensures LoopInv(AddPackages(l, packages), channel, h)
  {
    if packages != [] {
      var front := packages[..|packages| - 1];
      AddPackagesKeeps(l, channel, h, front);
      QueueKeeps(AddPackages(l, front), channel, h, HashSpec(packages[|packages| - 1], Default), false);
    }
  }

  lemma PackagesKeep(l: Loop, channel: seq<Update>, h: History, data: Discovery, order: seq<string>)
    requires LoopInv(l, channel, h)
    ensures LoopInv(HandlePackages(l, data, order), channel, h)
  {
    if data.Some? && data.value.Ok? {
      DropKeeps(l, channel, h, data.value.value, "package was removed");
      AddPackagesKeeps(DropOutside(l, data.value.value, "package was removed"), channel, h, order);
    } else {
      DropKeeps(l, channel, h, {}, "package discovery is unavailable");
    }
  }

  lemma AnswerKeeps(l: Loop, channel: seq<Update>, h: History, spec: HashSpec, who: Sender, reply: Reply)
    requires LoopInv(l, channel, h) && who !in h.asked
    ensures LoopInv(Answer(l, who, reply), channel, h.(asked := h.asked[who := spec]))
  {
    var l', h' := Answer(l, who, reply), h.(asked := h.asked[who := spec]);
    assert forall s :: s in l.entries ==> EntryOk(l, h, s) ==> EntryOk(l', h', s);
    forall w, s, i
      ensures WaitsAt(l', w, s, i) <==> WaitsAt(l, w, s, i)
    {
    }
  }

  lemma WaitKeepsEntries(l: Loop, channel: seq<Update>, h: History, spec: HashSpec, who: Sender)
    requires EntriesOk(l, h) && ChannelOk(l, channel) && spec in l.entries && l.entries[spec].Pending?
    ensures
      var Pending(v, waiters) := l.entries[spec];
      var l', h' := l.(entries := l.entries[spec := Pending(v, waiters + [who])]), h.(asked := h.asked[who := spec]);
      EntriesOk(l', h') && ChannelOk(l', channel)
  {
    var Pending(v, waiters) := l.entries[spec];
    var l', h' := l.(entries := l.entries[spec := Pending(v, waiters + [who])]), h.(asked := h.asked[who := spec]);
    forall s | s in l'.entries ensures EntryOk(l', h', s) { assert EntryOk(l, h, s); }
  }

  lemma WaitKeeps(l: Loop, channel: seq<Update>, h: History, spec: HashSpec, who: Sender)
    requires LoopInv(l, channel, h) && who !in h.asked
    requires spec in l.entries && l.entries[spec].Pending?
    ensures
      var Pending(v, waiters) := l.entries[spec];
      LoopInv(l.(entries := l.entries[spec := Pending(v, waiters + [who])]), channel, h.(asked := h.asked[who := spec]))
  {
    var Pending(v, waiters) := l.entries[spec];
    var l', h' := l.(entries := l.entries[spec := Pending(v, waiters + [who])]), h.(asked := h.asked[who := spec]);
    WaitKeepsEntries(l, channel, h, spec, who);
    JoinKeepsWaiters(l, h, l', h', spec, who);
  }

  lemma JoinKeepsWaiters(l: Loop, h: History, l': Loop, h': History, spec: HashSpec, who: Sender)
    requires WaitersOk(l, h) && who !in h.asked && l'.replies == l.replies && h'.asked == h.asked[who := spec]
    requires forall s :: WaitersAt(l', s) == if s == spec then WaitersAt(l, s) + [who] else WaitersAt(l, s)
    ensures WaitersOk(l', h')
  {
    var n := |WaitersAt(l, spec)|;
    forall w, s, i
      ensures WaitsAt(l', w, s, i) <==> WaitsAt(l, w, s, i) || (w == who && s == spec && i == n)
    {
      assert WaitersAt(l', s) == if s == spec then WaitersAt(l, s) + [who] else WaitersAt(l, s);
    }
    assert WaitsAt(l', who, spec, n);
  }

  lemma QueueThenWait(l: Loop, spec: HashSpec, who: Sender)
    ensures
      var queued := QueueFor(l, spec, [], true);
      && spec in queued.entries && queued.entries[spec] == Pending(l.nextVersion, [])
      && queued.(entries := queued.entries[spec := Pending(l.nextVersion, [] + [who])])
         == QueueFor(l, spec, [who], true)
  {
    assert [] + [who] == [who];
    assert l.entries[spec := Pending(l.nextVersion, [])][spec := Pending(l.nextVersion, [who])]
        == l.entries[spec := Pending(l.nextVersion, [who])];
  }

  /** The first question about a spec starts its computation and waits for it. */
  lemma QueueAndWaitKeeps(l: Loop, channel: seq<Update>, h: History, spec: HashSpec, who: Sender)
    requires LoopInv(l, channel, h) && who !in h.asked && spec !in l.entries
    ensures LoopInv(QueueFor(l, spec, [who], true), channel, h.(asked := h.asked[who := spec]))
  {
    QueueThenWait(l, spec, who);
    assert WaitersAt(l, spec) == [];
    QueueKeeps(l, channel, h, spec, true);
    WaitKeeps(QueueFor(l, spec, [], true), channel, h, spec, who);
  }

  lemma QueryKeeps(l: Loop, channel: seq<Update>, h: History, spec: HashSpec, who: Sender)
    requires LoopInv(l, channel, h) && who !in h.asked
    ensures LoopInv(HandleQuery(l, spec, who), channel, h.(asked := h.asked[who := spec]))
  {
    if IsLocal(spec) && spec in l.entries && l.entries[spec].Pending? {
      WaitKeeps(l, channel, h, spec, who);
    } else if IsLocal(spec) && spec !in l.entries && !spec.inputs.Default?
        && HashSpec(spec.packagePath, Default) in l.entries {
      QueueAndWaitKeeps(l, channel, h, spec, who);
    } else if !IsLocal(spec) {
      AnswerKeeps(l, channel, h, spec, who, UnsupportedGlob);
    } else if spec in l.entries && l.entries[spec].Hashes? {
      AnswerKeeps(l, channel, h, spec, who, Hashed(l.entries[spec].hashes));
    } else if spec in l.entries {
      AnswerKeeps(l, channel, h, spec, who, HashingError(l.entries[spec].reason));
    } else {
      AnswerKeeps(l, channel, h, spec, who, UnknownPackage);
    }
  }

  lemma DeliverKeepsWaiters(l: Loop, h: History, u: Update)
    requires WaitersOk(l, h)
    ensures WaitersOk(HandleUpdate(l, u), h)
  {
    var l' := HandleUpdate(l, u);
    if u.spec in l.entries && l.entries[u.spec].Pending? && l.entries[u.spec].version == u.version {
      forall w, s, i
        ensures WaitsAt(l', w, s, i) <==> WaitsAt(l, w, s, i) && s != u.spec
        ensures WaitsAt(l, w, u.spec, i) ==> w in l'.replies
      {
      }
      forall w | w in l'.replies && w !in l.replies
        ensures exists i :: WaitsAt(l, w, u.spec, i)
      {
        var i :| 0 <= i < |l.entries[u.spec].waiters| && l.entries[u.spec].waiters[i] == w;
        assert WaitsAt(l, w, u.spec, i);
      }
    }
  }

  lemma DeliverKeepsChannel(l: Loop, channel: seq<Update>, h: History)
    requires LoopInv(l, channel, h) && channel != []
    ensures ChannelOk(HandleUpdate(l, channel[0]), channel[1..])
  {
    var u := channel[0];
    var l' := HandleUpdate(l, u);
    assert forall i :: 0 <= i < |channel[1..]| ==> channel[1..][i] == channel[i + 1];
    forall s | s in l'.entries && l'.entries[s].Pending? && l'.entries[s].version in l'.computations
               && l'.computations[l'.entries[s].version].phase.Sent?
      ensures exists i :: 0 <= i < |channel[1..]| && channel[1..][i].version == l'.entries[s].version
    {
      assert l'.entries[s] == l.entries[s] && EntryOk(l, h, s);
      var i :| 0 <= i < |channel| && channel[i].version == l.entries[s].version;
      assert i != 0;
      assert channel[1..][i - 1] == channel[i];
    }
  }

  lemma DeliverKeepsEntries(l: Loop, channel: seq<Update>, h: History)
    requires ComputationsOk(l, h) && EntriesOk(l, h) && ChannelOk(l, channel) && channel != []
    ensures EntriesOk(HandleUpdate(l, channel[0]), h)
  {
    var u := channel[0];
    var l' := HandleUpdate(l, u);
    assert ComputationOk(l.computations[u.version], h.clock);
    forall s | s in l'.entries ensures EntryOk(l', h, s) { assert EntryOk(l, h, s); }
  }

  lemma DeliverKeeps(l: Loop, channel: seq<Update>, h: History)
    requires LoopInv(l, channel, h) && channel != []
    ensures LoopInv(HandleUpdate(l, channel[0]), channel[1..], h)
  {
    DeliverKeepsWaiters(l, h, channel[0]);
    DeliverKeepsChannel(l, channel, h);
    DeliverKeepsEntries(l, channel, h);
  }

  lemma AdvanceKeeps(l: Loop, channel: seq<Update>, h: History, v: nat, e: Event, now: nat)
    requires LoopInv(l, channel, h) && h.clock < now && v in l.computations
    requires e.Debounce? || e.Acquire? || e.BeginRead? || e.EndRead?
    requires var c := l.computations[v];
      && (e.Debounce? ==> c.debouncer.serial.Some? && Debouncing.CanTurn(c.debouncer, e.branch, now))
      && (e.Acquire? ==> c.phase.Debouncing? && c.debouncer.pc.Returned?)
      && (e.BeginRead? ==> c.phase.Acquired?)
      && (e.EndRead? ==> c.phase.Reading?)
    ensures LoopInv(SetComputation(l, v, Advance(l.computations[v], e, now)), channel, h.(clock := now))
  {
    var c := l.computations[v];
    var l', h' := SetComputation(l, v, Advance(c, e, now)), h.(clock := now);
    assert ComputationOk(c, h.clock);
    if e.Debounce? { Debouncing.TurnKeepsValid(c.debouncer, e.branch, h.clock, now); }
    assert ComputationOk(Advance(c, e, now), now);
    assert EntriesOk(l', h') by {
      forall s | s in l.entries ensures EntryOk(l', h', s) { assert EntryOk(l, h, s); }
    }
    WaitersFrame(l, h, l', h');
  }

  lemma SendKeepsChannel(l: Loop, channel: seq<Update>, v: nat, now: nat)
    requires ChannelOk(l, channel) && v in l.computations && l.computations[v].phase.Sending?
    ensures
      var c := l.computations[v];
      ChannelOk(SetComputation(l, v, Advance(c, SendUpdate(v), now)), channel + [Update(c.spec, v, c.phase.outcome)])
  {
    var c := l.computations[v];
    var l', channel' := SetComputation(l, v, Advance(c, SendUpdate(v), now)),
        channel + [Update(c.spec, v, c.phase.outcome)];
    forall s | s in l.entries && l.entries[s].Pending? && l.entries[s].version in l'.computations
               && l'.computations[l.entries[s].version].phase.Sent?
      ensures exists i :: 0 <= i < |channel'| && channel'[i].version == l.entries[s].version
    {
      if l.entries[s].version == v {
        assert channel'[|channel|].version == v;
      } else {
        var i :| 0 <= i < |channel| && channel[i].version == l.entries[s].version;
        assert channel'[i] == channel[i];
      }
    }
  }

  lemma SendKeeps(l: Loop, channel: seq<Update>, h: History, v: nat, now: nat)
    requires LoopInv(l, channel, h) && h.clock < now && v in l.computations && l.computations[v].phase.Sending?
    ensures
      var c := l.computations[v];
      LoopInv(SetComputation(l, v, Advance(c, SendUpdate(v), now)), channel + [Update(c.spec, v, c.phase.outcome)],
          h.(clock := now))
  {
    var l', h' := SetComputation(l, v, Advance(l.computations[v], SendUpdate(v), now)), h.(clock := now);
    assert forall s :: s in l.entries ==> EntryOk(l, h, s) && EntryOk(l', h', s);
    WaitersFrame(l, h, l', h');
    SendKeepsChannel(l, channel, v, now);
  }

  // Every run keeps it

  ghost predicate Inv(s: System) {
    && LoopInv(s.loop, s.channel, s.history)
    && (s.running ==> Tracks(s))
    && (!s.running ==> s.loop.entries == map[])
  }

  /** The tracked packages are those of the last discovery value, each with its default inputs. */
  ghost predicate Tracks(s: System) {
    && PackagesOf(s.loop.entries) == Packages(s.discovery)
    && forall p :: p in Packages(s.discovery) ==> HashSpec(p, Default) in s.loop.entries
  }

  lemma {:induction false} AddPackagesTracks(l: Loop, packages: seq<string>)
    ensures AddPackages(l, packages).entries.Keys == l.entries.Keys + set p | p in packages :: HashSpec(p, Default)
  {
    if packages != [] {
      var front, last := packages[..|packages| - 1], packages[|packages| - 1];
      AddPackagesTracks(l, front);
      assert packages == front + [last];
    }
  }

  lemma PackagesTracked(l: Loop, data: Discovery, order: seq<string>)
    requires IsOrderOf(order, Packages(data))
    ensures PackagesOf(HandlePackages(l, data, order).entries) == Packages(data)
    ensures forall p :: p in Packages(data) ==> HashSpec(p, Default) in HandlePackages(l, data, order).entries
  {
    if data.Some? && data.value.Ok? {
      var l1 := DropOutside(l, data.value.value, "package was removed");
      var l2 := HandlePackages(l, data, order);
      AddPackagesTracks(l1, order);
      forall p | p in Packages(data)
        ensures HashSpec(p, Default) in l2.entries && p in PackagesOf(l2.entries)
      {
        assert p in order;
        assert HashSpec(p, Default).packagePath == p;
      }
    }
  }

  /** A file event only ever names specs that are in the table. */
  lemma ChangedSpecsAreTracked(matcher: Matcher, entries: map<HashSpec, HashState>, files: seq<string>)
    ensures AllChangedSpecs(matcher, entries, files) <= entries.Keys
  {
  }

  lemma {:induction false} TouchAllTracks(l: Loop, specs: seq<HashSpec>, now: nat)
    requires forall i :: 0 <= i < |specs| ==> specs[i] in l.entries
    ensures TouchAll(l, specs, now).entries.Keys == l.entries.Keys
  {
    if specs != [] {
      var front := specs[..|specs| - 1];
      assert forall i :: 0 <= i < |front| ==> front[i] == specs[i];
      TouchAllTracks(l, front, now);
    }
  }

  lemma SameKeysSamePackages(a: map<HashSpec, HashState>, b: map<HashSpec, HashState>)
    requires a.Keys == b.Keys
    ensures PackagesOf(a) == PackagesOf(b)
  {
    assert forall spec :: spec in a <==> spec in b;
  }

  lemma FileEventKeeps(matcher: Matcher, s: System, e: Event, now: nat)
    requires Inv(s) && e.FileEvent? && Enabled(matcher, s, e, now)
    ensures Inv(Next(matcher, s, e, now))
  {
    var s' := Next(matcher, s, e, now);
    TickKeeps(s.loop, s.channel, s.history, now);
    TouchAllKeeps(s.loop, s.channel, s.history.(clock := now), e.specs);
    ChangedSpecsAreTracked(matcher, s.loop.entries, e.files);
    assert forall i :: 0 <= i < |e.specs| ==> e.specs[i] in e.specs;
    TouchAllTracks(s.loop, e.specs, now);
    SameKeysSamePackages(s.loop.entries, s'.loop.entries);
  }

  lemma QueryTracks(s: System, who: Sender, spec: HashSpec)
    requires Tracks(s)
    ensures Tracks(s.(loop := HandleQuery(s.loop, spec, who)))
  {
    var entries' := HandleQuery(s.loop, spec, who).entries;
    forall q | q in entries'
      ensures q.packagePath in PackagesOf(s.loop.entries)
    {
      if q !in s.loop.entries { assert HashSpec(q.packagePath, Default).packagePath == q.packagePath; }
    }
    assert forall q :: q in s.loop.entries ==> q in entries';
    forall p | p in PackagesOf(s.loop.entries)
      ensures p in PackagesOf(entries')
    {
      var q :| q in s.loop.entries && q.packagePath == p;
      assert q in entries';
    }
    assert PackagesOf(entries') == PackagesOf(s.loop.entries);
  }

  lemma FlushKeeps(l: Loop, channel: seq<Update>, h: History, data: Discovery, reason: string, order: seq<string>)
    requires LoopInv(l, channel, h)
    ensures LoopInv(FlushAndRehash(l, data, reason, order), channel, h.(flushed := h.clock))
  {
    DropKeeps(l, channel, h, {}, reason);
    var l1, h1 := DropOutside(l, {}, reason), h.(flushed := h.clock);
    assert l1.entries == map[];
    WaitersFrame(l1, h, l1, h1);
    assert LoopInv(l1, channel, h1);
    PackagesKeep(l1, channel, h1, data, order);
  }

  lemma NextKeeps(matcher: Matcher, s: System, e: Event, now: nat)
    requires Inv(s) && Enabled(matcher, s, e, now)
    ensures Inv(Next(matcher, s, e, now))
  {
    var h := s.history.(clock := now);
    TickKeeps(s.loop, s.channel, s.history, now);
    match e
    case Discovered(data, order) =>
      PackagesKeep(s.loop, s.channel, h, data, order);
      PackagesTracked(s.loop, data, order);
    case FileEvent(_, _) => FileEventKeeps(matcher, s, e, now);
    case EventsLost(reason, order) =>
      FlushKeeps(s.loop, s.channel, h, s.discovery, reason, order);
      PackagesTracked(DropOutside(s.loop, {}, reason), s.discovery, order);
    case Closed =>
      DropKeeps(s.loop, s.channel, h, {}, "file watcher closed");
    case Deliver =>
      DeliverKeeps(s.loop, s.channel, h);
      SameKeysSamePackages(s.loop.entries, HandleUpdate(s.loop, s.channel[0]).entries);
    case Ask(who, spec) =>
      QueryKeeps(s.loop, s.channel, h, spec, who);
      QueryTracks(s, who, spec);
    case SendUpdate(v) => SendKeeps(s.loop, s.channel, s.history, v, now);
    case _ => AdvanceKeeps(s.loop, s.channel, s.history, e.version, e, now);
  }

  lemma {:induction false} RunKeeps(matcher: Matcher, permits: nat, events: seq<(Event, nat)>)
    requires Run(matcher, permits, events).Some?
    ensures Inv(Run(matcher, permits, events).value)
    ensures Run(matcher, permits, events).value.permits == permits
  {
    if events != [] {
      var prefix := events[..|events| - 1];
      RunKeeps(matcher, permits, prefix);
      var (e, now) := events[|events| - 1];
      NextKeeps(matcher, Run(matcher, permits, prefix).value, e, now);
    }
  }

  // What that means for clients

  /**
   Freshness. In every run, the hashes in the table come from a read of that very spec that began
   after the last processed file event touching it and after the last loss of events.
   */
  lemma TableIsFresh(matcher: Matcher, permits: nat, events: seq<(Event, nat)>, spec: HashSpec)
    requires Run(matcher, permits, events).Some?
    requires var s := Run(matcher, permits, events).value; spec in s.loop.entries && s.loop.entries[spec].Hashes?
    ensures
      var s := Run(matcher, permits, events).value;
      var hashes := s.loop.entries[spec].hashes;
      && hashes.spec == spec
      && s.history.flushed < hashes.readAt
      && (spec in s.history.touched ==> s.history.touched[spec] < hashes.readAt)
  {
    RunKeeps(matcher, permits, events);
    assert EntryOk(Run(matcher, permits, events).value.loop, Run(matcher, permits, events).value.history, spec);
  }

  lemma {:induction false} TouchAllReplies(l: Loop, specs: seq<HashSpec>, now: nat)
    ensures TouchAll(l, specs, now).replies == l.replies
  {
    if specs != [] { TouchAllReplies(l, specs[..|specs| - 1], now); }
  }

  lemma {:induction false} AddPackagesReplies(l: Loop, packages: seq<string>)
    ensures AddPackages(l, packages).replies == l.replies
  {
    if packages != [] { AddPackagesReplies(l, packages[..|packages| - 1]); }
  }

  /** An answer once given stays, and a client that gets hashes gets fresh ones of what it asked for. */
  lemma AnswersAreFresh(matcher: Matcher, permits: nat, events: seq<(Event, nat)>, e: Event, now: nat, who: Sender)
    requires Run(matcher, permits, events).Some? && Enabled(matcher, Run(matcher, permits, events).value, e, now)
    ensures
      var s := Run(matcher, permits, events).value;
      var s' := Next(matcher, s, e, now);
      && (who in s.loop.replies ==> who in s'.loop.replies && s'.loop.replies[who] == s.loop.replies[who])
      && (who in s'.loop.replies && who !in s.loop.replies && s'.loop.replies[who].Hashed? ==>
            var hashes := s'.loop.replies[who].hashes;
            && who in s'.history.asked && hashes.spec == s'.history.asked[who]
            && FreshAt(s'.history, hashes.spec, hashes.readAt))
  {
    RunKeeps(matcher, permits, events);
    var s := Run(matcher, permits, events).value;
    NextKeeps(matcher, s, e, now);
    AnswerStep(matcher, s, e, now, who);
  }

  lemma DropReplies(l: Loop, h: History, keep: set<string>, reason: string, who: Sender)
    requires WaitersOk(l, h)
    ensures var l' := DropOutside(l, keep, reason);
      && (who in l.replies ==> who in l'.replies && l'.replies[who] == l.replies[who])
      && (who in l'.replies && who !in l.replies ==> l'.replies[who].Unavailable?)
  {
    forall w | w in WaitersOutside(l.entries, keep)
      ensures w !in l.replies
    {
      var s, i :| s in l.entries && s.packagePath !in keep && l.entries[s].Pending?
                  && 0 <= i < |l.entries[s].waiters| && l.entries[s].waiters[i] == w;
      assert WaitsAt(l, w, s, i);
    }
  }

  lemma PackagesReplies(l: Loop, h: History, data: Discovery, order: seq<string>, who: Sender)
    requires WaitersOk(l, h)
    ensures var l' := HandlePackages(l, data, order);
      && (who in l.replies ==> who in l'.replies && l'.replies[who] == l.replies[who])
      && (who in l'.replies && who !in l.replies ==> l'.replies[who].Unavailable?)
  {
    if data.Some? && data.value.Ok? {
      DropReplies(l, h, data.value.value, "package was removed", who);
      AddPackagesReplies(DropOutside(l, data.value.value, "package was removed"), order);
    } else {
      DropReplies(l, h, {}, "package discovery is unavailable", who);
    }
  }

  lemma DeliverReplies(l: Loop, channel: seq<Update>, h: History, who: Sender)
    requires LoopInv(l, channel, h) && channel != []
    ensures var l' := HandleUpdate(l, channel[0]);
      && (who in l.replies ==> who in l'.replies && l'.replies[who] == l.replies[who])
      && (who in l'.replies && who !in l.replies ==>
            && who in h.asked && h.asked[who] == channel[0].spec
            && (l'.replies[who].Hashed? ==>
                  && l'.replies[who].hashes.spec == h.asked[who]
                  && FreshAt(h, h.asked[who], l'.replies[who].hashes.readAt)))
  {
    var u := channel[0];
    if u.spec in l.entries && l.entries[u.spec].Pending? && l.entries[u.spec].version == u.version {
      assert EntryOk(l, h, u.spec) && ComputationOk(l.computations[u.version], h.clock);
      forall w | w in l.entries[u.spec].waiters
        ensures w !in l.replies && w in h.asked && h.asked[w] == u.spec
      {
        var i :| 0 <= i < |l.entries[u.spec].waiters| && l.entries[u.spec].waiters[i] == w;
        assert WaitsAt(l, w, u.spec, i);
      }
    }
  }

  lemma AnswerStep(matcher: Matcher, s: System, e: Event, now: nat, who: Sender)
    requires Inv(s) && Enabled(matcher, s, e, now)
    ensures
      var s' := Next(matcher, s, e, now);
      && (who in s.loop.replies ==> who in s'.loop.replies && s'.loop.replies[who] == s.loop.replies[who])
      && (who in s'.loop.replies && who !in s.loop.replies && s'.loop.replies[who].Hashed? ==>
            var hashes := s'.loop.replies[who].hashes;
            && who in s'.history.asked && hashes.spec == s'.history.asked[who]
            && FreshAt(s'.history, hashes.spec, hashes.readAt))
  {
    match e
    case Discovered(data, order) => PackagesReplies(s.loop, s.history, data, order, who);
    case FileEvent(_, specs) => TouchAllReplies(s.loop, specs, now);
    case EventsLost(reason, order) =>
      DropReplies(s.loop, s.history, {}, reason, who);
      DropKeeps(s.loop, s.channel, s.history, {}, reason);
      PackagesReplies(DropOutside(s.loop, {}, reason), s.history, s.discovery, order, who);
    case Closed => DropReplies(s.loop, s.history, {}, "file watcher closed", who);
    case Deliver => DeliverReplies(s.loop, s.channel, s.history, who);
    case Ask(w, spec) =>
      if spec in s.loop.entries { assert EntryOk(s.loop, s.history, spec); }
      assert w !in s.loop.replies;
    case _ =>
  }

  /**
   No client is lost. In every run each sender handed in is either answered or waits in exactly one
   list, for the spec it asked for; and what that list waits for is a computation of that spec which
   is still under way, or exactly one update in the channel.
   */
  lemma NoClientIsLost(matcher: Matcher, permits: nat, events: seq<(Event, nat)>, who: Sender)
    requires Run(matcher, permits, events).Some?
    requires who in Run(matcher, permits, events).value.history.asked
    ensures
      var s := Run(matcher, permits, events).value;
      var spec := s.history.asked[who];
      && (who in s.loop.replies <==> !exists i :: WaitsAt(s.loop, who, spec, i))
      && (forall other, i :: WaitsAt(s.loop, who, other, i) ==> other == spec)
      && (forall i, j :: WaitsAt(s.loop, who, spec, i) && WaitsAt(s.loop, who, spec, j) ==> i == j)
      && (who !in s.loop.replies ==>
            var v := s.loop.entries[spec].version;
            && v in s.loop.computations && s.loop.computations[v].spec == spec
            && (s.loop.computations[v].phase.Sent? <==> exists k :: 0 <= k < |s.channel| && s.channel[k].version == v)
            && (forall k, m :: 0 <= k < m < |s.channel| ==> !(s.channel[k].version == v == s.channel[m].version)))
  {
    RunKeeps(matcher, permits, events);
    var s := Run(matcher, permits, events).value;
    var spec := s.history.asked[who];
    if who !in s.loop.replies {
      var q, i :| WaitsAt(s.loop, who, q, i);
      assert EntryOk(s.loop, s.history, spec);
    }
  }

  /** A package-local query is turned away exactly when discovery does not know its package. */
  lemma UnknownPackageIff(matcher: Matcher, permits: nat, events: seq<(Event, nat)>, who: Sender, spec: HashSpec)
    requires Run(matcher, permits, events).Some?
    requires var s := Run(matcher, permits, events).value; s.running && who !in s.history.asked
    ensures
      var s := Run(matcher, permits, events).value;
      var l' := HandleQuery(s.loop, spec, who);
      && ((who in l'.replies && l'.replies[who] == UnknownPackage)
         <==> (IsLocal(spec) && spec.packagePath !in Packages(s.discovery)))
      && PackagesOf(s.loop.entries) == Packages(s.discovery)
  {
    RunKeeps(matcher, permits, events);
    var s := Run(matcher, permits, events).value;
    assert who !in s.loop.replies;
    if spec in s.loop.entries { assert spec.packagePath in PackagesOf(s.loop.entries); }
    if HashSpec(spec.packagePath, Default) in s.loop.entries {
      assert HashSpec(spec.packagePath, Default).packagePath in PackagesOf(s.loop.entries);
    }
  }

  /** While a file event is handled, every spec it names is found: the missing-entry branch is dead. */
  lemma {:induction false} TouchedSpecsAreFound(matcher: Matcher, s: System, files: seq<string>, specs: seq<HashSpec>,
      now: nat, k: nat)
    requires Enabled(matcher, s, FileEvent(files, specs), now) && k < |specs|
    ensures specs[k] in TouchAll(s.loop, specs[..k], now).entries
  {
    ChangedSpecsAreTracked(matcher, s.loop.entries, files);
    assert forall i :: 0 <= i < |specs| ==> specs[i] in specs;
    TouchAllTracks(s.loop, specs[..k], now);
  }

  /** Once the loop has ended nobody waits. */
  lemma ClosedMeansAnswered(s: System)
    requires Inv(s) && !s.running
    ensures forall who :: who in s.history.asked ==> who in s.loop.replies
  {
    forall who | who in s.history.asked ensures who in s.loop.replies {
      assert !exists spec, i :: WaitsAt(s.loop, who, spec, i);
    }
  }

  // Coming to rest

  predicate IsInternal(e: Event) {
    e.Deliver? || e.Debounce? || e.Acquire? || e.BeginRead? || e.EndRead? || e.SendUpdate?
  }

  /** Nothing can happen without a new outside event, however long one waits. */
  ghost predicate AtRest(matcher: Matcher, s: System) {
    forall e, now :: IsInternal(e) ==> !Enabled(matcher, s, e, now)
  }

  /** If some computation is not done, something can happen. */
  lemma UnfinishedMeansEnabled(matcher: Matcher, s: System, v: nat)
    requires Inv(s) && s.running && s.permits > 0 && v in s.loop.computations && !s.loop.computations[v].phase.Sent?
    ensures !AtRest(matcher, s)
  {
    var c, next := s.loop.computations[v], s.history.clock + 1;
    assert ComputationOk(c, s.history.clock);
    match c.phase
    case Debouncing =>
      if !c.debouncer.pc.Returned? {
        Debouncing.TurnMakesProgress(c.debouncer, Debouncing.Timer, s.history.clock);
        var t :| s.history.clock <= t && Debouncing.CanTurn(c.debouncer, Debouncing.Timer, t);
        assert Debouncing.CanTurn(c.debouncer, Debouncing.Timer, t + 1);
        assert Enabled(matcher, s, Debounce(v, Debouncing.Timer), t + 1);
      } else if |Holders(s.loop)| < s.permits {
        assert Enabled(matcher, s, Acquire(v), next);
      } else {
        assert Holders(s.loop) != {};
        var u :| u in Holders(s.loop);
        HolderMeansEnabled(matcher, s, u);
      }
    case _ => HolderMeansEnabled(matcher, s, v);
  }

  lemma HolderMeansEnabled(matcher: Matcher, s: System, v: nat)
    requires s.running && v in Holders(s.loop)
    ensures !AtRest(matcher, s)
  {
    var next := s.history.clock + 1;
    match s.loop.computations[v].phase
    case Acquired => assert Enabled(matcher, s, BeginRead(v), next);
    case Reading(_) => assert Enabled(matcher, s, EndRead(v, None), next);
    case Sending(_, _) =>
      if |s.channel| < CHANNEL_CAPACITY {
        assert Enabled(matcher, s, SendUpdate(v), next);
      } else {
        assert Enabled(matcher, s, Deliver, next);
      }
  }

  /** The system only comes to rest when every client has its answer. */
  lemma RestMeansAnswered(matcher: Matcher, permits: nat, events: seq<(Event, nat)>)
    requires Run(matcher, permits, events).Some? && permits > 0
    requires var s := Run(matcher, permits, events).value; s.running && AtRest(matcher, s)
    ensures var s := Run(matcher, permits, events).value; forall who :: who in s.history.asked ==> who in s.loop.replies
  {
    RunKeeps(matcher, permits, events);
    var s := Run(matcher, permits, events).value;
    forall who | who in s.history.asked
      ensures who in s.loop.replies
    {
      if who !in s.loop.replies {
        NoClientIsLost(matcher, permits, events, who);
        var v := s.loop.entries[s.history.asked[who]].version;
        if s.loop.computations[v].phase.Sent? {
          assert s.channel != [];
          assert Enabled(matcher, s, Deliver, s.history.clock + 1);
        } else {
          UnfinishedMeansEnabled(matcher, s, v);
        }
        assert false;
      }
    }
  }

  /** Internal steps a computation can still take. */
  function Remaining(c: Computation): nat {
    match c.phase
    case Debouncing => 5 + Debouncing.Rank(c.debouncer)
    case Acquired => 4
    case Reading(_) => 3
    case Sending(_, _) => 2
    case Sent(_, _) => 0
  }

  ghost function Work(computations: map<nat, Computation>, n: nat): nat {
    if n == 0 then 0
    else Work(computations, n - 1) + if n - 1 in computations then Remaining(computations[n - 1]) else 0
  }

  lemma {:induction false} WorkAfterUpdate(cs: map<nat, Computation>, v: nat, c: Computation, n: nat)
    requires v in cs
    ensures v < n ==> Work(cs[v := c], n) == Work(cs, n) - Remaining(cs[v]) + Remaining(c)
    ensures v >= n ==> Work(cs[v := c], n) == Work(cs, n)
  {
    if n > 0 { WorkAfterUpdate(cs, v, c, n - 1); }
  }

  ghost function Budget(s: System): nat {
    Work(s.loop.computations, s.loop.nextVersion) + |s.channel|
  }

  lemma InternalStepCosts(matcher: Matcher, s: System, e: Event, now: nat)
    requires Inv(s) && IsInternal(e) && Enabled(matcher, s, e, now)
    ensures Budget(Next(matcher, s, e, now)) < Budget(s)
  {
    if !e.Deliver? {
      var v := e.version;
      var c := s.loop.computations[v];
      TickKeeps(s.loop, s.channel, s.history, now);
      assert ComputationOk(c, s.history.clock) && ComputationOk(c, now);
      if e.Debounce? { Debouncing.TurnMakesProgress(c.debouncer, e.branch, now); }
      assert Remaining(Advance(c, e, now)) + (if e.SendUpdate? then 1 else 0) < Remaining(c);
      WorkAfterUpdate(s.loop.computations, v, Advance(c, e, now), s.loop.nextVersion);
    }
  }

  lemma LastStepCosts(matcher: Matcher, permits: nat, front: seq<(Event, nat)>, e: Event, now: nat)
    requires Run(matcher, permits, front + [(e, now)]).Some? && IsInternal(e)
    ensures Run(matcher, permits, front).Some?
    ensures Budget(Run(matcher, permits, front + [(e, now)]).value) < Budget(Run(matcher, permits, front).value)
  {
    var all := front + [(e, now)];
    assert all[..|all| - 1] == front && all[|all| - 1] == (e, now);
    RunKeeps(matcher, permits, front);
    InternalStepCosts(matcher, Run(matcher, permits, front).value, e, now);
  }

  /** Left alone, the hash watcher takes finitely many steps: no run of internal events is longer than the budget. */
  lemma {:induction false} Settles(matcher: Matcher, permits: nat, events: seq<(Event, nat)>,
      internal: seq<(Event, nat)>)
    requires Run(matcher, permits, events + internal).Some?
    requires forall i :: 0 <= i < |internal| ==> IsInternal(internal[i].0)
    ensures Run(matcher, permits, events).Some?
    ensures |internal| + Budget(Run(matcher, permits, events + internal).value) 
         <= Budget(Run(matcher, permits, events).value)
  {
    if internal == [] {
      assert events + internal == events;
    } else {
      var front, last := internal[..|internal| - 1], internal[|internal| - 1];
      assert events + internal == (events + front) + [(last.0, last.1)];
      LastStepCosts(matcher, permits, events + front, last.0, last.1);
      Settles(matcher, permits, events, front);
    }
  }
}
