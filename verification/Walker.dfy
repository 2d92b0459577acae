/**
 The concurrent graph walker: one task per node waits for the finish signals of the nodes it depends
 on, offers its node to the consumer and broadcasts its own finish signal once the consumer is done.
 Every interleaving of the tasks, of the loop that spawns them and of the consumer is a run.
 */
module Walker {
  import opened Basics
  import opened Digraph

  /** The nodes in the order in which they are spawned, and what each depends on. */
  datatype Graph = Graph(order: seq<nat>, deps: map<nat, set<nat>>)

  ghost predicate WellFormed(g: Graph) {
    && (forall n :: n in g.deps <==> n in g.order)
    && (forall n, d :: n in g.deps && d in g.deps[n] ==> d in g.deps)
    && (forall i, j :: 0 <= i < j < |g.order| ==> g.order[i] != g.order[j])
  }

  datatype Task =
    | Unspawned
    | Subscribed    // its receivers exist, the task does not yet
    | AtSelect      // suspended in the select, or about to poll it from the start
    | Polling       // this poll found no cancellation and turns to the dependencies
    | Emitting      // every dependency has finished; about to send the node
    | Queued        // the node sits in the emission channel
    | Held          // the consumer has it
    | Answered      // the consumer used or dropped the callback
    | Finished      // the finish signal was broadcast
    | Exited        // gave up without a signal

  datatype State = State(
    next: nat,                  // how many nodes have been spawned
    returned: bool,             // `new` has returned, so walker and receiver are in the caller's hands
    tasks: map<nat, Task>,
    woken: set<nat>,            // tasks that have a reason to poll again
    missed: set<(nat, nat)>,    // (n, d): n subscribed to d after d's signal
    queue: seq<nat>,
    open: bool,                 // the receiver of the emission channel exists
    cancelled: bool,
    late: set<nat>,             // tasks suspended in their select when the walk was cancelled
    emitted: seq<nat>)

  function Capacity(g: Graph): nat {
    if |g.order| == 0 then 1 else |g.order|
  }

  const Start: State := State(0, false, map[], {}, {}, [], true, false, {}, [])

  /** The task of a node; before it is spawned there is none. */
  function Of(s: State, n: nat): Task {
    if n in s.tasks then s.tasks[n] else Unspawned
  }

  function DepsOf(g: Graph, n: nat): set<nat> {
    if n in g.deps then g.deps[n] else {}
  }

  predicate Done(t: Task) {
    t.Finished? || t.Exited?
  }

  /** Waiting on `d` ends with its signal, or with an error once its sender is gone. */
  predicate Received(s: State, n: nat, d: nat) {
    Of(s, d).Finished? && (n, d) !in s.missed
  }

  predicate ClosedFor(s: State, n: nat, d: nat) {
    Of(s, d).Exited? || (Of(s, d).Finished? && (n, d) in s.missed)
  }

  datatype Event =
    | Subscribe | Spawn | Return
    | Poll(n: nat) | PollDeps(n: nat) | Emit(n: nat) | Broadcast(n: nat)
    | Receive | Complete(n: nat)
    | Cancel | DropReceiver

  predicate Enabled(g: Graph, s: State, e: Event) {
    match e
    case Subscribe => s.next < |g.order| && Of(s, g.order[s.next]).Unspawned?
    case Spawn => s.next < |g.order| && Of(s, g.order[s.next]).Subscribed?
    case Return => s.next == |g.order| && !s.returned
    case Poll(n) => Of(s, n).AtSelect? && n in s.woken
    case PollDeps(n) => Of(s, n).Polling?
    case Emit(n) => Of(s, n).Emitting? && (s.open ==> |s.queue| < Capacity(g))
    case Broadcast(n) => Of(s, n).Answered?
    case Receive => s.returned && s.open && s.queue != []
    case Complete(n) => Of(s, n).Held?
    case Cancel => s.returned && !s.cancelled
    case DropReceiver => s.returned && s.open
  }

  function Dependents(g: Graph, d: nat): set<nat> {
    set n | n in g.deps && d in g.deps[n]
  }

  function SetTask(s: State, n: nat, t: Task): State {
    s.(tasks := s.tasks[n := t])
  }

  /** A task ends: with its sender gone, whoever waits for it is woken. */
  function End(g: Graph, s: State, n: nat, t: Task): State {
    SetTask(s, n, t).(woken := s.woken + Dependents(g, n))
  }

  function Next(g: Graph, s: State, e: Event): State
    requires Enabled(g, s, e)
  {
    match e
    case Subscribe =>
      var n := g.order[s.next];
      SetTask(s, n, Subscribed).(missed := s.missed + set d | d in DepsOf(g, n) && Of(s, d).Finished? :: (n, d))
    case Spawn =>
      var n := g.order[s.next];
      SetTask(s, n, AtSelect).(next := s.next + 1, woken := s.woken + {n})
    case Return => s.(returned := true)
    case Poll(n) =>
      var s' := s.(woken := s.woken - {n});
      if s.cancelled then End(g, s', n, Exited) else SetTask(s', n, Polling)
    case PollDeps(n) =>
      if exists d :: d in DepsOf(g, n) && !Received(s, n, d) && !ClosedFor(s, n, d) then SetTask(s, n, AtSelect)
      else if exists d :: d in DepsOf(g, n) && ClosedFor(s, n, d) then End(g, s, n, Exited)
      else SetTask(s, n, Emitting)
    case Emit(n) =>
      if s.open then SetTask(s, n, Queued).(queue := s.queue + [n], emitted := s.emitted + [n])
      else End(g, s, n, Exited)
    case Broadcast(n) => End(g, s, n, Finished)
    case Receive => SetTask(s, s.queue[0], Held).(queue := s.queue[1..])
    case Complete(n) => SetTask(s, n, Answered)
    case Cancel =>
      s.(cancelled := true, woken := s.woken + s.tasks.Keys, late := set n | n in s.tasks && s.tasks[n].AtSelect?)
    case DropReceiver =>
      s.(open := false, queue := [],
         tasks := map n | n in s.tasks :: if s.tasks[n].Queued? then Answered else s.tasks[n])
  }

  function Run(g: Graph, events: seq<Event>): Option<State> {
    if events == [] then Some(Start) else
    match Run(g, events[..|events| - 1])
    case None => None
    case Some(s) =>
      var e := events[|events| - 1];
      if Enabled(g, s, e) then Some(Next(g, s, e)) else None
  }

  // What every step keeps

  predicate Started(t: Task) {
    !t.Unspawned? && !t.Subscribed?
  }

  predicate WasEmitted(t: Task) {
    t.Queued? || t.Held? || t.Answered? || t.Finished?
  }

  predicate PastSelect(t: Task) {
    t.Emitting? || WasEmitted(t)
  }

  ghost predicate Distinct(p: seq<nat>) {
    forall i, j :: 0 <= i < j < |p| ==> p[i] != p[j]
  }

  /** Nothing is delivered, cancelled or finished while `new` is still spawning. */
  ghost predicate SpawningOk(g: Graph, s: State) {
    && s.next <= |g.order| && (s.returned ==> s.next == |g.order|)
    && (forall i :: 0 <= i < s.next ==> Started(Of(s, g.order[i])))
    && (forall i :: s.next <= i < |g.order| ==>
          !Started(Of(s, g.order[i])) && (Of(s, g.order[i]).Subscribed? ==> i == s.next))
    && (forall n :: n !in g.deps ==> Of(s, n).Unspawned?)
    && (!s.returned ==> s.open && !s.cancelled && forall n :: !Of(s, n).Held? && !Of(s, n).Answered? && !Done(Of(s, n)))
    && s.missed == {}
  }

  /** Who was emitted, once each, and what is still in the channel. */
  ghost predicate EmissionOk(s: State) {
    && Distinct(s.emitted)
    && (forall n :: n in s.emitted <==> WasEmitted(Of(s, n)))
    && Distinct(s.queue)
    && (forall n :: n in s.queue <==> Of(s, n).Queued?)
    && (!s.open ==> s.queue == [])
  }

  /** Whoever got past its select found all its dependencies finished. */
  ghost predicate DependenciesOk(g: Graph, s: State) {
    && (forall n, d :: PastSelect(Of(s, n)) && d in DepsOf(g, n) ==> Of(s, d).Finished?)
    && (forall i, d :: 0 <= i < |s.emitted| && d in DepsOf(g, s.emitted[i]) ==> d in s.emitted[..i])
  }

  ghost predicate StillWaits(g: Graph, s: State, n: nat) {
    exists d :: d in DepsOf(g, n) && !Done(Of(s, d))
  }

  /** A task asleep in its select still waits for someone, and a cancelled one is never asleep. */
  ghost predicate WakingOk(g: Graph, s: State) {
    && (forall n :: Of(s, n).AtSelect? && n !in s.woken ==> StillWaits(g, s, n))
    && (s.cancelled ==> forall n :: Of(s, n).AtSelect? || Of(s, n).Polling? ==> n in s.woken)
    && (forall n :: n in s.late ==> s.cancelled && (Of(s, n).AtSelect? || Of(s, n).Exited?))
    && (!s.cancelled && s.open ==> forall n :: !Of(s, n).Exited?)
  }

  ghost predicate Inv(g: Graph, s: State) {
    SpawningOk(g, s) && EmissionOk(s) && DependenciesOk(g, s) && WakingOk(g, s)
  }

  // One task moving on

  /** `s'` differs from `s` in the task of `n`, and perhaps in the channel and the wake-up calls. */
  predicate Moves(s: State, s': State, n: nat) {
    s' == s.(tasks := s.tasks[n := Of(s', n)], woken := s'.woken, queue := s'.queue, emitted := s'.emitted)
        && n in s'.tasks
  }

  lemma OthersStay(s: State, s': State, n: nat)
    requires Moves(s, s', n)
    ensures forall m :: m != n ==> Of(s', m) == Of(s, m)
  {
  }

  lemma MoveKeepsSpawning(g: Graph, s: State, s': State, n: nat)
    requires WellFormed(g) && SpawningOk(g, s) && Moves(s, s', n)
    requires Started(Of(s, n)) && Started(Of(s', n))
    requires !s.returned ==> !Of(s', n).Held? && !Of(s', n).Answered? && !Done(Of(s', n))
    ensures SpawningOk(g, s')
  {
    OthersStay(s, s', n);
  }

  /** No dependency is finished before `n` can be in its select, and finished ones stay so. */
  lemma MoveKeepsDependencies(g: Graph, s: State, s': State, n: nat)
    requires DependenciesOk(g, s) && Moves(s, s', n) && !Of(s, n).Finished? && s'.emitted == s.emitted
    requires PastSelect(Of(s', n)) ==> PastSelect(Of(s, n)) || forall d :: d in DepsOf(g, n) ==> Of(s, d).Finished?
    ensures DependenciesOk(g, s')
  {
    OthersStay(s, s', n);
  }

  /** Ending wakes exactly those who might now find nobody left to wait for. */
  lemma MoveKeepsWaking(g: Graph, s: State, s': State, n: nat)
    requires WakingOk(g, s) && Moves(s, s', n)
    requires s.woken - {n} <= s'.woken && (Done(Of(s', n)) && !Done(Of(s, n)) ==> Dependents(g, n) <= s'.woken)
    requires Of(s', n).AtSelect? && n !in s'.woken ==> StillWaits(g, s', n)
    requires s.cancelled && (Of(s', n).AtSelect? || Of(s', n).Polling?) ==> n in s'.woken
    requires n in s.late ==> Of(s', n).AtSelect? || Of(s', n).Exited?
    requires Of(s', n).Exited? ==> s.cancelled || !s.open
    ensures WakingOk(g, s')
  {
    OthersStay(s, s', n);
    forall m | m != n && Of(s', m).AtSelect? && m !in s'.woken
      ensures StillWaits(g, s', m)
    {
      assert StillWaits(g, s, m);
      var d :| d in DepsOf(g, m) && !Done(Of(s, d));
      assert d == n ==> m in Dependents(g, n);
      assert !Done(Of(s', d));
    }
  }

  lemma PollKeeps(g: Graph, s: State, n: nat)
    requires WellFormed(g) && Inv(g, s) && Enabled(g, s, Poll(n))
    ensures Inv(g, Next(g, s, Poll(n)))
  {
    var s' := Next(g, s, Poll(n));
    OthersStay(s, s', n);
    MoveKeepsSpawning(g, s, s', n);
    MoveKeepsDependencies(g, s, s', n);
    MoveKeepsWaking(g, s, s', n);
  }

  /** What a poll finds: still waiting, a dependency that gave up, or all finished. */
  lemma PollDepsFinds(g: Graph, s: State, n: nat)
    requires Inv(g, s) && Enabled(g, s, PollDeps(n))
    ensures
      var t := Of(Next(g, s, PollDeps(n)), n);
      && Moves(s, Next(g, s, PollDeps(n)), n)
      && (t.AtSelect? || t.Exited? || t.Emitting?)
      && (t.AtSelect? ==> StillWaits(g, s, n))
      && (t.Exited? ==> (s.cancelled || !s.open) && Dependents(g, n) <= Next(g, s, PollDeps(n)).woken)
      && (t.Emitting? ==> forall d :: d in DepsOf(g, n) ==> Of(s, d).Finished?)
      && s.woken <= Next(g, s, PollDeps(n)).woken
      && Next(g, s, PollDeps(n)).queue == s.queue && Next(g, s, PollDeps(n)).emitted == s.emitted
  {
    if exists d :: d in DepsOf(g, n) && !Received(s, n, d) && !ClosedFor(s, n, d) {
      var d :| d in DepsOf(g, n) && !Received(s, n, d) && !ClosedFor(s, n, d);
      assert !Done(Of(s, d));
    } else if exists d :: d in DepsOf(g, n) && ClosedFor(s, n, d) {
      var d :| d in DepsOf(g, n) && ClosedFor(s, n, d);
      assert Of(s, d).Exited?;
    }
  }

  lemma PollDepsKeeps(g: Graph, s: State, n: nat)
    requires WellFormed(g) && Inv(g, s) && Enabled(g, s, PollDeps(n))
    ensures Inv(g, Next(g, s, PollDeps(n)))
  {
    var s' := Next(g, s, PollDeps(n));
    PollDepsFinds(g, s, n);
    StepKeeps(g, s, s', n);
  }

  /** A task between its select and its emission moves without touching the channel. */
  lemma StepKeeps(g: Graph, s: State, s': State, n: nat)
    requires WellFormed(g) && Inv(g, s) && Moves(s, s', n) && Of(s, n).Polling?
    requires s'.queue == s.queue && s'.emitted == s.emitted && s.woken <= s'.woken
    requires var t := Of(s', n);
      && (t.AtSelect? || t.Exited? || t.Emitting?)
      && (t.AtSelect? ==> StillWaits(g, s, n))
      && (t.Exited? ==> (s.cancelled || !s.open) && Dependents(g, n) <= s'.woken)
      && (t.Emitting? ==> forall d :: d in DepsOf(g, n) ==> Of(s, d).Finished?)
    ensures Inv(g, s')
  {
    OthersStay(s, s', n);
    if Of(s', n).AtSelect? {
      var d :| d in DepsOf(g, n) && !Done(Of(s, d));
      assert !Done(Of(s', d));
    }
    MoveKeepsSpawning(g, s, s', n);
    MoveKeepsDependencies(g, s, s', n);
    MoveKeepsWaking(g, s, s', n);
  }

  lemma EmitKeeps(g: Graph, s: State, n: nat)
    requires WellFormed(g) && Inv(g, s) && Enabled(g, s, Emit(n))
    ensures Inv(g, Next(g, s, Emit(n)))
  {
    var s' := Next(g, s, Emit(n));
    OthersStay(s, s', n);
    MoveKeepsSpawning(g, s, s', n);
    MoveKeepsWaking(g, s, s', n);
    if s.open {
      assert n !in s.emitted && n !in s.queue;
      assert EmissionOk(s');
      EmittedAfterDependencies(g, s, s', n);
    } else {
      MoveKeepsDependencies(g, s, s', n);
    }
  }

  lemma EmittedAfterDependencies(g: Graph, s: State, s': State, n: nat)
    requires DependenciesOk(g, s) && EmissionOk(s) && Moves(s, s', n) && Of(s, n).Emitting?
        && s'.emitted == s.emitted + [n]
    requires Of(s', n).Queued?
    ensures DependenciesOk(g, s')
  {
    OthersStay(s, s', n);
    forall i, d | 0 <= i < |s'.emitted| && d in DepsOf(g, s'.emitted[i])
      ensures d in s'.emitted[..i]
    {
      if i < |s.emitted| {
        assert s'.emitted[..i] == s.emitted[..i];
      } else {
        assert Of(s, d).Finished?;
        assert s'.emitted[..i] == s.emitted;
      }
    }
  }

  lemma BroadcastKeeps(g: Graph, s: State, n: nat)
    requires WellFormed(g) && Inv(g, s) && Enabled(g, s, Broadcast(n))
    ensures Inv(g, Next(g, s, Broadcast(n)))
  {
    var s' := Next(g, s, Broadcast(n));
    OthersStay(s, s', n);
    MoveKeepsSpawning(g, s, s', n);
    MoveKeepsDependencies(g, s, s', n);
    MoveKeepsWaking(g, s, s', n);
  }

  lemma CompleteKeeps(g: Graph, s: State, n: nat)
    requires WellFormed(g) && Inv(g, s) && Enabled(g, s, Complete(n))
    ensures Inv(g, Next(g, s, Complete(n)))
  {
    var s' := Next(g, s, Complete(n));
    OthersStay(s, s', n);
    MoveKeepsSpawning(g, s, s', n);
    MoveKeepsDependencies(g, s, s', n);
    MoveKeepsWaking(g, s, s', n);
  }

  lemma ReceiveKeeps(g: Graph, s: State)
    requires WellFormed(g) && Inv(g, s) && Enabled(g, s, Receive)
    ensures Inv(g, Next(g, s, Receive))
  {
    var s' := Next(g, s, Receive);
    var n := s.queue[0];
    assert n in s.queue;
    OthersStay(s, s', n);
    MoveKeepsSpawning(g, s, s', n);
    MoveKeepsDependencies(g, s, s', n);
    MoveKeepsWaking(g, s, s', n);
    forall m
      ensures m in s'.queue <==> m in s.queue && m != n
    {
      assert s.queue == [n] + s'.queue;
    }
  }

  /** Whoever waits, waits for a dependency that is not done, whatever else changes. */
  lemma SpawnKeepsWaits(g: Graph, s: State, e: Event)
    requires WellFormed(g) && Inv(g, s) && Enabled(g, s, e) && (e.Subscribe? || e.Spawn?)
    ensures var s' := Next(g, s, e); forall m :: Of(s', m).AtSelect? && m !in s'.woken ==> StillWaits(g, s', m)
  {
    var s', n := Next(g, s, e), g.order[s.next];
    assert forall m :: m != n ==> Of(s', m) == Of(s, m);
    forall m | Of(s', m).AtSelect? && m !in s'.woken
      ensures StillWaits(g, s', m)
    {
      assert StillWaits(g, s, m);
      var d :| d in DepsOf(g, m) && !Done(Of(s, d));
      assert !Done(Of(s', d));
    }
  }

  lemma SpawnKeepsSpawning(g: Graph, s: State, e: Event)
    requires WellFormed(g) && SpawningOk(g, s) && Enabled(g, s, e) && (e.Subscribe? || e.Spawn?)
    ensures SpawningOk(g, Next(g, s, e))
  {
    var s', n := Next(g, s, e), g.order[s.next];
    assert n in g.order && !s.returned;
    assert forall m :: m != n ==> Of(s', m) == Of(s, m);
    assert forall i :: 0 <= i < |g.order| && i != s.next ==> g.order[i] != n;
  }

  lemma SpawnKeeps(g: Graph, s: State, e: Event)
    requires WellFormed(g) && Inv(g, s) && Enabled(g, s, e) && (e.Subscribe? || e.Spawn?)
    ensures Inv(g, Next(g, s, e))
  {
    var s', n := Next(g, s, e), g.order[s.next];
    assert forall m :: m != n ==> Of(s', m) == Of(s, m);
    SpawnKeepsSpawning(g, s, e);
    assert DependenciesOk(g, s');
    SpawnKeepsWaits(g, s, e);
  }

  lemma ReturnKeeps(g: Graph, s: State)
    requires WellFormed(g) && Inv(g, s) && Enabled(g, s, Return)
    ensures Inv(g, Next(g, s, Return))
  {
    var s' := Next(g, s, Return);
    assert forall m :: Of(s', m) == Of(s, m);
    forall m | Of(s', m).AtSelect? && m !in s'.woken
      ensures StillWaits(g, s', m)
    {
      assert StillWaits(g, s, m);
    }
  }

  lemma CancelKeeps(g: Graph, s: State)
    requires WellFormed(g) && Inv(g, s) && Enabled(g, s, Cancel)
    ensures Inv(g, Next(g, s, Cancel))
  {
    var s' := Next(g, s, Cancel);
    assert forall m :: Of(s', m) == Of(s, m);
  }

  lemma DropKeeps(g: Graph, s: State)
    requires WellFormed(g) && Inv(g, s) && Enabled(g, s, DropReceiver)
    ensures Inv(g, Next(g, s, DropReceiver))
  {
    var s' := Next(g, s, DropReceiver);
    assert forall m :: Of(s', m) == if Of(s, m).Queued? then Answered else Of(s, m);
    forall m | Of(s', m).AtSelect? && m !in s'.woken
      ensures StillWaits(g, s', m)
    {
      assert StillWaits(g, s, m);
      var d :| d in DepsOf(g, m) && !Done(Of(s, d));
      assert !Done(Of(s', d));
    }
  }

  lemma NextKeeps(g: Graph, s: State, e: Event)
    requires WellFormed(g) && Inv(g, s) && Enabled(g, s, e)
    ensures Inv(g, Next(g, s, e))
  {
    match e
    case Poll(n) => PollKeeps(g, s, n);
    case PollDeps(n) => PollDepsKeeps(g, s, n);
    case Emit(n) => EmitKeeps(g, s, n);
    case Broadcast(n) => BroadcastKeeps(g, s, n);
    case Receive => ReceiveKeeps(g, s);
    case Complete(n) => CompleteKeeps(g, s, n);
    case Cancel => CancelKeeps(g, s);
    case DropReceiver => DropKeeps(g, s);
    case Return => ReturnKeeps(g, s);
    case _ => SpawnKeeps(g, s, e);
  }

  lemma {:induction false} RunKeeps(g: Graph, events: seq<Event>)
    requires WellFormed(g) && Run(g, events).Some?
    ensures Inv(g, Run(g, events).value)
  {
    if events != [] {
      var front := events[..|events| - 1];
      RunKeeps(g, front);
      NextKeeps(g, Run(g, front).value, events[|events| - 1]);
    }
  }

  // What that means for the caller

  function EdgesOf(g: Graph): Edges {
    (u: nat, v: nat) => u in g.deps && v in g.deps[u]
  }

  /** Everything the node depends on was emitted before it and has finished. */
  ghost predicate ComesAfterDeps(g: Graph, s: State, i: nat)
    requires i < |s.emitted|
  {
    var n := s.emitted[i];
    n in g.deps && forall d :: d in g.deps[n] ==> d in s.emitted[..i] && Of(s, d).Finished?
  }

  /**
   Safety, in every interleaving: no finish signal is sent before every task has subscribed to it, no
   node is emitted twice, each comes after everything it depends on, whose finish signals are out,
   and a task about to emit never finds the channel full.
   */
  lemma WalkIsSafe(g: Graph, events: seq<Event>)
    requires WellFormed(g) && Run(g, events).Some?
    ensures
      var s := Run(g, events).value;
      && (forall n: nat :: Of(s, n).Finished? ==> forall m :: m in g.deps ==> Started(Of(s, m)) && (m, n) !in s.missed)
      && Distinct(s.emitted)
      && (forall i :: 0 <= i < |s.emitted| ==> ComesAfterDeps(g, s, i))
      && (forall n :: Of(s, n).Emitting? ==>
            n in g.deps && |s.queue| < Capacity(g) && forall d :: d in g.deps[n] ==> Of(s, d).Finished?)
  {
    RunKeeps(g, events);
    var s := Run(g, events).value;
    forall n: nat | Of(s, n).Finished? ensures forall m :: m in g.deps ==> Started(Of(s, m)) && (m, n) !in s.missed {
      AllHaveSubscribed(g, s, n);
    }
    forall i | 0 <= i < |s.emitted|
      ensures ComesAfterDeps(g, s, i)
    {
      EmittedIsReady(g, s, i);
    }
    forall n | Of(s, n).Emitting?
      ensures n in g.deps && |s.queue| < Capacity(g) && forall d :: d in g.deps[n] ==> Of(s, d).Finished?
    {
      ChannelHasRoom(g, s, n);
      EmittingIsReady(g, s, n);
    }
  }

  lemma AllHaveSubscribed(g: Graph, s: State, n: nat)
    requires WellFormed(g) && SpawningOk(g, s) && Of(s, n).Finished?
    ensures forall m :: m in g.deps ==> Started(Of(s, m)) && (m, n) !in s.missed
  {
    forall m | m in g.deps ensures Started(Of(s, m)) {
      var i :| 0 <= i < |g.order| && g.order[i] == m;
    }
  }

  lemma EmittedIsReady(g: Graph, s: State, i: nat)
    requires SpawningOk(g, s) && EmissionOk(s) && DependenciesOk(g, s) && i < |s.emitted|
    ensures ComesAfterDeps(g, s, i)
  {
    var n := s.emitted[i];
    assert n in s.emitted && WasEmitted(Of(s, n)) && !Of(s, n).Unspawned?;
    assert DepsOf(g, n) == g.deps[n];
  }

  lemma EmittingIsReady(g: Graph, s: State, n: nat)
    requires SpawningOk(g, s) && DependenciesOk(g, s) && Of(s, n).Emitting?
    ensures n in g.deps && forall d :: d in g.deps[n] ==> Of(s, d).Finished?
  {
    assert DepsOf(g, n) == g.deps[n];
  }

  lemma ChannelHasRoom(g: Graph, s: State, n: nat)
    requires WellFormed(g) && Inv(g, s) && Of(s, n).Emitting?
    ensures |s.queue| < |g.order|
  {
    var nodes := set m | m in g.order;
    var others := s.queue + [n];
    assert n !in s.queue;
    forall i | 0 <= i < |others|
      ensures others[i] in nodes
    {
      assert i < |s.queue| ==> s.queue[i] in s.queue;
      assert others[i] in g.deps;
    }
    DistinctBounded(others, nodes);
    SeqCoversSet(g.order, nodes);
  }

  lemma {:induction false} SeqCoversSet(p: seq<nat>, nodes: set<nat>)
    requires forall n :: n in nodes ==> n in p
    ensures |nodes| <= |p|
  {
    if p == [] {
      assert nodes == {};
    } else {
      var last := p[|p| - 1];
      SeqCoversSet(p[..|p| - 1], nodes - {last});
      assert nodes <= (nodes - {last}) + {last};
      assert |nodes| <= |nodes - {last}| + 1;
    }
  }

  /** What is in the channel is what was emitted last, in that order. */
  predicate IsTail(queue: seq<nat>, emitted: seq<nat>) {
    |queue| <= |emitted| && queue == emitted[|emitted| - |queue|..]
  }

  /** The consumer gets the nodes in the order in which they were emitted. */
  lemma {:induction false} ReceivedInOrder(g: Graph, events: seq<Event>)
    requires Run(g, events).Some?
    ensures var s := Run(g, events).value; s.open ==> IsTail(s.queue, s.emitted)
  {
    if events != [] {
      var front, e := events[..|events| - 1], events[|events| - 1];
      ReceivedInOrder(g, front);
      var s := Run(g, front).value;
      if e.Emit? && s.open {
        TailGrows(s.emitted, s.queue, e.n);
      } else if e.Receive? {
        TailShrinks(s.emitted, s.queue);
      } else {
        ChannelStays(g, s, e);
      }
    }
  }

  lemma ChannelStays(g: Graph, s: State, e: Event)
    requires Enabled(g, s, e) && !e.Receive? && !(e.Emit? && s.open)
    ensures var s' := Next(g, s, e); s'.open ==> s.open && s'.queue == s.queue && s'.emitted == s.emitted
  {
  }

  lemma TailGrows(emitted: seq<nat>, queue: seq<nat>, n: nat)
    requires IsTail(queue, emitted)
    ensures IsTail(queue + [n], emitted + [n])
  {
  }

  lemma TailShrinks(emitted: seq<nat>, queue: seq<nat>)
    requires IsTail(queue, emitted) && queue != []
    ensures IsTail(queue[1..], emitted)
  {
  }

  /**
   Once the walk is cancelled, only tasks that were past the cancellation check at that moment can
   still emit: a task suspended in its select never does.
   */
  lemma CancelStopsSelects(g: Graph, before: seq<Event>, after: seq<Event>, n: nat)
    requires WellFormed(g) && Run(g, before).Some? && Of(Run(g, before).value, n).AtSelect?
    requires Run(g, before + [Cancel] + after).Some?
    ensures
      var s := Run(g, before + [Cancel] + after).value;
      n !in s.emitted && (Of(s, n).AtSelect? || Of(s, n).Exited?)
  {
    LateStays(g, before, after, n);
    RunKeeps(g, before + [Cancel] + after);
  }

  lemma NoSecondCancel(g: Graph, s: State, e: Event, n: nat)
    requires s.cancelled && n in s.late && Enabled(g, s, e)
    ensures Next(g, s, e).cancelled && n in Next(g, s, e).late
  {
  }

  lemma LastStep(g: Graph, events: seq<Event>, front: seq<Event>, e: Event)
    requires events == front + [e] && Run(g, events).Some?
    ensures Run(g, front).Some? && Enabled(g, Run(g, front).value, e)
        && Run(g, events).value == Next(g, Run(g, front).value, e)
  {
    assert events[..|events| - 1] == front && events[|events| - 1] == e;
  }

  lemma {:induction false} LateStays(g: Graph, before: seq<Event>, after: seq<Event>, n: nat)
    requires WellFormed(g) && Run(g, before).Some? && Of(Run(g, before).value, n).AtSelect?
    requires Run(g, before + [Cancel] + after).Some?
    ensures n in Run(g, before + [Cancel] + after).value.late && Run(g, before + [Cancel] + after).value.cancelled
  {
    var all := before + [Cancel] + after;
    if after == [] {
      assert all == before + [Cancel];
      LastStep(g, all, before, Cancel);
    } else {
      var front, e := after[..|after| - 1], after[|after| - 1];
      assert all == (before + [Cancel] + front) + [e];
      LastStep(g, all, before + [Cancel] + front, e);
      LateStays(g, before, front, n);
      NoSecondCancel(g, Run(g, before + [Cancel] + front).value, e, n);
    }
  }

  /**
   A task that has passed the cancellation check and has nothing left to wait for but the consumer: it is about
   to emit, or in the middle of a poll with all its dependencies emitted.
   */
  ghost predicate Underway(g: Graph, s: State, n: nat) {
    Of(s, n).Emitting? || (Of(s, n).Polling? && forall d :: d in DepsOf(g, n) ==> WasEmitted(Of(s, d)))
  }

  ghost predicate CanOvertake(g: Graph, s: State) {
    s.open && exists n :: Underway(g, s, n)
  }

  /** The run goes on from `s`. */
  function Go(g: Graph, s: State, events: seq<Event>): Option<State>
    decreases |events|
  {
    if events == [] then Some(s)
    else if Enabled(g, s, events[0]) then Go(g, Next(g, s, events[0]), events[1..])
    else None
  }

  ghost predicate EmitsMore(g: Graph, s: State, after: seq<Event>) {
    Go(g, s, after).Some? && |Go(g, s, after).value.emitted| > |s.emitted|
  }

  lemma Trace(g: Graph, events: seq<Event>, e: Event) returns (s: State)
    requires Run(g, events).Some? && Enabled(g, Run(g, events).value, e)
    ensures Run(g, events + [e]) == Some(s) && s == Next(g, Run(g, events).value, e)
  {
    assert (events + [e])[..|events|] == events;
    s := Next(g, Run(g, events).value, e);
  }

  lemma {:induction false} NoWayBack(g: Graph, events: seq<Event>, after: seq<Event>)
    requires Run(g, events).None?
    ensures Run(g, events + after).None?
  {
    if after == [] {
      assert events + after == events;
    } else {
      var all := events + after;
      assert all[..|all| - 1] == events + after[..|after| - 1];
      NoWayBack(g, events, after[..|after| - 1]);
    }
  }

  lemma {:induction false} RunThenGo(g: Graph, events: seq<Event>, after: seq<Event>)
    requires Run(g, events).Some?
    ensures Run(g, events + after) == Go(g, Run(g, events).value, after)
    decreases |after|
  {
    if after == [] {
      assert events + after == events;
    } else {
      var e, rest := after[0], after[1..];
      assert events + after == (events + [e]) + rest;
      if Enabled(g, Run(g, events).value, e) {
        var s := Trace(g, events, e);
        RunThenGo(g, events + [e], rest);
      } else {
        assert (events + [e])[..|events|] == events;
        NoWayBack(g, events + [e], rest);
      }
    }
  }

  /** Once cancelled with nobody under way, nothing gets under way and nothing is emitted. */
  lemma NobodyOvertakes(g: Graph, s: State, e: Event)
    requires EmissionOk(s) && s.cancelled && !CanOvertake(g, s) && Enabled(g, s, e)
    ensures var s' := Next(g, s, e); s'.cancelled && !CanOvertake(g, s') && s'.emitted == s.emitted
  {
    var s' := Next(g, s, e);
    if s'.open {
      assert e.Emit? ==> Underway(g, s, e.n);
      forall n ensures !Underway(g, s', n) {
        assert !Underway(g, s, n);
        NotUnderway(g, s, e, n);
      }
    }
  }

  lemma NotUnderway(g: Graph, s: State, e: Event, n: nat)
    requires EmissionOk(s) && s.cancelled && Enabled(g, s, e) && !e.Emit? && !e.DropReceiver? && !Underway(g, s, n)
    ensures !Underway(g, Next(g, s, e), n)
  {
    var s' := Next(g, s, e);
    NoneNewlyEmitted(g, s, e);
    if Of(s, n).Polling? {
      var d :| d in DepsOf(g, n) && !WasEmitted(Of(s, d));
      assert !Received(s, n, d) && !WasEmitted(Of(s', d));
    }
  }

  lemma NoneNewlyEmitted(g: Graph, s: State, e: Event)
    requires EmissionOk(s) && Enabled(g, s, e) && !e.Emit? && !e.DropReceiver?
    ensures forall d :: WasEmitted(Of(Next(g, s, e), d)) ==> WasEmitted(Of(s, d))
  {
    if e.Receive? { assert s.queue[0] in s.queue; }
  }

  lemma {:induction false} NoMoreEmissions(g: Graph, s: State, after: seq<Event>)
    requires WellFormed(g) && Inv(g, s) && s.cancelled && !CanOvertake(g, s)
    ensures !EmitsMore(g, s, after)
    decreases |after|
  {
    if after != [] && Enabled(g, s, after[0]) {
      NextKeeps(g, s, after[0]);
      NobodyOvertakes(g, s, after[0]);
      NoMoreEmissions(g, Next(g, s, after[0]), after[1..]);
    }
  }

  /** The consumer can go on, and `n` waits in mid-poll for dependencies that have been emitted. */
  ghost predicate Coming(g: Graph, s: State, n: nat) {
    s.returned && s.open && Of(s, n).Polling? && forall d :: d in DepsOf(g, n) ==> WasEmitted(Of(s, d))
  }

  /** While a dependency is not finished, the consumer or that dependency can move it on. */
  lemma NextForDependency(g: Graph, s: State, n: nat, d: nat) returns (e: Event)
    requires EmissionOk(s) && Coming(g, s, n) && d in DepsOf(g, n) && !Of(s, d).Finished?
    ensures Enabled(g, s, e) && IsOrderly(e) && Coming(g, Next(g, s, e), n) && Next(g, s, e).emitted == s.emitted
  {
    if s.queue != [] {
      e := Receive;
      assert s.queue[0] in s.queue;
    } else {
      assert !Of(s, d).Queued?;
      e := if Of(s, d).Held? then Complete(d) else Broadcast(d);
    }
    var s' := Next(g, s, e);
    assert forall m :: WasEmitted(Of(s, m)) ==> WasEmitted(Of(s', m));
  }

  ghost predicate AllFinished(g: Graph, s: State, n: nat) {
    forall d :: d in DepsOf(g, n) ==> Of(s, d).Finished?
  }

  /** So its dependencies can be brought to their end while the task waits, and it emits its node. */
  lemma {:induction false} ComingEmits(g: Graph, s: State, n: nat) returns (after: seq<Event>)
    requires WellFormed(g) && Inv(g, s) && Coming(g, s, n)
    ensures EmitsMore(g, s, after)
    decreases Budget(g, s)
  {
    var e: Event;
    if AllFinished(g, s, n) {
      e := PollDeps(n);
      assert Of(Next(g, s, e), n).Emitting?;
      NextKeeps(g, s, e);
      after := EmitNow(g, Next(g, s, e), n);
    } else {
      var d :| d in DepsOf(g, n) && !Of(s, d).Finished?;
      e := NextForDependency(g, s, n, d);
      StepCosts(g, s, e);
      NextKeeps(g, s, e);
      after := ComingEmits(g, Next(g, s, e), n);
    }
    var rest := after;
    after := [e] + rest;
    assert after[1..] == rest;
  }

  lemma EmitNow(g: Graph, s: State, n: nat) returns (after: seq<Event>)
    requires WellFormed(g) && Inv(g, s) && Of(s, n).Emitting? && s.open
    ensures EmitsMore(g, s, after)
  {
    ChannelHasRoom(g, s, n);
    after := [Emit(n)];
    assert Go(g, Next(g, s, Emit(n)), after[1..]) == Some(Next(g, s, Emit(n)));
  }

  /**
   A cancellation can be overtaken, by some continuation of the run that emits a further node, exactly if at that
   moment the receiver is open and some task is under way.
   */
  lemma OvertakenIff(g: Graph, before: seq<Event>)
    requires WellFormed(g) && Run(g, before).Some? && Run(g, before + [Cancel]).Some?
    ensures
      var s := Run(g, before + [Cancel]).value;
      (exists after :: EmitsMore(g, s, after)) <==> CanOvertake(g, Run(g, before).value)
  {
    var s, s' := Run(g, before).value, Run(g, before + [Cancel]).value;
    LastStep(g, before + [Cancel], before, Cancel);
    RunKeeps(g, before + [Cancel]);
    assert forall m :: Of(s', m) == Of(s, m);
    assert forall n :: Underway(g, s', n) <==> Underway(g, s, n);
    if CanOvertake(g, s) {
      var n :| Underway(g, s, n);
      var after;
      if Of(s, n).Emitting? { after := EmitNow(g, s', n); } else { after := ComingEmits(g, s', n); }
    } else {
      forall after ensures !EmitsMore(g, s', after) { NoMoreEmissions(g, s', after); }
    }
  }

  /** Such a moment exists: a single node in mid-poll. */
  lemma CancelCanBeOvertaken() returns (g: Graph, before: seq<Event>, after: seq<Event>)
    ensures WellFormed(g) && Run(g, before + [Cancel]).Some? && Run(g, before + [Cancel]).value.emitted == []
    ensures Run(g, before + [Cancel] + after).Some? && Run(g, before + [Cancel] + after).value.emitted != []
  {
    g := Graph([7], map[7 := {}]);
    var s := SpawnOnly7(g);
    before := [Subscribe, Spawn, Return] + [Poll(7)];
    s := Trace(g, [Subscribe, Spawn, Return], Poll(7));
    assert Underway(g, s, 7);
    s := Trace(g, before, Cancel);
    OvertakenIff(g, before);
    after :| EmitsMore(g, s, after);
    RunThenGo(g, before + [Cancel], after);
  }

  lemma SpawnOnly7(g: Graph) returns (s: State)
    requires g == Graph([7], map[7 := {}])
    ensures Run(g, [Subscribe, Spawn, Return]) == Some(s)
    ensures s.returned && !s.cancelled && s.open && s.queue == [] == s.emitted && s.tasks == map[7 := AtSelect]
        && s.woken == {7}
  {
    s := Trace(g, [], Subscribe);
    s := Trace(g, [] + [Subscribe], Spawn);
    s := Trace(g, [] + [Subscribe] + [Spawn], Return);
    assert [] + [Subscribe] + [Spawn] + [Return] == [Subscribe, Spawn, Return];
  }

  // Progress

  predicate IsOrderly(e: Event) {
    !e.Cancel? && !e.DropReceiver?
  }

  /** Neither the tasks nor the spawning loop nor a consumer that completes what it gets can go on. */
  ghost predicate AtRest(g: Graph, s: State) {
    forall e :: IsOrderly(e) ==> !Enabled(g, s, e)
  }

  /** At rest every task has ended, or sleeps in its select waiting for another one that does. */
  lemma RestShape(g: Graph, s: State, n: nat)
    requires WellFormed(g) && Inv(g, s) && AtRest(g, s) && n in g.deps
    ensures Done(Of(s, n)) || (Of(s, n).AtSelect? && n !in s.woken && s.returned)
  {
    assert !Enabled(g, s, Subscribe) && !Enabled(g, s, Spawn) && !Enabled(g, s, Return);
    assert s.returned;
    var i :| 0 <= i < |g.order| && g.order[i] == n;
    assert Started(Of(s, n));
    assert !Enabled(g, s, Poll(n)) && !Enabled(g, s, PollDeps(n)) && !Enabled(g, s, Emit(n));
    assert !Enabled(g, s, Broadcast(n)) && !Enabled(g, s, Complete(n)) && !Enabled(g, s, Receive);
    if Of(s, n).Emitting? { ChannelHasRoom(g, s, n); }
    assert Of(s, n).Queued? ==> n in s.queue;
  }

  /** After a cancellation nothing is left running once the system rests, so waiting for the tasks ends. */
  lemma CancelledWalkEnds(g: Graph, events: seq<Event>, n: nat)
    requires WellFormed(g) && Run(g, events).Some? && n in g.deps
    requires var s := Run(g, events).value; s.cancelled && AtRest(g, s)
    ensures Done(Of(Run(g, events).value, n))
  {
    RunKeeps(g, events);
    RestShape(g, Run(g, events).value, n);
  }

  function EmittedBefore(s: State, i: nat): set<nat> {
    set k | 0 <= k < i && k < |s.emitted| :: s.emitted[k]
  }

  lemma EmittedIsClosed(g: Graph, s: State, i: nat)
    requires DependenciesOk(g, s) && i <= |s.emitted|
    ensures forall x, y :: x in EmittedBefore(s, i) && EdgesOf(g)(x, y) ==> y in EmittedBefore(s, i)
  {
    forall x, y | x in EmittedBefore(s, i) && EdgesOf(g)(x, y)
      ensures y in EmittedBefore(s, i)
    {
      var k :| 0 <= k < i && s.emitted[k] == x;
      assert y in s.emitted[..k];
      var m :| 0 <= m < k && s.emitted[..k][m] == y;
      assert s.emitted[m] == y;
    }
  }

  lemma EmittedNotOnCycle(g: Graph, s: State, i: nat)
    requires DependenciesOk(g, s) && Distinct(s.emitted) && i < |s.emitted|
    ensures !OnCycle(EdgesOf(g), s.emitted[i])
  {
    var e, n := EdgesOf(g), s.emitted[i];
    if OnCycle(e, n) {
      var w := FirstStep(e, n, n);
      assert w in s.emitted[..i];
      var m :| 0 <= m < i && s.emitted[..i][m] == w;
      assert s.emitted[m] == w && w in EmittedBefore(s, i);
      assert n !in EmittedBefore(s, i);
      EmittedIsClosed(g, s, i);
      if w != n { ClosedUnderLeads(e, EmittedBefore(s, i), w, n); }
    }
  }

  lemma EmittedReachNoCycle(g: Graph, s: State, n: nat)
    requires DependenciesOk(g, s) && Distinct(s.emitted) && n in s.emitted
    ensures !ReachesCycle(EdgesOf(g), n)
  {
    var e, all := EdgesOf(g), EmittedBefore(s, |s.emitted|);
    EmittedIsClosed(g, s, |s.emitted|);
    forall c | OnCycle(e, c)
      ensures c !in all
    {
      if c in all {
        var k :| 0 <= k < |s.emitted| && s.emitted[k] == c;
        EmittedNotOnCycle(g, s, k);
      }
    }
    var i :| 0 <= i < |s.emitted| && s.emitted[i] == n;
    assert n in all;
    forall c | OnCycle(e, c)
      ensures !(n == c || Leads(e, n, c))
    {
      if Leads(e, n, c) { ClosedUnderLeads(e, all, n, c); }
    }
  }

  ghost predicate AllOrderly(events: seq<Event>) {
    forall i :: 0 <= i < |events| ==> IsOrderly(events[i])
  }

  lemma {:induction false} OrderlyRunIsOpen(g: Graph, events: seq<Event>)
    requires Run(g, events).Some? && AllOrderly(events)
    ensures Run(g, events).value.open && !Run(g, events).value.cancelled
  {
    if events != [] {
      var front := events[..|events| - 1];
      assert forall i :: 0 <= i < |front| ==> front[i] == events[i];
      OrderlyRunIsOpen(g, front);
    }
  }

  /**
   Completeness. If the walk is not cancelled, the consumer keeps receiving and completes what it gets,
   then a run that has come to rest has emitted exactly the nodes from which no cycle can be
   reached, each once and after everything it depends on.
   */
  lemma WalkIsComplete(g: Graph, events: seq<Event>, n: nat)
    requires WellFormed(g) && Run(g, events).Some? && AllOrderly(events) && AtRest(g, Run(g, events).value)
        && n in g.deps
    ensures n in Run(g, events).value.emitted <==> !ReachesCycle(EdgesOf(g), n)
  {
    RunKeeps(g, events);
    OrderlyRunIsOpen(g, events);
    var s := Run(g, events).value;
    var asleep := set m | m in g.deps && Of(s, m).AtSelect?;
    forall m | m in g.deps
      ensures Of(s, m).Finished? || (m in asleep && m !in s.woken)
    {
      RestShape(g, s, m);
    }
    if n in s.emitted {
      EmittedReachNoCycle(g, s, n);
    } else {
      forall m | m in asleep
        ensures StepsInside(EdgesOf(g), asleep, m)
      {
        assert StillWaits(g, s, m);
        var d :| d in DepsOf(g, m) && !Done(Of(s, d));
        assert d in asleep && EdgesOf(g)(m, d);
      }
      assert n in asleep;
      TrappedReachesCycle(EdgesOf(g), asleep, n);
    }
  }

  /** On a graph without cycles, a run at rest has emitted every node. */
  lemma DagIsWalked(g: Graph, events: seq<Event>)
    requires WellFormed(g) && Run(g, events).Some? && AllOrderly(events) && AtRest(g, Run(g, events).value)
    requires Acyclic(EdgesOf(g))
    ensures forall n :: n in g.deps ==> n in Run(g, events).value.emitted
  {
    forall n | n in g.deps
      ensures n in Run(g, events).value.emitted
    {
      WalkIsComplete(g, events, n);
    }
  }

  // Every run is finite

  function Weight(t: Task, size: nat): nat {
    match t
    case Unspawned => 3 * size + 10
    case Subscribed => 3 * size + 9
    case AtSelect => 3 * size + 5
    case Polling => 3 * size + 6
    case Emitting => 3 * size + 4
    case Queued => 3 * size + 3
    case Held => 3 * size + 2
    case Answered => 3 * size + 1
    case Finished => 0
    case Exited => 0
  }

  function Weights(order: seq<nat>, s: State, size: nat): nat {
    if order == [] then 0
    else Weights(order[..|order| - 1], s, size) + Weight(Of(s, order[|order| - 1]), size)
  }

  /** An upper bound on the number of steps still possible. */
  function Budget(g: Graph, s: State): nat {
    Weights(g.order, s, |g.order|) + 3 * |s.woken| + if s.returned then 0 else 1
  }

  lemma {:induction false} WeightsAfterMove(order: seq<nat>, s: State, s': State, n: nat, size: nat)
    requires Distinct(order) && forall m :: m != n ==> Of(s', m) == Of(s, m)
    ensures n in order ==>
        Weights(order, s', size) == Weights(order, s, size) - Weight(Of(s, n), size) + Weight(Of(s', n), size)
    ensures n !in order ==> Weights(order, s', size) == Weights(order, s, size)
  {
    if order != [] {
      var front := order[..|order| - 1];
      assert order == front + [order[|order| - 1]];
      WeightsAfterMove(front, s, s', n, size);
    }
  }

  lemma WokenBounded(g: Graph, d: nat)
    requires WellFormed(g)
    ensures |Dependents(g, d)| <= |g.order|
  {
    SeqCoversSet(g.order, Dependents(g, d));
  }

  lemma MoveCosts(g: Graph, s: State, s': State, n: nat, woken: nat)
    requires WellFormed(g) && n in g.deps && forall m :: m != n ==> Of(s', m) == Of(s, m)
    requires s'.returned == s.returned && |s'.woken| <= |s.woken| + woken
    requires Weight(Of(s', n), |g.order|) + 3 * woken < Weight(Of(s, n), |g.order|)
    ensures Budget(g, s') < Budget(g, s)
  {
    WeightsAfterMove(g.order, s, s', n, |g.order|);
  }

  lemma UnionSize(a: set<nat>, b: set<nat>)
    ensures |a + b| <= |a| + |b|
  {
    assert a + b == a + (b - a);
    assert |b| == |b * a| + |b - a| by { assert b == (b * a) + (b - a); }
  }

  lemma SpawnCosts(g: Graph, s: State, e: Event)
    requires WellFormed(g) && Inv(g, s) && Enabled(g, s, e) && (e.Subscribe? || e.Spawn? || e.Return?)
    ensures Budget(g, Next(g, s, e)) < Budget(g, s)
  {
    var s' := Next(g, s, e);
    if e.Return? {
      SameWeights(g.order, s, s', |g.order|);
    } else {
      var n := g.order[s.next];
      assert n in g.order;
      UnionSize(s.woken, {n});
      MoveCosts(g, s, s', n, if e.Spawn? then 1 else 0);
    }
  }

  lemma ConsumerCosts(g: Graph, s: State, e: Event)
    requires WellFormed(g) && Inv(g, s) && Enabled(g, s, e) && (e.Receive? || e.Complete?)
    ensures Budget(g, Next(g, s, e)) < Budget(g, s)
  {
    var n := if e.Receive? then s.queue[0] else e.n;
    assert e.Receive? ==> n in s.queue;
    MoveCosts(g, s, Next(g, s, e), n, 0);
  }

  lemma InGraph(g: Graph, s: State, n: nat)
    requires Inv(g, s) && WellFormed(g) && !Of(s, n).Unspawned?
    ensures n in g.deps
  {
  }

  /** What a task's own step may do: move on, or end and wake its dependents. */
  lemma TaskMoves(g: Graph, s: State, e: Event)
    requires Enabled(g, s, e) && (e.PollDeps? || e.Emit? || e.Broadcast?)
    ensures var s', n := Next(g, s, e), e.n;
      && s'.returned == s.returned && !Done(Of(s, n)) && (forall m :: m != n ==> Of(s', m) == Of(s, m))
      && if Done(Of(s', n)) then s'.woken == s.woken + Dependents(g, n)
         else s'.woken == s.woken && Weight(Of(s', n), |g.order|) < Weight(Of(s, n), |g.order|)
  {
    match e
    case PollDeps(n) =>
    case Emit(n) =>
    case Broadcast(n) =>
  }

  lemma TaskCosts(g: Graph, s: State, e: Event)
    requires WellFormed(g) && Enabled(g, s, e) && (e.PollDeps? || e.Emit? || e.Broadcast?) && e.n in g.deps
    ensures Budget(g, Next(g, s, e)) < Budget(g, s)
  {
    TaskMoves(g, s, e);
    EndCosts(g, s, Next(g, s, e), e.n);
  }

  lemma StepCosts(g: Graph, s: State, e: Event)
    requires WellFormed(g) && Inv(g, s) && Enabled(g, s, e) && IsOrderly(e)
    ensures Budget(g, Next(g, s, e)) < Budget(g, s)
  {
    if e.Poll? {
      PollCosts(g, s, e.n);
    } else if e.Receive? || e.Complete? {
      ConsumerCosts(g, s, e);
    } else if e.PollDeps? || e.Emit? || e.Broadcast? {
      InGraph(g, s, e.n);
      TaskCosts(g, s, e);
    } else {
      SpawnCosts(g, s, e);
    }
  }

  lemma {:induction false} SameWeights(order: seq<nat>, s: State, s': State, size: nat)
    requires forall m :: Of(s', m) == Of(s, m)
    ensures Weights(order, s', size) == Weights(order, s, size)
  {
    if order != [] { SameWeights(order[..|order| - 1], s, s', size); }
  }

  /** A step that ends a task pays for waking its dependents; one that does not wakes nobody. */
  lemma EndCosts(g: Graph, s: State, s': State, n: nat)
    requires WellFormed(g) && n in g.deps && forall m :: m != n ==> Of(s', m) == Of(s, m)
    requires s'.returned == s.returned
    requires !Done(Of(s, n))
    requires if Done(Of(s', n)) then s'.woken == s.woken + Dependents(g, n)
             else s'.woken == s.woken && Weight(Of(s', n), |g.order|) < Weight(Of(s, n), |g.order|)
    ensures Budget(g, s') < Budget(g, s)
  {
    if Done(Of(s', n)) {
      WokenBounded(g, n);
      UnionSize(s.woken, Dependents(g, n));
      MoveCosts(g, s, s', n, |Dependents(g, n)|);
    } else {
      MoveCosts(g, s, s', n, 0);
    }
  }

  lemma PollCosts(g: Graph, s: State, n: nat)
    requires WellFormed(g) && Inv(g, s) && Enabled(g, s, Poll(n))
    ensures Budget(g, Next(g, s, Poll(n))) < Budget(g, s)
  {
    var s' := Next(g, s, Poll(n));
    assert |s.woken - {n}| == |s.woken| - 1;
    var s1 := s.(woken := s.woken - {n});
    SameWeights(g.order, s, s1, |g.order|);
    assert n in g.deps;
    if s.cancelled {
      EndCosts(g, s1, s', n);
    } else {
      WeightsAfterMove(g.order, s1, s', n, |g.order|);
    }
  }

  /** Every run without cancellation is finite: it is no longer than the budget at its start. */
  lemma {:induction false} WalkIsFinite(g: Graph, events: seq<Event>)
    requires WellFormed(g) && Run(g, events).Some? && AllOrderly(events)
    ensures |events| + Budget(g, Run(g, events).value) <= Budget(g, Start)
  {
    if events != [] {
      var front := events[..|events| - 1];
      assert forall i :: 0 <= i < |front| ==> front[i] == events[i];
      WalkIsFinite(g, front);
      RunKeeps(g, front);
      StepCosts(g, Run(g, front).value, events[|events| - 1]);
    }
  }

  /** The receiver can be dropped once. */
  function FullBudget(g: Graph, s: State): nat {
    Budget(g, s) + if s.open then 1 else 0
  }

  lemma {:induction false} LighterTasks(order: seq<nat>, s: State, s': State, size: nat)
    requires forall m :: Weight(Of(s', m), size) <= Weight(Of(s, m), size)
    ensures Weights(order, s', size) <= Weights(order, s, size)
  {
    if order != [] { LighterTasks(order[..|order| - 1], s, s', size); }
  }

  lemma AnyStepCosts(g: Graph, s: State, e: Event)
    requires WellFormed(g) && Inv(g, s) && Enabled(g, s, e) && !e.Cancel?
    ensures FullBudget(g, Next(g, s, e)) < FullBudget(g, s)
  {
    var s' := Next(g, s, e);
    if e.DropReceiver? {
      LighterTasks(g.order, s, s', |g.order|);
    } else {
      StepCosts(g, s, e);
    }
  }

  /** After a cancellation only finitely many steps follow, whatever the consumer does. */
  lemma {:induction false} CancelledWalkIsFinite(g: Graph, s: State, after: seq<Event>)
    requires WellFormed(g) && Inv(g, s) && s.cancelled && Go(g, s, after).Some?
    ensures |after| + FullBudget(g, Go(g, s, after).value) <= FullBudget(g, s)
    decreases |after|
  {
    if after != [] {
      NextKeeps(g, s, after[0]);
      AnyStepCosts(g, s, after[0]);
      CancelledWalkIsFinite(g, Next(g, s, after[0]), after[1..]);
    }
  }
}
