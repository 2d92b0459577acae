/**
 The asynchronous cache: callers put requests into a channel, a manager takes them out one by one and
 starts a worker for each write, as many at a time as there are permits. A flush waits for all workers;
 a shutdown closes the channel, drops what is still in it and waits for all workers.
 */
module AsyncCache {
  import opened Basics

  const CHANNEL_CAPACITY: nat := 1

  /** Every request has its own number. */
  datatype Request = Write(id: nat) | Flush(id: nat) | Shutdown(id: nat)

  datatype Manager =
    | Receiving
    | Acquiring(id: nat)            // a write waits for a permit
    | Flushing(id: nat)
    | Closing(done: Option<nat>)    // left its loop; the channel still takes requests
    | Draining(done: Option<nat>)
    | Stopped(done: Option<nat>)

  /** What the caller of a flush or a shutdown gets to know. `Abandoned`: its callback was dropped unused. */
  datatype Reply = Completed | Abandoned

  datatype System = System(
    permits: nat,
    manager: Manager,
    open: bool,
    senders: bool,              // somebody still holds the cache
    channel: seq<Request>,
    running: set<nat>,          // writes that hold a permit
    workers: set<nat>,          // workers the manager has not seen finish yet
    finished: set<nat>,
    replies: map<nat, Reply>,
    taken: seq<Request>,        // what the manager has received, in order
    dropped: seq<Request>)      // what was in the channel when it was closed

  function Start(permits: nat): System {
    System(permits, Receiving, true, true, [], {}, {}, {}, map[], [], [])
  }

  /** Every request a caller was told is accepted, in order. */
  function Accepted(s: System): seq<Request> {
    s.taken + s.channel + s.dropped
  }

  datatype Event =
    | Send(r: Request) | SendersGone
    | Receive | Hangup | Spawn | FlushDone | Close | DrainDone | Reap(id: nat)
    | Finish(id: nat)

  predicate IsNew(s: System, id: nat) {
    forall i :: 0 <= i < |Accepted(s)| ==> Accepted(s)[i].id != id
  }

  predicate Enabled(s: System, e: Event) {
    match e
    case Send(r) => s.senders && s.open && |s.channel| < CHANNEL_CAPACITY && IsNew(s, r.id)
    case SendersGone => s.senders
    case Receive => s.manager.Receiving? && s.channel != []
    case Hangup => s.manager.Receiving? && s.channel == [] && !s.senders
    case Spawn => s.manager.Acquiring? && |s.running| < s.permits
    case FlushDone => s.manager.Flushing? && s.workers == {}
    case Close => s.manager.Closing?
    case DrainDone => s.manager.Draining? && s.workers == {}
    case Reap(id) => (s.manager.Flushing? || s.manager.Draining?) && id in s.workers && id in s.finished
    case Finish(id) => id in s.running
  }

  function Take(s: System): System
    requires s.channel != []
  {
    var r := s.channel[0];
    var m :=
      match r
      case Write(id) => Acquiring(id)
      case Flush(id) => Flushing(id)
      case Shutdown(id) => Closing(Some(id));
    s.(manager := m, channel := s.channel[1..], taken := s.taken + [r])
  }

  function Next(s: System, e: Event): System
    requires Enabled(s, e)
  {
    match e
    case Send(r) => s.(channel := s.channel + [r])
    case SendersGone => s.(senders := false)
    case Receive => Take(s)
    case Hangup => s.(manager := Closing(None))
    case Spawn =>
      s.(manager := Receiving, running := s.running + {s.manager.id}, workers := s.workers + {s.manager.id})
    case FlushDone => s.(manager := Receiving, replies := s.replies[s.manager.id := Completed])
    case Close =>
      s.(manager := Draining(s.manager.done), open := false, channel := [], dropped := s.channel,
         replies := s.replies + map i | 0 <= i < |s.channel| && !s.channel[i].Write? :: s.channel[i].id := Abandoned)
    case DrainDone =>
      s.(manager := Stopped(s.manager.done),
         replies := if s.manager.done.Some? then s.replies[s.manager.done.value := Completed] else s.replies)
    case Reap(id) => s.(workers := s.workers - {id})
    case Finish(id) => s.(running := s.running - {id}, finished := s.finished + {id})
  }

  function Run(permits: nat, events: seq<Event>): Option<System> {
    if events == [] then Some(Start(permits)) else
    match Run(permits, events[..|events| - 1])
    case None => None
    case Some(s) => if Enabled(s, events[|events| - 1]) then Some(Next(s, events[|events| - 1])) else None
  }

  // What every step keeps

  /** The manager is still in its loop. */
  predicate Looping(m: Manager) {
    m.Receiving? || m.Acquiring? || m.Flushing?
  }

  predicate Distinct(rs: seq<Request>) {
    forall i, j :: 0 <= i < j < |rs| ==> rs[i].id != rs[j].id
  }

  predicate HasId(rs: seq<Request>, id: nat) {
    exists i :: 0 <= i < |rs| && rs[i].id == id
  }

  predicate ChannelOk(s: System) {
    && Distinct(Accepted(s)) && |s.channel| <= CHANNEL_CAPACITY && |s.dropped| <= CHANNEL_CAPACITY
    && (if s.open then s.dropped == [] else s.channel == [])
    && (s.open <==> Looping(s.manager) || s.manager.Closing?)
  }

  predicate NoShutdown(rs: seq<Request>, n: nat) {
    forall i :: 0 <= i < n && i < |rs| ==> !rs[i].Shutdown?
  }

  /** The manager left its loop for the last request it took, or because nobody can send any more. */
  predicate LeftFor(s: System, done: Option<nat>) {
    match done
    case None => NoShutdown(s.taken, |s.taken|) && !s.senders && s.channel == [] && s.dropped == []
    case Some(id) => s.taken != [] && s.taken[|s.taken| - 1] == Shutdown(id) && NoShutdown(s.taken, |s.taken| - 1)
  }

  predicate TakenOk(s: System) {
    match s.manager
    case Receiving => NoShutdown(s.taken, |s.taken|)
    case Acquiring(id) => NoShutdown(s.taken, |s.taken|) && s.taken != [] && s.taken[|s.taken| - 1] == Write(id)
    case Flushing(id) => NoShutdown(s.taken, |s.taken|) && s.taken != [] && s.taken[|s.taken| - 1] == Flush(id)
    case Closing(done) => LeftFor(s, done)
    case Draining(done) => LeftFor(s, done)
    case Stopped(done) => LeftFor(s, done)
  }

  predicate IsWrite(s: System, id: nat) {
    exists i :: 0 <= i < |s.taken| && s.taken[i] == Write(id)
  }

  predicate WriteOk(s: System, id: nat) {
    id in s.finished || id in s.workers || s.manager == Acquiring(id)
  }

  predicate WorkersOk(s: System) {
    && |s.running| <= s.permits && s.running <= s.workers && s.running !! s.finished
    && (s.manager.Acquiring? ==> s.manager.id !in s.workers + s.finished)
    && (forall id :: id in s.workers ==> id in s.running || id in s.finished)
    && (forall id :: id in s.workers + s.finished ==> IsWrite(s, id))
    && (forall i :: 0 <= i < |s.taken| && s.taken[i].Write? ==> WriteOk(s, s.taken[i].id))
    && (s.manager.Stopped? ==> s.workers == {})
  }

  /** Every write among the first `n` requests taken is done. */
  predicate AllFinished(s: System, n: nat) {
    forall i :: 0 <= i < n && i < |s.taken| && s.taken[i].Write? ==> s.taken[i].id in s.finished
  }

  predicate Answered(s: System, id: nat, reply: Reply) {
    id in s.replies && s.replies[id] == reply
  }

  /** Whoever waits is still being served, or was told so after all earlier writes were done. */
  predicate ReplyOk(s: System, i: nat)
    requires i < |s.taken|
  {
    var id := s.taken[i].id;
    match s.taken[i]
    case Write(_) => id !in s.replies
    case Flush(_) =>
      if s.manager == Flushing(id) then id !in s.replies else Answered(s, id, Completed) && AllFinished(s, i)
    case Shutdown(_) =>
      if s.manager == Stopped(Some(id)) then Answered(s, id, Completed) && AllFinished(s, i) else id !in s.replies
  }

  predicate RepliesOk(s: System) {
    && (forall i :: 0 <= i < |s.taken| ==> ReplyOk(s, i))
    && (forall i :: 0 <= i < |s.dropped| && !s.dropped[i].Write? ==> Answered(s, s.dropped[i].id, Abandoned))
    && (forall id :: id in s.replies ==> HasId(s.taken, id) || HasId(s.dropped, id))
  }

  predicate Inv(s: System) {
    ChannelOk(s) && TakenOk(s) && WorkersOk(s) && RepliesOk(s)
  }

  lemma ChannelStep(s: System, e: Event)
    requires ChannelOk(s) && Enabled(s, e)
    ensures ChannelOk(Next(s, e))
  {
    var s' := Next(s, e);
    match e {
      case Send(r) => assert Accepted(s') == Accepted(s) + [r];
      case Receive => assert Accepted(s') == Accepted(s) by { assert s.channel == [s.channel[0]] + s.channel[1..]; }
      case Close => assert Accepted(s') == Accepted(s);
      case _ => assert Accepted(s') == Accepted(s);
    }
  }

  lemma TakenStep(s: System, e: Event)
    requires ChannelOk(s) && TakenOk(s) && Enabled(s, e)
    ensures TakenOk(Next(s, e))
  {
  }

  /** A request that has not been taken is none of those that have. */
  lemma LaterIsNew(s: System, i: nat)
    requires ChannelOk(s) && |s.taken| <= i < |Accepted(s)|
    ensures !HasId(s.taken, Accepted(s)[i].id) && !IsWrite(s, Accepted(s)[i].id)
  {
    forall k | 0 <= k < |s.taken| ensures s.taken[k].id != Accepted(s)[i].id { assert Accepted(s)[k] == s.taken[k]; }
  }

  lemma TakenIsNew(s: System)
    requires ChannelOk(s) && s.channel != []
    ensures !HasId(s.taken, s.channel[0].id) && !HasId(s.dropped, s.channel[0].id) && !IsWrite(s, s.channel[0].id)
  {
    assert Accepted(s)[|s.taken|] == s.channel[0];
    LaterIsNew(s, |s.taken|);
  }

  lemma WorkersStep(s: System, e: Event)
    requires ChannelOk(s) && TakenOk(s) && WorkersOk(s) && Enabled(s, e)
    ensures WorkersOk(Next(s, e))
  {
    var s' := Next(s, e);
    forall id | IsWrite(s, id) ensures IsWrite(s', id) {
      var i :| 0 <= i < |s.taken| && s.taken[i] == Write(id);
      assert s'.taken[i] == Write(id);
    }
    match e {
      case Spawn =>
        assert IsWrite(s, s.manager.id);
        forall i | 0 <= i < |s.taken| && s.taken[i].Write? ensures WriteOk(s', s.taken[i].id) {
          assert WriteOk(s, s.taken[i].id);
        }
      case Receive =>
        TakenIsNew(s);
        forall i | 0 <= i < |s'.taken| && s'.taken[i].Write? ensures WriteOk(s', s'.taken[i].id) {
          if i < |s.taken| { assert WriteOk(s, s.taken[i].id); }
        }
      case _ =>
        forall i | 0 <= i < |s.taken| && s.taken[i].Write? ensures WriteOk(s', s.taken[i].id) {
          assert WriteOk(s, s.taken[i].id);
        }
    }
  }

  lemma {:induction false} FinishedGrows(s: System, s': System, n: nat)
    requires AllFinished(s, n) && s.taken <= s'.taken && n <= |s.taken| && s.finished <= s'.finished
    ensures AllFinished(s', n)
  {
    assert forall i :: 0 <= i < n ==> s'.taken[i] == s.taken[i];
  }

  /** With no worker left to wait for, every write taken so far is done. */
  lemma NothingRuns(s: System)
    requires WorkersOk(s) && s.workers == {} && !s.manager.Acquiring?
    ensures AllFinished(s, |s.taken|)
  {
    forall i | 0 <= i < |s.taken| && s.taken[i].Write? ensures s.taken[i].id in s.finished {
      assert WriteOk(s, s.taken[i].id);
    }
  }

  /** Requests taken earlier keep their replies. */
  lemma EarlierReplies(s: System, e: Event, i: nat)
    requires Inv(s) && Enabled(s, e) && i < |s.taken|
    ensures i < |Next(s, e).taken| && ReplyOk(Next(s, e), i)
  {
    var s' := Next(s, e);
    assert s'.taken[i] == s.taken[i] && ReplyOk(s, i);
    if AllFinished(s, i) { FinishedGrows(s, s', i); }
    assert Accepted(s)[i] == s.taken[i];
    if s.taken != [] { assert Accepted(s)[|s.taken| - 1] == s.taken[|s.taken| - 1]; }
    match e {
      case FlushDone => NothingRuns(s);
      case DrainDone => NothingRuns(s);
      case Receive => TakenIsNew(s);
      case Close =>
        forall k | 0 <= k < |s.channel| ensures s.channel[k].id != s.taken[i].id {
          assert Accepted(s)[|s.taken| + k] == s.channel[k];
        }
      case _ =>
    }
  }

  /** Nothing that was dropped is answered a second time. */
  lemma DroppedReply(s: System, e: Event, i: nat)
    requires Inv(s) && Enabled(s, e) && !e.Close? && i < |s.dropped| && !s.dropped[i].Write?
    ensures i < |Next(s, e).dropped| && Answered(Next(s, e), s.dropped[i].id, Abandoned)
  {
    var k := |s.taken| + |s.channel| + i;
    assert Accepted(s)[k] == s.dropped[i];
    LaterIsNew(s, k);
    if s.taken != [] { assert HasId(s.taken, s.taken[|s.taken| - 1].id); }
  }

  /** Dropped requests keep their reply. */
  lemma DroppedReplies(s: System, e: Event)
    requires Inv(s) && Enabled(s, e)
    ensures var s' := Next(s, e);
      forall i :: 0 <= i < |s'.dropped| && !s'.dropped[i].Write? ==> Answered(s', s'.dropped[i].id, Abandoned)
  {
    var s' := Next(s, e);
    forall i | 0 <= i < |s'.dropped| && !s'.dropped[i].Write?
      ensures Answered(s', s'.dropped[i].id, Abandoned)
    {
      if !e.Close? { DroppedReply(s, e, i); }
    }
  }

  lemma StaysId(a: seq<Request>, b: seq<Request>, id: nat)
    requires HasId(a, id) && a <= b
    ensures HasId(b, id)
  {
    var i :| 0 <= i < |a| && a[i].id == id;
    assert b[i].id == id;
  }

  /** Only requests that were accepted have a reply. */
  lemma RepliesAreKnown(s: System, e: Event, id: nat)
    requires Inv(s) && Enabled(s, e) && id in Next(s, e).replies
    ensures HasId(Next(s, e).taken, id) || HasId(Next(s, e).dropped, id)
  {
    var s' := Next(s, e);
    if id in s.replies {
      if HasId(s.taken, id) { StaysId(s.taken, s'.taken, id); }
    } else if e.Close? {
      var i :| 0 <= i < |s.channel| && s.channel[i].id == id;
      assert s'.dropped[i].id == id;
    } else {
      assert s'.taken[|s.taken| - 1].id == id;
    }
  }

  lemma RepliesStep(s: System, e: Event)
    requires Inv(s) && Enabled(s, e)
    ensures RepliesOk(Next(s, e))
  {
    var s' := Next(s, e);
    forall i | 0 <= i < |s'.taken| ensures ReplyOk(s', i) {
      if i < |s.taken| { EarlierReplies(s, e, i); } else { TakenIsNew(s); }
    }
    DroppedReplies(s, e);
    forall id | id in s'.replies ensures HasId(s'.taken, id) || HasId(s'.dropped, id) { RepliesAreKnown(s, e, id); }
  }

  lemma {:induction false} RunKeeps(permits: nat, events: seq<Event>)
    requires Run(permits, events).Some?
    ensures Inv(Run(permits, events).value) && Run(permits, events).value.permits == permits
  {
    if events != [] {
      var before, e := events[..|events| - 1], events[|events| - 1];
      RunKeeps(permits, before);
      var s := Run(permits, before).value;
      ChannelStep(s, e);
      TakenStep(s, e);
      WorkersStep(s, e);
      RepliesStep(s, e);
    }
  }

  // What follows for every run

  /** No shutdown was accepted before request `i`. */
  predicate Ahead(s: System, i: nat) {
    NoShutdown(Accepted(s), i)
  }

  predicate EarlierWritesDone(s: System, i: nat) {
    forall k :: 0 <= k < i && k < |Accepted(s)| && Accepted(s)[k].Write? ==> Accepted(s)[k].id in s.finished
  }

  /** Being ahead of every shutdown is having been taken, once the channel is closed. */
  lemma AheadMeansTaken(s: System, i: nat)
    requires Inv(s) && !s.open && i < |Accepted(s)|
    ensures Ahead(s, i) <==> i < |s.taken|
  {
    assert forall k :: 0 <= k < |s.taken| ==> Accepted(s)[k] == s.taken[k];
  }

  lemma TakenIsAhead(s: System, i: nat)
    requires Inv(s) && i < |s.taken|
    ensures Ahead(s, i) && Accepted(s)[i] == s.taken[i]
  {
    assert forall k :: 0 <= k < |s.taken| ==> Accepted(s)[k] == s.taken[k];
  }

  /** As many writes at a time as there are permits, at most. */
  lemma WorkersAreBounded(permits: nat, events: seq<Event>)
    requires Run(permits, events).Some?
    ensures |Run(permits, events).value.running| <= permits
  {
    RunKeeps(permits, events);
  }

  /**
   A flush or a shutdown that has been answered was completed exactly if no shutdown was accepted before
   it, and then every write accepted before it is done.
   */
  lemma AnswersAreHonestIff(permits: nat, events: seq<Event>, i: nat)
    requires Run(permits, events).Some?
    requires var s := Run(permits, events).value;
      i < |Accepted(s)| && !Accepted(s)[i].Write? && Accepted(s)[i].id in s.replies
    ensures
      var s := Run(permits, events).value;
      && (s.replies[Accepted(s)[i].id] == Completed <==> Ahead(s, i))
      && (Ahead(s, i) ==> EarlierWritesDone(s, i))
  {
    RunKeeps(permits, events);
    var s := Run(permits, events).value;
    HonestIff(s, i);
  }

  lemma HonestIff(s: System, i: nat)
    requires Inv(s) && i < |Accepted(s)| && !Accepted(s)[i].Write? && Accepted(s)[i].id in s.replies
    ensures s.replies[Accepted(s)[i].id] == Completed <==> Ahead(s, i)
    ensures Ahead(s, i) ==> EarlierWritesDone(s, i)
  {
    if i < |s.taken| {
      TakenIsAhead(s, i);
      assert ReplyOk(s, i);
      assert forall k :: 0 <= k < i ==> Accepted(s)[k] == s.taken[k];
    } else {
      NotTakenIsDropped(s, i);
      AheadMeansTaken(s, i);
    }
  }

  /** A request that has a reply without having been taken was dropped. */
  lemma NotTakenIsDropped(s: System, i: nat)
    requires Inv(s) && |s.taken| <= i < |Accepted(s)| && !Accepted(s)[i].Write? && Accepted(s)[i].id in s.replies
    ensures !s.open && Answered(s, Accepted(s)[i].id, Abandoned)
  {
    var id, n := Accepted(s)[i].id, |s.taken|;
    LaterIsNew(s, i);
    assert HasId(s.dropped, id);
    assert Accepted(s)[i] == s.dropped[i - n];
  }

  /**
   What a flush or a second shutdown behind a shutdown really gets, if the channel's one place is taken by it: it comes
   back when the channel is closed, and the writes accepted before it are done at that moment exactly if no write
   happens to be running.
   */
  lemma BehindShutdownIff(permits: nat, events: seq<Event>)
    requires Run(permits, events).Some?
    requires var s := Run(permits, events).value; Enabled(s, Close) && s.channel != [] && !s.channel[0].Write?
    ensures
      var s := Run(permits, events).value;
      var s', i := Next(s, Close), |s.taken|;
      && i < |Accepted(s')| && Accepted(s')[i] == s.channel[0] && Accepted(s')[i].id in s'.replies && !Ahead(s', i)
      && (EarlierWritesDone(s', i) <==> s.running == {})
  {
    RunKeeps(permits, events);
    ClosedEarlyIff(Run(permits, events).value);
  }

  lemma ClosedEarlyIff(s: System)
    requires Inv(s) && Enabled(s, Close) && s.channel != [] && !s.channel[0].Write?
    ensures
      var s', i := Next(s, Close), |s.taken|;
      && i < |Accepted(s')| && Accepted(s')[i] == s.channel[0] && Accepted(s')[i].id in s'.replies && !Ahead(s', i)
      && (EarlierWritesDone(s', i) <==> s.running == {})
  {
    var s', i := Next(s, Close), |s.taken|;
    assert Accepted(s')[i] == s.channel[0];
    assert s'.taken[i - 1] == Accepted(s')[i - 1];
    assert forall k :: 0 <= k < i ==> Accepted(s')[k] == s.taken[k];
    if s.running == {} {
      forall k | 0 <= k < i && s.taken[k].Write? ensures s.taken[k].id in s.finished {
        assert WriteOk(s, s.taken[k].id);
      }
    } else {
      var id :| id in s.running;
      assert IsWrite(s, id) && id !in s.finished;
      var k :| 0 <= k < i && s.taken[k] == Write(id);
      assert Accepted(s')[k] == Write(id);
    }
  }

  /** When the manager has stopped, exactly the writes accepted ahead of any shutdown are done. */
  lemma WritesAheadAreDone(permits: nat, events: seq<Event>, i: nat)
    requires Run(permits, events).Some? && Run(permits, events).value.manager.Stopped?
    requires var s := Run(permits, events).value; i < |Accepted(s)| && Accepted(s)[i].Write?
    ensures var s := Run(permits, events).value; Accepted(s)[i].id in s.finished <==> Ahead(s, i)
  {
    RunKeeps(permits, events);
    var s := Run(permits, events).value;
    NothingRuns(s);
    AheadMeansTaken(s, i);
    if i < |s.taken| {
      TakenIsAhead(s, i);
    } else {
      LaterIsNew(s, i);
    }
  }

  predicate Internal(e: Event) {
    !e.Send? && !e.SendersGone?
  }

  /** With a permit to give, the manager only ever waits for a request or is at its end. */
  lemma NeverStuck(permits: nat, events: seq<Event>)
    requires Run(permits, events).Some? && permits > 0
    ensures
      var s := Run(permits, events).value;
      || s.manager.Stopped? || (s.manager.Receiving? && s.channel == [] && s.senders)
      || exists e :: Internal(e) && Enabled(s, e)
  {
    RunKeeps(permits, events);
    var s := Run(permits, events).value;
    if !s.manager.Stopped? && !(s.manager.Receiving? && s.channel == [] && s.senders) {
      var e := StepOf(s);
    }
  }

  lemma StepOf(s: System) returns (e: Event)
    requires Inv(s) && s.permits > 0 && !s.manager.Stopped? && !(s.manager.Receiving? && s.channel == [] && s.senders)
    ensures Internal(e) && Enabled(s, e)
  {
    if s.running != {} {
      var id :| id in s.running;
      e := Finish(id);
    } else if s.manager.Receiving? {
      e := if s.channel != [] then Receive else Hangup;
    } else if s.manager.Acquiring? {
      e := Spawn;
    } else if s.manager.Closing? {
      e := Close;
    } else if s.workers == {} {
      e := if s.manager.Flushing? then FlushDone else DrainDone;
    } else {
      var id :| id in s.workers;
      e := Reap(id);
    }
  }

  // Coming to rest

  /** How many steps the manager still takes for what it is about, at most. */
  function Place(m: Manager): nat {
    match m
    case Receiving => 3
    case Acquiring(_) => 6
    case Flushing(_) => 4
    case Closing(_) => 2
    case Draining(_) => 1
    case Stopped(_) => 0
  }

  /** How many steps the cache still takes by itself, at most. */
  function Budget(s: System): nat {
    5 * |s.channel| + Place(s.manager) + |s.running| + |s.workers|
  }

  lemma InternalStepCosts(s: System, e: Event)
    requires Internal(e) && Enabled(s, e)
    ensures Budget(Next(s, e)) < Budget(s)
  {
    match e
    case Spawn => SpawnCosts(s.running, s.workers, s.manager.id);
    case Reap(id) => RemoveCosts(s.workers, id);
    case Finish(id) => RemoveCosts(s.running, id);
    case _ =>
  }

  lemma SpawnCosts(running: set<nat>, workers: set<nat>, id: nat)
    ensures |running + {id}| <= |running| + 1 && |workers + {id}| <= |workers| + 1
  {
    assert running + {id} == running + ({id} - running) && workers + {id} == workers + ({id} - workers);
  }

  lemma RemoveCosts(ids: set<nat>, id: nat)
    requires id in ids
    ensures |ids - {id}| < |ids|
  {
    assert ids == (ids - {id}) + {id};
  }

  lemma LastStepCosts(permits: nat, front: seq<Event>, e: Event)
    requires Run(permits, front + [e]).Some? && Internal(e)
    ensures Run(permits, front).Some?
    ensures Budget(Run(permits, front + [e]).value) < Budget(Run(permits, front).value)
  {
    var all := front + [e];
    assert all[..|all| - 1] == front && all[|all| - 1] == e;
    InternalStepCosts(Run(permits, front).value, e);
  }

  /** Left alone, the cache takes finitely many steps: no run of internal events is longer than the budget. */
  lemma {:induction false} Settles(permits: nat, events: seq<Event>, internal: seq<Event>)
    requires Run(permits, events + internal).Some? && forall i :: 0 <= i < |internal| ==> Internal(internal[i])
    ensures Run(permits, events).Some?
    ensures |internal| + Budget(Run(permits, events + internal).value) <= Budget(Run(permits, events).value)
  {
    if internal == [] {
      assert events + internal == events;
    } else {
      var front, last := internal[..|internal| - 1], internal[|internal| - 1];
      assert events + internal == (events + front) + [last];
      LastStepCosts(permits, events + front, last);
      Settles(permits, events, front);
    }
  }

  ghost predicate AtRest(s: System) {
    forall e :: Internal(e) ==> !Enabled(s, e)
  }

  /**
   The cache only comes to rest when every flush and shutdown it accepted has come back and every write accepted ahead
   of any shutdown is done.
   */
  lemma RestMeansServed(permits: nat, events: seq<Event>, i: nat)
    requires Run(permits, events).Some? && permits > 0 && AtRest(Run(permits, events).value)
    requires i < |Accepted(Run(permits, events).value)|
    ensures
      var s := Run(permits, events).value;
      var r := Accepted(s)[i];
      if r.Write? then Ahead(s, i) ==> r.id in s.finished else r.id in s.replies
  {
    RunKeeps(permits, events);
    var s := Run(permits, events).value;
    if !s.manager.Stopped? && !(s.manager.Receiving? && s.channel == [] && s.senders) { var e := StepOf(s); }
    assert s.running == {} by {
      if s.running != {} {
        var id :| id in s.running;
        assert Enabled(s, Finish(id));
      }
    }
    RestIsServed(s, i);
  }

  lemma RestIsServed(s: System, i: nat)
    requires Inv(s) && s.running == {} && s.channel == [] && (s.manager.Stopped? || s.manager.Receiving?)
    requires i < |Accepted(s)|
    ensures
      var r := Accepted(s)[i];
      if r.Write? then Ahead(s, i) ==> r.id in s.finished else r.id in s.replies
  {
    if i < |s.taken| {
      assert Accepted(s)[i] == s.taken[i] && ReplyOk(s, i);
      if s.taken[i].Write? { assert WriteOk(s, s.taken[i].id); }
    } else {
      assert Accepted(s)[i] == s.dropped[i - |s.taken|];
      AheadMeansTaken(s, i);
    }
  }

  lemma Step(permits: nat, events: seq<Event>, e: Event) returns (s: System)
    requires Run(permits, events).Some? && Enabled(Run(permits, events).value, e)
    ensures Run(permits, events + [e]) == Some(s) && s == Next(Run(permits, events).value, e)
  {
    assert (events + [e])[..|events|] == events;
    s := Next(Run(permits, events).value, e);
  }

  lemma OneWriteRuns() returns (events: seq<Event>)
    ensures Run(1, events) == Some(Start(1).(running := {0}, workers := {0}, taken := [Write(0)]))
  {
    var s := Step(1, [], Send(Write(0)));
    s := Step(1, [] + [Send(Write(0))], Receive);
    assert [] + [Write(0)] == [Write(0)] && [Write(0)][1..] == [];
    s := Step(1, [] + [Send(Write(0))] + [Receive], Spawn);
    events := [] + [Send(Write(0))] + [Receive] + [Spawn];
    assert s == Start(1).(running := {0}, workers := {0}, taken := [Write(0)]);
  }

  /** While it runs, a shutdown is received. */
  lemma ShutdownIsTaken() returns (events: seq<Event>, s: System)
    ensures Run(1, events) == Some(s) && s.manager == Closing(Some(1)) && s.channel == [] && s.open && s.senders
    ensures s.taken == [Write(0), Shutdown(1)] && s.dropped == [] && s.running == {0} && s.finished == {}
    ensures s.replies == map[]
  {
    events := OneWriteRuns();
    assert Accepted(Run(1, events).value) == [Write(0)];
    s := Step(1, events, Send(Shutdown(1)));
    events := events + [Send(Shutdown(1))];
    assert s.channel == [Shutdown(1)];
    s := Step(1, events, Receive);
    events := events + [Receive];
    assert s.taken == [Write(0), Shutdown(1)];
  }

  /** A flush that gets behind a shutdown comes back although an earlier write is still running. */
  lemma FlushMayReturnEarly() returns (events: seq<Event>)
    ensures
      && Run(1, events).Some?
      && var s := Run(1, events).value;
         Accepted(s) == [Write(0), Shutdown(1), Flush(2)] && Answered(s, 2, Abandoned) && 0 in s.running
             && 0 !in s.finished
  {
    var s;
    events, s := ShutdownIsTaken();
    assert Accepted(s) == [Write(0), Shutdown(1)];
    s := Step(1, events, Send(Flush(2)));
    events := events + [Send(Flush(2))];
    assert s.channel == [Flush(2)];
    s := Step(1, events, Close);
    events := events + [Close];
    assert Accepted(s) == [Write(0), Shutdown(1), Flush(2)];
    assert s.dropped[0] == Flush(2) && 2 in s.replies;
  }
}
