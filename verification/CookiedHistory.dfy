/**
 What the glob watcher has done in a run, told by the requests it was handed: every query is answered, in order, and
 the tracker was told exactly the registrations handled before, the changes delivered and the errors reported.
 */
module CookiedHistory {
  import opened Basics
  import opened Cookies
  import opened CookiedGlobs
  import opened Globs
  import G = GlobTracker

  /** How many of the requests are queries. */
  function Queries(handled: seq<Cookied<Query>>): nat {
    if handled == [] then 0
    else Queries(handled[..|handled| - 1]) + if handled[|handled| - 1].request.GetChangedGlobs? then 1 else 0
  }

  /** The registrations among the requests, in order. */
  function Registrations(handled: seq<Cookied<Query>>): seq<G.Event> {
    if handled == [] then [] else
    var front := Registrations(handled[..|handled| - 1]);
    match handled[|handled| - 1].request
    case WatchGlobs(hash, globs) => front + [G.WatchGlobs(hash, globs)]
    case GetChangedGlobs(_, _) => front
  }

  /** The registrations among what the tracker was told, in order. */
  function Registered(log: seq<Logged>): seq<G.Event> {
    if log == [] then [] else
    var front, e := Registered(log[..|log| - 1]), log[|log| - 1].event;
    if e.WatchGlobs? then front + [e] else front
  }

  function Errors(log: seq<Logged>): nat {
    if log == [] then 0 else Errors(log[..|log| - 1]) + if log[|log| - 1].event == G.WatchError then 1 else 0
  }

  /** How often events were lost or the file watcher failed. */
  function Failures(actions: seq<Action>): nat {
    if actions == [] then 0
    else Failures(actions[..|actions| - 1])
         + if actions[|actions| - 1].Lag? || actions[|actions| - 1].Fail? then 1 else 0
  }

  function Requests(actions: seq<Action>): nat {
    if actions == [] then 0
    else Requests(actions[..|actions| - 1]) + if actions[|actions| - 1].Request? then 1 else 0
  }

  lemma {:induction false} HandleAllSerial(matcher: Matcher, s: System, batch: seq<Cookied<Query>>)
    ensures HandleAll(matcher, s, batch).serial == s.serial
  {
    if batch != [] { HandleAllSerial(matcher, s, batch[..|batch| - 1]); }
  }

  /** Every request takes a serial of its own, whether its cookie could be written or not. */
  lemma {:induction false} SerialsCountRequests(matcher: Matcher, actions: seq<Action>)
    requires Run(matcher, actions).Some?
    ensures Run(matcher, actions).value.serial == Requests(actions)
  {
    if actions != [] {
      var front, a := actions[..|actions| - 1], actions[|actions| - 1];
      SerialsCountRequests(matcher, front);
      var s := Run(matcher, front).value;
      if a.Deliver? && s.stream[s.pos].CookieCreated? {
        HandleAllSerial(matcher, s.(pos := s.pos + 1, watcher := a.rest), a.batch);
      }
    }
  }

  /** Answer `n` is the one to request `k`: the `n`-th query, told what the registrations before it amount to. */
  ghost predicate AnswersRequest(s: System, n: nat, k: nat)
    requires n < |s.answers|
  {
    var a := s.answers[n];
    && k < |s.handled| && s.handled[k] == Cookied(GetChangedGlobs(a.hash, a.candidates), a.serial)
    && Queries(s.handled[..k]) == n
    && a.logged <= |s.log| && Registered(s.log[..a.logged]) == Registrations(s.handled[..k])
  }

  ghost predicate IsAnswer(s: System, n: nat)
    requires n < |s.answers|
  {
    exists k: nat :: AnswersRequest(s, n, k)
  }

  ghost predicate AnswersOk(s: System) {
    && |s.answers| == Queries(s.handled)
    && forall n :: 0 <= n < |s.answers| ==> IsAnswer(s, n)
  }

  /** A change that the tracker was told is the one at that place of the stream; no place is told twice. */
  ghost predicate ChangesOk(s: System) {
    && (forall i :: 0 <= i < |s.log| && s.log[i].event.PathChanged? ==>
          0 < s.log[i].at <= s.pos <= |s.stream| && s.stream[s.log[i].at - 1] == Changed(s.log[i].event.path))
    && (forall i, j :: 0 <= i < j < |s.log| && s.log[i].event.PathChanged? && s.log[j].event.PathChanged? ==>
          s.log[i].at < s.log[j].at)
  }

  ghost predicate HistoryOk(s: System) {
    AnswersOk(s) && Registered(s.log) == Registrations(s.handled) && ChangesOk(s)
  }

  lemma OneMoreLogged(log: seq<Logged>, x: Logged)
    ensures Registered(log + [x]) == if x.event.WatchGlobs? then Registered(log) + [x.event] else Registered(log)
    ensures Errors(log + [x]) == Errors(log) + if x.event == G.WatchError then 1 else 0
  {
    assert (log + [x])[..|log|] == log;
  }

  lemma OneMoreHandled(handled: seq<Cookied<Query>>, r: Cookied<Query>)
    ensures Queries(handled + [r]) == Queries(handled) + if r.request.GetChangedGlobs? then 1 else 0
    ensures Registrations(handled + [r]) == Registrations(handled)
            + if r.request.WatchGlobs? then [G.WatchGlobs(r.request.hash, r.request.globs)] else []
  {
    assert (handled + [r])[..|handled|] == handled;
  }

  lemma PrefixStays(s: System, s': System, n: nat)
    requires n < |s.answers| && s.answers <= s'.answers && s.handled <= s'.handled && s.log <= s'.log
    requires IsAnswer(s, n)
    ensures IsAnswer(s', n)
  {
    var k: nat :| AnswersRequest(s, n, k);
    assert s'.handled[..k] == s.handled[..k] && s'.handled[k] == s.handled[k] && s'.answers[n] == s.answers[n];
    assert s'.log[..s.answers[n].logged] == s.log[..s.answers[n].logged];
    assert AnswersRequest(s', n, k);
  }

  lemma OneMoreChange(s: System, s': System, x: Logged)
    requires ChangesOk(s) && s'.log == s.log + [x] && s'.stream == s.stream && s.pos <= s'.pos <= |s.stream|
    requires x.event.PathChanged? ==> x.at == s'.pos > s.pos && s.stream[x.at - 1] == Changed(x.event.path)
    ensures ChangesOk(s')
  {
  }

  /** The tracker is told something that is no registration. */
  lemma TellHistory(s: System, s': System, x: Logged)
    requires HistoryOk(s) && !x.event.WatchGlobs? && s'.log == s.log + [x]
    requires s'.stream == s.stream && s'.answers == s.answers && s'.handled == s.handled
    requires s.pos <= s'.pos <= |s.stream|
    requires x.event.PathChanged? ==> x.at == s'.pos > s.pos && s.stream[x.at - 1] == Changed(x.event.path)
    ensures HistoryOk(s') && Errors(s'.log) == Errors(s.log) + if x.event == G.WatchError then 1 else 0
  {
    OneMoreLogged(s.log, x);
    OneMoreChange(s, s', x);
    forall n | 0 <= n < |s'.answers| ensures IsAnswer(s', n) {
      PrefixStays(s, s', n);
    }
  }

  /** A registration is handled: the tracker is told of it. */
  lemma WatchHistory(s: System, s': System, r: Cookied<Query>, x: Logged)
    requires HistoryOk(s) && r.request.WatchGlobs? && x.event == G.WatchGlobs(r.request.hash, r.request.globs)
    requires s'.handled == s.handled + [r] && s'.log == s.log + [x] && s'.answers == s.answers
    requires s'.stream == s.stream && s'.pos == s.pos
    ensures HistoryOk(s') && Errors(s'.log) == Errors(s.log)
  {
    OneMoreHandled(s.handled, r);
    OneMoreLogged(s.log, x);
    assert ChangesOk(s');
    forall n | 0 <= n < |s'.answers| ensures IsAnswer(s', n) {
      PrefixStays(s, s', n);
    }
  }

  /** A query is handled: it is answered. */
  lemma QueryHistory(s: System, s': System, r: Cookied<Query>, a: Answer)
    requires HistoryOk(s) && r == Cookied(GetChangedGlobs(a.hash, a.candidates), a.serial) && a.logged == |s.log|
    requires s'.handled == s.handled + [r] && s'.log == s.log && s'.answers == s.answers + [a]
    requires s'.stream == s.stream && s'.pos == s.pos
    ensures HistoryOk(s')
  {
    OneMoreHandled(s.handled, r);
    forall n | 0 <= n < |s'.answers| ensures IsAnswer(s', n) {
      if n < |s.answers| {
        PrefixStays(s, s', n);
      } else {
        assert s'.handled[..|s.handled|] == s.handled && s'.log[..|s.log|] == s.log;
        assert AnswersRequest(s', n, |s.handled|);
      }
    }
  }

  lemma HandleHistory(matcher: Matcher, s: System, r: Cookied<Query>)
    requires HistoryOk(s)
    ensures HistoryOk(Handle(matcher, s, r)) && Handle(matcher, s, r).handled == s.handled + [r]
    ensures Errors(Handle(matcher, s, r).log) == Errors(s.log)
  {
    var s' := Handle(matcher, s, r);
    match r.request
    case WatchGlobs(hash, globs) => WatchHistory(s, s', r, Logged(G.WatchGlobs(hash, globs), s.pos));
    case GetChangedGlobs(hash, candidates) => QueryHistory(s, s', r, Reply(s, hash, candidates, r.serial));
  }

  lemma {:induction false} HandleAllHistory(matcher: Matcher, s: System, batch: seq<Cookied<Query>>)
    requires HistoryOk(s)
    ensures HistoryOk(HandleAll(matcher, s, batch)) && HandleAll(matcher, s, batch).handled == s.handled + batch
    ensures Errors(HandleAll(matcher, s, batch).log) == Errors(s.log)
    ensures HandleAll(matcher, s, batch).pos == s.pos && HandleAll(matcher, s, batch).stream == s.stream
  {
    if batch != [] {
      var front, last := batch[..|batch| - 1], batch[|batch| - 1];
      HandleAllHistory(matcher, s, front);
      HandleHistory(matcher, HandleAll(matcher, s, front), last);
      assert (s.handled + front) + [last] == s.handled + batch;
    }
  }

  /** Only the stream, the clients' side and the cookie watcher change. */
  lemma ElsewhereHistory(s: System, s': System)
    requires HistoryOk(s) && s.stream <= s'.stream && s.pos <= s'.pos <= |s'.stream|
    requires s'.log == s.log && s'.answers == s.answers && s'.handled == s.handled
    ensures HistoryOk(s')
  {
    forall n | 0 <= n < |s'.answers| ensures IsAnswer(s', n) {
      PrefixStays(s, s', n);
    }
  }

  ghost predicate IsFailure(a: Action) {
    a.Lag? || a.Fail?
  }

  ghost predicate StepOk(s: System, a: Action, s': System) {
    && HistoryOk(s') && s'.pos <= |s'.stream|
    && Errors(s'.log) == Errors(s.log) + if IsFailure(a) then 1 else 0
  }

  lemma ReceiveHistory(matcher: Matcher, s: System, r: Cookied<Query>)
    requires HistoryOk(s) && s.pos <= |s.stream| && Enabled(s, Receive(r))
    ensures StepOk(s, Receive(r), Next(matcher, s, Receive(r)))
  {
    var s1 := s.(inbox := s.inbox - multiset{r});
    ElsewhereHistory(s, s1);
    if r.serial <= s.watcher.latest {
      HandleHistory(matcher, s1, r);
    } else {
      ElsewhereHistory(s, Next(matcher, s, Receive(r)));
    }
  }

  lemma DeliverHistory(matcher: Matcher, s: System, batch: seq<Cookied<Query>>, rest: Watcher<Query>)
    requires HistoryOk(s) && Enabled(s, Deliver(batch, rest))
    ensures StepOk(s, Deliver(batch, rest), Next(matcher, s, Deliver(batch, rest)))
  {
    var s1 := s.(pos := s.pos + 1);
    if s.stream[s.pos].CookieCreated? {
      ElsewhereHistory(s, s1.(watcher := rest));
      HandleAllHistory(matcher, s1.(watcher := rest), batch);
    } else {
      TellHistory(s, Next(matcher, s, Deliver(batch, rest)), Logged(G.PathChanged(s.stream[s.pos].path), s1.pos));
    }
  }

  lemma StepHistory(matcher: Matcher, s: System, a: Action)
    requires HistoryOk(s) && s.pos <= |s.stream| && Enabled(s, a)
    ensures StepOk(s, a, Next(matcher, s, a))
  {
    match a
    case Request(_, _) => ElsewhereHistory(s, Next(matcher, s, a));
    case Change(_) => ElsewhereHistory(s, Next(matcher, s, a));
    case Receive(r) => ReceiveHistory(matcher, s, r);
    case Deliver(batch, rest) => DeliverHistory(matcher, s, batch, rest);
    case Lag(skipped) => TellHistory(s, Next(matcher, s, a), Logged(G.WatchError, s.pos + skipped));
    case Fail => TellHistory(s, Next(matcher, s, a), Logged(G.WatchError, s.pos));
  }

  ghost predicate RunOk(s: System, actions: seq<Action>) {
    HistoryOk(s) && s.pos <= |s.stream| && Errors(s.log) == Failures(actions)
  }

  lemma LastAction(matcher: Matcher, actions: seq<Action>) returns (front: seq<Action>, a: Action, s: System)
    requires Run(matcher, actions).Some? && actions != []
    ensures front == actions[..|actions| - 1] && a == actions[|actions| - 1] && Run(matcher, front) == Some(s)
    ensures Enabled(s, a) && Run(matcher, actions) == Some(Next(matcher, s, a))
    ensures Failures(actions) == Failures(front) + if IsFailure(a) then 1 else 0
  {
    front, a := actions[..|actions| - 1], actions[|actions| - 1];
    s := Run(matcher, front).value;
  }

  lemma {:induction false} RunHistory(matcher: Matcher, actions: seq<Action>)
    requires Run(matcher, actions).Some?
    ensures RunOk(Run(matcher, actions).value, actions)
    decreases |actions|
  {
    if actions == [] {
      assert HistoryOk(Start);
    } else {
      var front, a, s := LastAction(matcher, actions);
      RunHistory(matcher, front);
      StepHistory(matcher, s, a);
    }
  }

  /**
   In every run there are as many answers as queries handled. The `n`-th answer is the one to the `n`-th query and was
   given when the tracker had been told exactly the registrations handled before that query.
   */
  lemma QueriesAreAnswered(matcher: Matcher, actions: seq<Action>, n: nat)
    requires Run(matcher, actions).Some?
    ensures
      var s := Run(matcher, actions).value;
      && |s.answers| == Queries(s.handled)
      && (n < |s.answers| ==> exists k: nat :: AnswersRequest(s, n, k))
  {
    RunHistory(matcher, actions);
    if n < |Run(matcher, actions).value.answers| { assert IsAnswer(Run(matcher, actions).value, n); }
  }

  /**
   In every run the tracker was told the handled registrations in order, as many errors as there were failures, and
   changes only as the stream has them, each once and in order.
   */
  lemma TrackerIsToldTheTruth(matcher: Matcher, actions: seq<Action>)
    requires Run(matcher, actions).Some?
    ensures
      var s := Run(matcher, actions).value;
      && Registered(s.log) == Registrations(s.handled) && Errors(s.log) == Failures(actions)
      && (forall i :: 0 <= i < |s.log| && s.log[i].event.PathChanged? ==>
            0 < s.log[i].at <= s.pos <= |s.stream| && s.stream[s.log[i].at - 1] == Changed(s.log[i].event.path))
      && (forall i, j :: 0 <= i < j < |s.log| && s.log[i].event.PathChanged? && s.log[j].event.PathChanged? ==>
            s.log[i].at < s.log[j].at)
  {
    RunHistory(matcher, actions);
  }

  /** The serial of the last cookie that was delivered. */
  ghost function LatestCookie(matcher: Matcher, actions: seq<Action>): nat
    requires Run(matcher, actions).Some?
  {
    if actions == [] then 0 else
    var front, a := actions[..|actions| - 1], actions[|actions| - 1];
    var s := Run(matcher, front).value;
    if a.Deliver? && s.stream[s.pos].CookieCreated? then s.stream[s.pos].serial else LatestCookie(matcher, front)
  }

  lemma {:induction false} HandleAllWatcher(matcher: Matcher, s: System, batch: seq<Cookied<Query>>)
    ensures HandleAll(matcher, s, batch).watcher == s.watcher
  {
    if batch != [] { HandleAllWatcher(matcher, s, batch[..|batch| - 1]); }
  }

  lemma {:induction false} LatestIsDelivered(matcher: Matcher, actions: seq<Action>)
    requires Run(matcher, actions).Some?
    ensures Run(matcher, actions).value.watcher.latest == LatestCookie(matcher, actions)
  {
    if actions != [] {
      var front, a := actions[..|actions| - 1], actions[|actions| - 1];
      LatestIsDelivered(matcher, front);
      var s := Run(matcher, front).value;
      if a.Deliver? && s.stream[s.pos].CookieCreated? {
        HandleAllWatcher(matcher, s.(pos := s.pos + 1, watcher := a.rest), a.batch);
      }
    }
  }

  lemma ReleasedIff(w: Watcher<Query>, serial: nat, batch: seq<Cookied<Query>>, rest: Watcher<Query>,
      r: Cookied<Query>)
    requires Releases(w, serial, batch, rest) && r in w.pending
    ensures r in batch <==> r.serial <= serial
  {
    assert r in multiset(batch) + rest.pending;
    if r in multiset(batch) { assert r in batch; }
  }

  /**
   A request is handled as it is received exactly if its cookie, or a later one, was the last to be delivered;
   otherwise it waits.
   */
  lemma ReceivedIsHandled(matcher: Matcher, actions: seq<Action>, r: Cookied<Query>)
    requires Run(matcher, actions).Some? && Enabled(Run(matcher, actions).value, Receive(r))
    ensures
      var s := Run(matcher, actions).value;
      var s' := Next(matcher, s, Receive(r));
      if r.serial <= LatestCookie(matcher, actions) then s'.handled == s.handled + [r] && s'.watcher == s.watcher
      else s'.handled == s.handled && s'.watcher.pending == s.watcher.pending + multiset{r}
  {
    LatestIsDelivered(matcher, actions);
  }

  /** The delivery of a cookie handles exactly the waiting requests with that cookie or an earlier one. */
  lemma CookieReleases(matcher: Matcher, actions: seq<Action>, batch: seq<Cookied<Query>>, rest: Watcher<Query>)
    requires Run(matcher, actions).Some? && Enabled(Run(matcher, actions).value, Deliver(batch, rest))
    requires var s := Run(matcher, actions).value; s.stream[s.pos].CookieCreated?
    ensures
      var s := Run(matcher, actions).value;
      var s' := Next(matcher, s, Deliver(batch, rest));
      && s'.handled == s.handled + batch && multiset(batch) + s'.watcher.pending == s.watcher.pending
      && (forall r :: r in s.watcher.pending ==> (r in batch <==> r.serial <= s.stream[s.pos].serial))
  {
    RunHistory(matcher, actions);
    var s := Run(matcher, actions).value;
    var s1 := s.(pos := s.pos + 1, watcher := rest);
    ElsewhereHistory(s, s1);
    HandleAllHistory(matcher, s1, batch);
    HandleAllWatcher(matcher, s1, batch);
    forall r | r in s.watcher.pending ensures r in batch <==> r.serial <= s.stream[s.pos].serial {
      ReleasedIff(s.watcher, s.stream[s.pos].serial, batch, rest, r);
    }
  }
}
