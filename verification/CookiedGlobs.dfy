/**
 The glob watcher end to end: clients, the cookie writer, the stream of file events, the cookie
 watcher and the glob tracker, interleaved in every possible way. Every event of the stream names
 one path: a cookie file being created, or a change inside the repository.
 */
module CookiedGlobs {
  import opened Basics
  import opened Cookies
  import opened Globs
  import G = GlobTracker

  datatype FsEvent = CookieCreated(serial: nat) | Changed(path: string)

  datatype Query = WatchGlobs(hash: G.Hash, globs: GlobSet) | GetChangedGlobs(hash: G.Hash, candidates: set<string>)

  /** What the tracker was told, with the stream position it had reached. */
  datatype Logged = Logged(event: G.Event, at: nat)

  /** With how much the tracker had been told and how far it had come in the stream when it answered. */
  datatype Answer = Answer(hash: G.Hash, candidates: set<string>, serial: nat, changed: set<string>, logged: nat,
      at: nat)

  datatype System = System(
    serial: nat,                            // of the cookie writer
    stream: seq<FsEvent>,                   // everything the file system reported, in order
    pos: nat,                               // how much of it the tracker has received or lost
    requested: multiset<Cookied<Query>>,    // every request that was ever given a cookie
    inbox: multiset<Cookied<Query>>,        // those still on their way to the tracker
    watcher: Watcher<Query>,
    handled: seq<Cookied<Query>>,
    tracker: G.Tracker,
    log: seq<Logged>,
    answers: seq<Answer>)

  const Start: System :=
    System(0, [], 0, multiset{}, multiset{}, Watcher(0, multiset{}), [], G.Empty, [], [])

  datatype Action =
    | Request(query: Query, written: bool)    // a cookie file is written, or fails to be
    | Change(path: string)
    | Receive(r: Cookied<Query>)
    | Deliver(batch: seq<Cookied<Query>>, rest: Watcher<Query>)
    | Lag(skipped: nat)                       // the tracker fell behind and lost events
    | Fail                                    // the file watcher reported an error

  function Tell(matcher: Matcher, s: System, e: G.Event): System {
    s.(tracker := G.Step(matcher, s.tracker, e), log := s.log + [Logged(e, s.pos)])
  }

  function Reply(s: System, hash: G.Hash, candidates: set<string>, serial: nat): Answer {
    Answer(hash, candidates, serial, G.ChangedGlobs(s.tracker, hash, candidates), |s.log|, s.pos)
  }

  function Handle(matcher: Matcher, s: System, r: Cookied<Query>): System {
    var s' := s.(handled := s.handled + [r]);
    match r.request
    case WatchGlobs(hash, globs) => Tell(matcher, s', G.WatchGlobs(hash, globs))
    case GetChangedGlobs(hash, candidates) =>
      s'.(answers := s.answers + [Reply(s, hash, candidates, r.serial)])
  }

  function HandleAll(matcher: Matcher, s: System, batch: seq<Cookied<Query>>): System {
    if batch == [] then s
    else Handle(matcher, HandleAll(matcher, s, batch[..|batch| - 1]), batch[|batch| - 1])
  }

  ghost predicate Enabled(s: System, a: Action) {
    match a
    case Request(_, _) => true
    case Change(_) => true
    case Receive(r) => r in s.inbox
    case Deliver(batch, rest) =>
      s.pos < |s.stream| && (s.stream[s.pos].CookieCreated?
          ==> Releases(s.watcher, s.stream[s.pos].serial, batch, rest))
    case Lag(skipped) => 0 < skipped && s.pos + skipped <= |s.stream|
    case Fail => true
  }

  ghost function Next(matcher: Matcher, s: System, a: Action): System
    requires Enabled(s, a)
  {
    match a
    case Request(query, written) =>
      var s' := s.(serial := s.serial + 1);
      if written then
        var r := Cookied(query, s'.serial);
        s'.(stream := s.stream + [CookieCreated(s'.serial)], requested := s.requested + multiset{r},
            inbox := s.inbox + multiset{r})
      else s'
    case Change(path) => s.(stream := s.stream + [Changed(path)])
    case Receive(r) =>
      var s' := s.(inbox := s.inbox - multiset{r});
      if r.serial <= s.watcher.latest then Handle(matcher, s', r)
      else s'.(watcher := s.watcher.(pending := s.watcher.pending + multiset{r}))
    case Deliver(batch, rest) =>
      var s' := s.(pos := s.pos + 1);
      (match s.stream[s.pos]
       case CookieCreated(_) => HandleAll(matcher, s'.(watcher := rest), batch)
       case Changed(path) => Tell(matcher, s', G.PathChanged(path)))
    case Lag(skipped) => Tell(matcher, s.(pos := s.pos + skipped), G.WatchError)
    case Fail => Tell(matcher, s, G.WatchError)
  }

  ghost function Run(matcher: Matcher, actions: seq<Action>): Option<System> {
    if actions == [] then Some(Start) else
    match Run(matcher, actions[..|actions| - 1])
    case None => None
    case Some(s) =>
      var a := actions[|actions| - 1];
      if Enabled(s, a) then Some(Next(matcher, s, a)) else None
  }

  // What every step keeps

  ghost predicate IsCookie(s: System, c: int, serial: nat) {
    0 <= c < |s.stream| && s.stream[c] == CookieCreated(serial)
  }

  ghost predicate HasCookie(s: System, serial: nat) {
    exists c :: IsCookie(s, c, serial)
  }

  /** The cookie's place in the stream has been passed. */
  ghost predicate Passed(s: System, serial: nat) {
    exists c :: IsCookie(s, c, serial) && c < s.pos
  }

  /** Cookies appear in the stream in the order of their serials. */
  ghost predicate StreamOk(s: System) {
    && s.pos <= |s.stream|
    && (forall i, k: nat :: IsCookie(s, i, k) ==> 0 < k <= s.serial)
    && (forall i, j, k: nat, m: nat :: IsCookie(s, i, k) && IsCookie(s, j, m) && i < j ==> k < m)
  }

  ghost predicate RequestsOk(s: System) {
    && (forall r :: r in s.inbox || r in s.watcher.pending ==> HasCookie(s, r.serial))
    && (s.watcher.latest == 0 || Passed(s, s.watcher.latest))
    && Waiting(s.watcher)
    && s.requested == s.inbox + s.watcher.pending + multiset(s.handled)
  }

  function Events(log: seq<Logged>): seq<G.Event> {
    seq(|log|, i requires 0 <= i < |log| => log[i].event)
  }

  /** The change at `j` reached the tracker, or the tracker was told that something was lost after it. */
  ghost predicate Covered(s: System, j: int)
    requires 0 <= j < |s.stream|
  {
    s.stream[j].Changed? ==>
      exists m :: 0 <= m < |s.log| && j < s.log[m].at
          && (s.log[m].event == G.PathChanged(s.stream[j].path) || s.log[m].event == G.WatchError)
  }

  ghost predicate LogOk(matcher: Matcher, s: System) {
    && s.pos <= |s.stream|
    && s.tracker == G.After(matcher, Events(s.log))
    && (forall i, j :: 0 <= i <= j < |s.log| ==> s.log[i].at <= s.log[j].at)
    && (forall i :: 0 <= i < |s.log| ==> s.log[i].at <= s.pos)
    && (forall j :: 0 <= j < s.pos ==> Covered(s, j))
  }

  /** What the tracker had been told when it gave the answer. */
  function Before(s: System, a: Answer): seq<G.Event>
    requires a.logged <= |s.log|
  {
    Events(s.log[..a.logged])
  }

  /**
   The registration at log index `i` is the one in force when the answer was given, and from there to the
   tracker's place in the stream at that moment no change invalidates `g`.
   */
  ghost predicate QuietFrom(matcher: Matcher, s: System, a: Answer, g: string, i: int) {
    && a.logged <= |s.log| && G.IsCurrent(Before(s, a), a.hash, i) && g in Before(s, a)[i].globs.includes
    && forall j :: s.log[i].at <= j < a.at && j < |s.stream| && s.stream[j].Changed? ==>
         !G.Invalidates(matcher, G.PathChanged(s.stream[j].path), Before(s, a)[i].globs, g)
  }

  /**
   The request's cookie had been passed; exactly the candidates that were not unchanged are called changed,
   and every other one was registered and quiet in the stream.
   */
  ghost predicate AnswerOk(matcher: Matcher, s: System, a: Answer) {
    && a.logged <= |s.log| && a.at <= s.pos <= |s.stream|
    && (exists c :: IsCookie(s, c, a.serial) && c < a.at)
    && (forall g :: g in a.changed <==> g in a.candidates && !G.Unchanged(matcher, Before(s, a), a.hash, g))
    && (forall g :: g in a.candidates - a.changed ==> exists i :: QuietFrom(matcher, s, a, g, i))
  }

  ghost predicate Inv(matcher: Matcher, s: System) {
    && StreamOk(s) && RequestsOk(s) && LogOk(matcher, s)
    && (forall i :: 0 <= i < |s.answers| ==> AnswerOk(matcher, s, s.answers[i]))
  }

  /** Longer streams and logs keep what was said about shorter ones. */
  ghost predicate Extends(s: System, s': System) {
    s.stream <= s'.stream && s.log <= s'.log && s.pos <= s'.pos <= |s'.stream|
  }

  lemma AnswerStays(matcher: Matcher, s: System, s': System, a: Answer)
    requires Extends(s, s') && AnswerOk(matcher, s, a)
    ensures AnswerOk(matcher, s', a)
  {
    var c :| IsCookie(s, c, a.serial) && c < a.at;
    assert IsCookie(s', c, a.serial);
    assert s'.log[..a.logged] == s.log[..a.logged];
    forall g | g in a.candidates - a.changed
      ensures exists i :: QuietFrom(matcher, s', a, g, i)
    {
      var i :| QuietFrom(matcher, s, a, g, i);
      assert s'.log[i] == s.log[i];
      assert forall j :: 0 <= j < |s.stream| ==> s'.stream[j] == s.stream[j];
      assert QuietFrom(matcher, s', a, g, i);
    }
  }

  lemma AnswersStay(matcher: Matcher, s: System, s': System)
    requires Extends(s, s') && forall i :: 0 <= i < |s.answers| ==> AnswerOk(matcher, s, s.answers[i])
    requires s'.answers == s.answers
    ensures forall i :: 0 <= i < |s'.answers| ==> AnswerOk(matcher, s', s'.answers[i])
  {
    forall i | 0 <= i < |s.answers|
      ensures AnswerOk(matcher, s', s.answers[i])
    {
      AnswerStays(matcher, s, s', s.answers[i]);
    }
  }

  lemma TellKeepsLog(matcher: Matcher, s: System, pos: nat, e: G.Event)
    requires LogOk(matcher, s) && s.pos <= pos <= |s.stream|
    requires forall j :: s.pos <= j < pos && s.stream[j].Changed? ==>
        e == G.PathChanged(s.stream[j].path) || e == G.WatchError
    ensures LogOk(matcher, Tell(matcher, s.(pos := pos), e))
  {
    var s' := Tell(matcher, s.(pos := pos), e);
    assert Events(s'.log)[..|s.log|] == Events(s.log);
    assert Events(s'.log)[|s.log|] == e;
    forall j | 0 <= j < pos
      ensures Covered(s', j)
    {
      if s.stream[j].Changed? {
        if j < s.pos {
          assert Covered(s, j);
          var m :| 0 <= m < |s.log| && j < s.log[m].at
              && (s.log[m].event == G.PathChanged(s.stream[j].path) || s.log[m].event == G.WatchError);
          assert s'.log[m] == s.log[m];
        } else {
          assert s'.log[|s.log|] == Logged(e, pos);
        }
      }
    }
  }

  /** A glob unchanged for the tracker was quiet in the stream, as far as the tracker has come. */
  lemma UnchangedMeansQuiet(matcher: Matcher, s: System, a: Answer, g: string)
    requires LogOk(matcher, s) && a.logged == |s.log| && a.at == s.pos && G.Unchanged(matcher, Before(s, a), a.hash, g)
    ensures exists i :: QuietFrom(matcher, s, a, g, i)
  {
    var events := Before(s, a);
    assert s.log[..|s.log|] == s.log;
    var i :| G.IsCurrent(events, a.hash, i) && g in events[i].globs.includes
             && forall j :: i < j < |events| ==> !G.Invalidates(matcher, events[j], events[i].globs, g);
    forall j | s.log[i].at <= j < s.pos && s.stream[j].Changed?
      ensures !G.Invalidates(matcher, G.PathChanged(s.stream[j].path), events[i].globs, g)
    {
      assert Covered(s, j);
      var m :| 0 <= m < |s.log| && j < s.log[m].at && (s.log[m].event == G.PathChanged(s.stream[j].path)
          || s.log[m].event == G.WatchError);
      assert i < m;
      assert events[m] == s.log[m].event;
    }
    assert QuietFrom(matcher, s, a, g, i);
  }

  lemma NewAnswerOk(matcher: Matcher, s: System, hash: G.Hash, candidates: set<string>, serial: nat)
    requires LogOk(matcher, s) && Passed(s, serial)
    ensures AnswerOk(matcher, s, Reply(s, hash, candidates, serial))
  {
    var a := Reply(s, hash, candidates, serial);
    assert s.log[..|s.log|] == s.log;
    forall g
      ensures g in a.changed <==> g in candidates && !G.Unchanged(matcher, Before(s, a), hash, g)
    {
      G.QueryMeansHistory(matcher, Events(s.log), hash, candidates, g);
    }
    forall g | g in candidates - a.changed
      ensures exists i :: QuietFrom(matcher, s, a, g, i)
    {
      UnchangedMeansQuiet(matcher, s, a, g);
    }
  }

  /** What handling a request keeps: everything but the bookkeeping of where that request is. */
  ghost predicate Core(matcher: Matcher, s: System) {
    && StreamOk(s) && LogOk(matcher, s)
    && (forall i :: 0 <= i < |s.answers| ==> AnswerOk(matcher, s, s.answers[i]))
  }

  lemma HandleKeepsCore(matcher: Matcher, s: System, r: Cookied<Query>)
    requires Core(matcher, s) && Passed(s, r.serial)
    ensures Core(matcher, Handle(matcher, s, r))
    ensures var s' := Handle(matcher, s, r);
      s'.stream == s.stream && s'.pos == s.pos && s'.watcher == s.watcher && s'.inbox == s.inbox
          && s'.requested == s.requested
      && s'.handled == s.handled + [r]
  {
    var s' := Handle(matcher, s, r);
    assert forall c, k :: IsCookie(s', c, k) <==> IsCookie(s, c, k);
    match r.request
    case WatchGlobs(hash, globs) =>
      var s0 := s.(handled := s.handled + [r]);
      LogFrame(matcher, s, s0);
      TellKeepsLog(matcher, s0, s.pos, G.WatchGlobs(hash, globs));
      AnswersStay(matcher, s, s');
    case GetChangedGlobs(hash, candidates) =>
      LogFrame(matcher, s, s');
      NewAnswerOk(matcher, s, hash, candidates, r.serial);
      forall i | 0 <= i < |s'.answers|
        ensures AnswerOk(matcher, s', s'.answers[i])
      {
        AnswerStays(matcher, s, s', s'.answers[i]);
      }
  }

  lemma LogFrame(matcher: Matcher, s: System, s': System)
    requires LogOk(matcher, s) && s'.log == s.log && s.stream <= s'.stream && s'.pos == s.pos && s'.tracker == s.tracker
    ensures LogOk(matcher, s')
  {
    forall j | 0 <= j < s.pos
      ensures Covered(s', j)
    {
      assert Covered(s, j) && s'.stream[j] == s.stream[j];
    }
  }

  lemma {:induction false} HandleAllKeepsCore(matcher: Matcher, s: System, batch: seq<Cookied<Query>>)
    requires Core(matcher, s) && forall i :: 0 <= i < |batch| ==> Passed(s, batch[i].serial)
    ensures Core(matcher, HandleAll(matcher, s, batch))
    ensures var s' := HandleAll(matcher, s, batch);
      s'.stream == s.stream && s'.pos == s.pos && s'.watcher == s.watcher && s'.inbox == s.inbox
          && s'.requested == s.requested
      && s'.handled == s.handled + batch
  {
    if batch == [] {
      assert s.handled + [] == s.handled;
    } else {
      var front, last := batch[..|batch| - 1], batch[|batch| - 1];
      assert batch == front + [last];
      HandleAllKeepsCore(matcher, s, front);
      var s1 := HandleAll(matcher, s, front);
      assert Passed(s, batch[|batch| - 1].serial);
      PassedFrame(s, s1, last.serial);
      HandleKeepsCore(matcher, s1, last);
      assert s.handled + front + [last] == s.handled + batch;
    }
  }

  lemma PassedFrame(s: System, s': System, serial: nat)
    requires Passed(s, serial) && s.stream <= s'.stream && s.pos <= s'.pos
    ensures Passed(s', serial)
  {
    var c :| IsCookie(s, c, serial) && c < s.pos;
    assert IsCookie(s', c, serial);
  }

  lemma HasCookieFrame(s: System, s': System, serial: nat)
    requires HasCookie(s, serial) && s.stream <= s'.stream
    ensures HasCookie(s', serial)
  {
    var c :| IsCookie(s, c, serial);
    assert IsCookie(s', c, serial);
  }

  /** A cookie no later than one that was passed has been passed too. */
  lemma EarlierCookiePassed(s: System, serial: nat, later: nat)
    requires StreamOk(s) && HasCookie(s, serial) && Passed(s, later) && serial <= later
    ensures Passed(s, serial)
  {
    var c :| IsCookie(s, c, serial);
    var d :| IsCookie(s, d, later) && d < s.pos;
    assert c <= d;
  }

  /** Steps that only extend the stream. */
  lemma EmitKeeps(matcher: Matcher, s: System, serial: nat, e: FsEvent)
    requires Inv(matcher, s) && s.serial <= serial && (e.CookieCreated? ==> s.serial < e.serial <= serial)
    ensures Inv(matcher, s.(serial := serial, stream := s.stream + [e]))
  {
    var s' := s.(serial := serial, stream := s.stream + [e]);
    forall c, k
      ensures IsCookie(s', c, k) <==> IsCookie(s, c, k) || (c == |s.stream| && e == CookieCreated(k))
    {
    }
    LogFrame(matcher, s, s');
    AnswersStay(matcher, s, s');
    forall r | r in s.inbox || r in s.watcher.pending
      ensures HasCookie(s', r.serial)
    {
      HasCookieFrame(s, s', r.serial);
    }
    if s.watcher.latest != 0 { PassedFrame(s, s', s.watcher.latest); }
  }

  lemma RequestJoins(s: System, r: Cookied<Query>)
    requires RequestsOk(s) && HasCookie(s, r.serial)
    ensures RequestsOk(s.(requested := s.requested + multiset{r}, inbox := s.inbox + multiset{r}))
  {
    SameCookies(s, s.(requested := s.requested + multiset{r}, inbox := s.inbox + multiset{r}));
  }

  lemma RequestKeeps(matcher: Matcher, s: System, query: Query, written: bool)
    requires Inv(matcher, s)
    ensures Inv(matcher, Next(matcher, s, Request(query, written)))
  {
    var s' := Next(matcher, s, Request(query, written));
    if written {
      EmitKeeps(matcher, s, s.serial + 1, CookieCreated(s.serial + 1));
      var s1 := s.(serial := s.serial + 1, stream := s.stream + [CookieCreated(s.serial + 1)]);
      CoreFrame(matcher, s1, s');
      assert IsCookie(s1, |s.stream|, s.serial + 1);
      RequestJoins(s1, Cookied(query, s.serial + 1));
    } else {
      CoreFrame(matcher, s, s');
      SameCookies(s, s');
    }
  }

  /** A request whose cookie has been passed is handled at once. */
  lemma ReceiveReadyKeeps(matcher: Matcher, s: System, r: Cookied<Query>)
    requires Inv(matcher, s) && r in s.inbox && r.serial <= s.watcher.latest
    ensures Inv(matcher, Next(matcher, s, Receive(r)))
  {
    var s' := Next(matcher, s, Receive(r));
    var s1 := s.(inbox := s.inbox - multiset{r});
    assert HasCookie(s, r.serial);
    CoreFrame(matcher, s, s1);
    assert Passed(s, r.serial) by {
      var c :| IsCookie(s, c, r.serial);
      EarlierCookiePassed(s, r.serial, s.watcher.latest);
    }
    PassedFrame(s, s1, r.serial);
    HandleKeepsCore(matcher, s1, r);
    assert RequestsOk(s') by {
      SameCookies(s, s');
      assert multiset(s'.handled) == multiset(s.handled) + multiset{r};
    }
  }

  lemma ReceiveKeeps(matcher: Matcher, s: System, r: Cookied<Query>)
    requires Inv(matcher, s) && r in s.inbox
    ensures Inv(matcher, Next(matcher, s, Receive(r)))
  {
    if r.serial <= s.watcher.latest {
      ReceiveReadyKeeps(matcher, s, r);
    } else {
      var s' := Next(matcher, s, Receive(r));
      CoreFrame(matcher, s, s');
      SameCookies(s, s');
    }
  }

  lemma SameCookies(s: System, s': System)
    requires s'.stream == s.stream && s.pos <= s'.pos
    ensures forall k :: HasCookie(s, k) ==> HasCookie(s', k)
    ensures forall k :: Passed(s, k) ==> Passed(s', k)
  {
    forall k
      ensures HasCookie(s, k) ==> HasCookie(s', k)
      ensures Passed(s, k) ==> Passed(s', k)
    {
      if HasCookie(s, k) { HasCookieFrame(s, s', k); }
      if Passed(s, k) { PassedFrame(s, s', k); }
    }
  }

  lemma CoreFrame(matcher: Matcher, s: System, s': System)
    requires Core(matcher, s)
    requires s' == s.(serial := s'.serial, inbox := s'.inbox, watcher := s'.watcher, handled := s'.handled,
        requested := s'.requested)
    requires s.serial <= s'.serial
    ensures Core(matcher, s')
  {
    LogFrame(matcher, s, s');
    AnswersStay(matcher, s, s');
    assert forall c, k :: IsCookie(s', c, k) <==> IsCookie(s, c, k);
  }

  /** Passing a cookie loses no change. */
  lemma PassCookieKeepsCore(matcher: Matcher, s: System, rest: Watcher<Query>)
    requires Core(matcher, s) && s.pos < |s.stream| && s.stream[s.pos].CookieCreated?
    ensures Core(matcher, s.(pos := s.pos + 1, watcher := rest))
  {
    var s1 := s.(pos := s.pos + 1, watcher := rest);
    assert forall c, k :: IsCookie(s1, c, k) <==> IsCookie(s, c, k);
    AnswersStay(matcher, s, s1);
    forall j | 0 <= j < s1.pos
      ensures Covered(s1, j)
    {
      if j < s.pos { assert Covered(s, j); }
    }
  }

  /** Whatever a cookie releases has its own cookie behind it in the stream. */
  lemma ReleasedHavePassed(s: System, batch: seq<Cookied<Query>>, rest: Watcher<Query>)
    requires StreamOk(s) && RequestsOk(s) && Enabled(s, Deliver(batch, rest)) && s.stream[s.pos].CookieCreated?
    ensures var s1 := s.(pos := s.pos + 1, watcher := rest);
      && Passed(s1, rest.latest)
      && (forall i :: 0 <= i < |batch| ==> Passed(s1, batch[i].serial))
      && (forall r :: r in rest.pending ==> HasCookie(s1, r.serial))
  {
    var s1 := s.(pos := s.pos + 1, watcher := rest);
    assert IsCookie(s1, s.pos, rest.latest);
    assert forall c, k :: IsCookie(s1, c, k) <==> IsCookie(s, c, k);
    SameCookies(s, s1);
    forall i | 0 <= i < |batch|
      ensures Passed(s1, batch[i].serial)
    {
      assert batch[i] in multiset(batch) && batch[i] in s.watcher.pending;
      EarlierCookiePassed(s1, batch[i].serial, rest.latest);
    }
    forall r | r in rest.pending
      ensures HasCookie(s1, r.serial)
    {
      assert r in s.watcher.pending;
    }
  }

  lemma DeliverCookieKeeps(matcher: Matcher, s: System, batch: seq<Cookied<Query>>, rest: Watcher<Query>)
    requires Inv(matcher, s) && Enabled(s, Deliver(batch, rest)) && s.stream[s.pos].CookieCreated?
    ensures Inv(matcher, Next(matcher, s, Deliver(batch, rest)))
  {
    var s1 := s.(pos := s.pos + 1, watcher := rest);
    var s' := Next(matcher, s, Deliver(batch, rest));
    PassCookieKeepsCore(matcher, s, rest);
    ReleasedHavePassed(s, batch, rest);
    SameCookies(s, s1);
    HandleAllKeepsCore(matcher, s1, batch);
    SameCookies(s1, s');
    assert RequestsOk(s') by {
      assert multiset(s'.handled) == multiset(s.handled) + multiset(batch);
    }
  }

  /** Steps that tell the tracker about the stream or about losses. */
  lemma TellKeeps(matcher: Matcher, s: System, pos: nat, e: G.Event)
    requires Inv(matcher, s) && s.pos <= pos <= |s.stream|
    requires forall j :: s.pos <= j < pos && s.stream[j].Changed? ==>
        e == G.PathChanged(s.stream[j].path) || e == G.WatchError
    ensures Inv(matcher, Tell(matcher, s.(pos := pos), e))
  {
    var s' := Tell(matcher, s.(pos := pos), e);
    TellKeepsLog(matcher, s, pos, e);
    AnswersStay(matcher, s, s');
    SameCookies(s, s');
    assert forall c, k :: IsCookie(s', c, k) <==> IsCookie(s, c, k);
  }

  lemma NextKeeps(matcher: Matcher, s: System, a: Action)
    requires Inv(matcher, s) && Enabled(s, a)
    ensures Inv(matcher, Next(matcher, s, a))
  {
    match a
    case Request(query, written) => RequestKeeps(matcher, s, query, written);
    case Change(path) => EmitKeeps(matcher, s, s.serial, Changed(path));
    case Receive(r) => ReceiveKeeps(matcher, s, r);
    case Deliver(batch, rest) =>
      if s.stream[s.pos].CookieCreated? {
        DeliverCookieKeeps(matcher, s, batch, rest);
      } else {
        TellKeeps(matcher, s, s.pos + 1, G.PathChanged(s.stream[s.pos].path));
      }
    case Lag(skipped) => TellKeeps(matcher, s, s.pos + skipped, G.WatchError);
    case Fail => TellKeeps(matcher, s, s.pos, G.WatchError);
  }

  lemma {:induction false} RunKeeps(matcher: Matcher, actions: seq<Action>)
    requires Run(matcher, actions).Some?
    ensures Inv(matcher, Run(matcher, actions).value)
  {
    if actions != [] {
      var front := actions[..|actions| - 1];
      RunKeeps(matcher, front);
      NextKeeps(matcher, Run(matcher, front).value, actions[|actions| - 1]);
    }
  }

  /**
   The end-to-end guarantee. In every run, an answer was given after its request's cookie had been passed,
   and calls a candidate unchanged exactly if the tracker had not been told otherwise by then; such a
   candidate belongs to the registration of the hash that was in force, and no change of the file system
   from that registration up to the answer, and so none before the cookie, invalidates it, whether the
   tracker saw the change in time or not.
   */
  lemma AnswersRespectCookies(matcher: Matcher, actions: seq<Action>, n: nat, g: string)
    requires Run(matcher, actions).Some?
    requires var s := Run(matcher, actions).value; n < |s.answers| && g in s.answers[n].candidates
    ensures
      var s := Run(matcher, actions).value;
      var a := s.answers[n];
      && (exists c :: IsCookie(s, c, a.serial) && c < a.at <= s.pos)
      && a.logged <= |s.log| && (g !in a.changed <==> G.Unchanged(matcher, Before(s, a), a.hash, g))
      && (g !in a.changed ==> exists i :: QuietFrom(matcher, s, a, g, i))
  {
    RunKeeps(matcher, actions);
    var s := Run(matcher, actions).value;
    var a := s.answers[n];
    assert AnswerOk(matcher, s, a);
    if g !in a.changed { assert g in a.candidates - a.changed; }
  }

  lemma PendingComesLater(s: System, r: Cookied<Query>, c: int, d: int)
    requires StreamOk(s) && RequestsOk(s) && r in s.watcher.pending
    requires IsCookie(s, c, r.serial) && IsCookie(s, d, s.watcher.latest)
    ensures d < c
  {
    assert s.watcher.latest < r.serial;
  }

  /** Requests are neither lost nor repeated, and those that wait do so for a cookie behind the latest one. */
  lemma RequestsAreConserved(matcher: Matcher, actions: seq<Action>)
    requires Run(matcher, actions).Some?
    ensures
      var s := Run(matcher, actions).value;
      && s.requested == s.inbox + s.watcher.pending + multiset(s.handled)
      && Waiting(s.watcher)
      && (forall r, c, d :: r in s.watcher.pending && IsCookie(s, c, r.serial) && IsCookie(s, d, s.watcher.latest) ==>
            d < c)
  {
    RunKeeps(matcher, actions);
    var s := Run(matcher, actions).value;
    assert StreamOk(s) && RequestsOk(s);
    forall r, c, d | r in s.watcher.pending && IsCookie(s, c, r.serial) && IsCookie(s, d, s.watcher.latest)
      ensures d < c
    {
      PendingComesLater(s, r, c, d);
    }
  }
}
