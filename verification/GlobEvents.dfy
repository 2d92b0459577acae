/**
 How the glob watcher handles one notification, which may name several paths: it stops at the first
 cookie that is created and at the first path outside the repository, whatever comes after.
 */
module GlobEvents {
  import opened Basics
  import opened Cookies
  import opened CookiedGlobs
  import History = CookiedHistory
  import opened Globs
  import G = GlobTracker

  /** A path as the watcher classifies it. Cookie files lie inside the repository. */
  datatype EventPath = CookieFile(serial: nat, file: string) | InRoot(file: string) | OutsideRoot

  predicate StopsAt(isCreate: bool, path: EventPath) {
    path.OutsideRoot? || (isCreate && path.CookieFile?)
  }

  function Stop(isCreate: bool, paths: seq<EventPath>): (n: nat)
    ensures n <= |paths|
    ensures forall i :: 0 <= i < n ==> paths[i].InRoot? || (paths[i].CookieFile? && !isCreate)
    ensures n < |paths| ==> paths[n].OutsideRoot? || (paths[n].CookieFile? && isCreate)
  {
    if paths == [] || StopsAt(isCreate, paths[0]) then 0 else 1 + Stop(isCreate, paths[1..])
  }

  /** The changes a list of paths stands for: everything in the repository but new cookies. */
  function Changes(isCreate: bool, paths: seq<EventPath>): seq<string> {
    if paths == [] then []
    else if paths[0].OutsideRoot? || (paths[0].CookieFile? && isCreate) then Changes(isCreate, paths[1..])
    else [paths[0].file] + Changes(isCreate, paths[1..])
  }

  function ApplyChanges(matcher: Matcher, t: G.Tracker, files: seq<string>): G.Tracker {
    if files == [] then t
    else G.PathChange(matcher, ApplyChanges(matcher, t, files[..|files| - 1]), files[|files| - 1])
  }

  function ApplyRequests(t: G.Tracker, batch: seq<Cookied<Query>>): G.Tracker {
    if batch == [] then t else
    var before := ApplyRequests(t, batch[..|batch| - 1]);
    match batch[|batch| - 1].request
    case WatchGlobs(hash, globs) => G.Watch(before, hash, globs)
    case GetChangedGlobs(_, _) => before
  }

  /** What a request is told in a given state of the tracker: a registration is only acknowledged. */
  function AnswerTo(t: G.Tracker, r: Cookied<Query>): Option<set<string>> {
    match r.request
    case WatchGlobs(_, _) => None
    case GetChangedGlobs(hash, candidates) => Some(G.ChangedGlobs(t, hash, candidates))
  }

  /** Every request of a batch is told what holds after the ones before it. */
  predicate AnswersTo(t: G.Tracker, batch: seq<Cookied<Query>>, answers: seq<Option<set<string>>>) {
    |answers| == |batch| && forall k :: 0 <= k < |batch| ==>
        answers[k] == AnswerTo(ApplyRequests(t, batch[..k]), batch[k])
  }

  /** Applied one after the other, the requests of a batch do to the tracker what handling them does. */
  lemma {:induction false} BatchIsHandled(matcher: Matcher, s: System, batch: seq<Cookied<Query>>)
    ensures HandleAll(matcher, s, batch).tracker == ApplyRequests(s.tracker, batch)
    ensures |HandleAll(matcher, s, batch).answers| == |s.answers| + History.Queries(batch)
  {
    if batch != [] { BatchIsHandled(matcher, s, batch[..|batch| - 1]); }
  }

  /** And every query among them is told what it is told then. */
  lemma {:induction false} BatchIsAnswered(matcher: Matcher, s: System, batch: seq<Cookied<Query>>, k: nat)
    requires k < |batch| && batch[k].request.GetChangedGlobs?
    ensures
      var answers, n := HandleAll(matcher, s, batch).answers, |s.answers| + History.Queries(batch[..k]);
      n < |answers| && AnswerTo(ApplyRequests(s.tracker, batch[..k]), batch[k]) == Some(answers[n].changed)
    decreases |batch|
  {
    var front, last := batch[..|batch| - 1], batch[|batch| - 1];
    BatchIsHandled(matcher, s, front);
    AnswersGrow(matcher, HandleAll(matcher, s, front), last);
    if k < |front| {
      BatchIsAnswered(matcher, s, front, k);
      assert front[..k] == batch[..k];
    }
  }

  lemma AnswersGrow(matcher: Matcher, s: System, r: Cookied<Query>)
    ensures s.answers <= Handle(matcher, s, r).answers
    ensures r.request.GetChangedGlobs? ==>
      var answers := Handle(matcher, s, r).answers;
      |answers| == |s.answers| + 1 && AnswerTo(s.tracker, r) == Some(answers[|s.answers|].changed)
  {
  }

  /** The events that tell the tracker of a list of changes. */
  function Told(files: seq<string>): seq<G.Event> {
    if files == [] then [] else Told(files[..|files| - 1]) + [G.PathChanged(files[|files| - 1])]
  }

  /** A list of changes does to the tracker what telling it of each of them does. */
  lemma {:induction false} ChangesAreTold(matcher: Matcher, files: seq<string>, history: seq<G.Event>)
    ensures ApplyChanges(matcher, G.After(matcher, history), files) == G.After(matcher, history + Told(files))
  {
    if files == [] {
      assert history + Told(files) == history;
    } else {
      var front, last := files[..|files| - 1], G.PathChanged(files[|files| - 1]);
      ChangesAreTold(matcher, front, history);
      var before := history + Told(front);
      assert history + Told(files) == before + [last] && (before + [last])[..|before|] == before;
      OneMoreTold(matcher, before, last);
    }
  }

  lemma OneMoreTold(matcher: Matcher, history: seq<G.Event>, e: G.Event)
    ensures G.After(matcher, history + [e]) == G.Step(matcher, G.After(matcher, history), e)
  {
    assert (history + [e])[..|history|] == history;
  }

  lemma {:induction false} ChangesSplit(isCreate: bool, a: seq<EventPath>, b: seq<EventPath>)
    ensures Changes(isCreate, a + b) == Changes(isCreate, a) + Changes(isCreate, b)
  {
    if a == [] {
      assert a + b == b;
    } else {
      assert (a + b)[1..] == a[1..] + b;
      ChangesSplit(isCreate, a[1..], b);
    }
  }

  lemma {:induction false} ChangesEmptyIff(isCreate: bool, paths: seq<EventPath>)
    ensures Changes(isCreate, paths) == [] <==> forall i :: 0 <= i < |paths| ==> StopsAt(isCreate, paths[i])
  {
    if paths != [] {
      ChangesEmptyIff(isCreate, paths[1..]);
      assert forall i :: 1 <= i < |paths| ==> paths[i] == paths[1..][i - 1];
    }
  }

  /**
   All changes of a notification reach the tracker exactly when none of them comes after a new cookie
   or a path outside the repository.
   */
  lemma AllChangesAppliedIff(isCreate: bool, paths: seq<EventPath>)
    ensures Changes(isCreate, paths[..Stop(isCreate, paths)]) == Changes(isCreate, paths) <==>
      forall i :: Stop(isCreate, paths) <= i < |paths| ==> StopsAt(isCreate, paths[i])
  {
    var n := Stop(isCreate, paths);
    assert paths == paths[..n] + paths[n..];
    ChangesSplit(isCreate, paths[..n], paths[n..]);
    ChangesEmptyIff(isCreate, paths[n..]);
    SameWithout(Changes(isCreate, paths[..n]), Changes(isCreate, paths[n..]));
    StopsFrom(isCreate, paths, n);
  }

  lemma SameWithout(a: seq<string>, b: seq<string>)
    ensures a == a + b <==> b == []
  {
    if b == [] { assert a + b == a; } else { assert |a + b| > |a|; }
  }

  lemma StopsFrom(isCreate: bool, paths: seq<EventPath>, n: nat)
    requires n <= |paths|
    ensures (forall i :: 0 <= i < |paths[n..]| ==> StopsAt(isCreate, paths[n..][i])) <==>
      forall i :: n <= i < |paths| ==> StopsAt(isCreate, paths[i])
  {
    var rest := paths[n..];
    if forall i :: 0 <= i < |rest| ==> StopsAt(isCreate, rest[i]) {
      forall i | n <= i < |paths|
        ensures StopsAt(isCreate, paths[i])
      {
        assert rest[i - n] == paths[i];
      }
    }
  }

  /** A change behind a new cookie in the same notification is lost. */
  lemma ChangeAfterCookieIsLost(serial: nat, cookie: string, file: string)
    ensures Changes(true, [CookieFile(serial, cookie), InRoot(file)]) == [file]
    ensures Stop(true, [CookieFile(serial, cookie), InRoot(file)]) == 0
  {
    var paths := [CookieFile(serial, cookie), InRoot(file)];
    assert paths[1..] == [InRoot(file)] && [InRoot(file)][1..] == [];
    assert Changes(true, [InRoot(file)]) == [file];
  }

  class CookiedTracker {
    const globs: G.GlobTracker
    const watcher: CookieWatcher<Query>

    constructor ()
      ensures fresh(globs) && fresh(watcher)
      ensures globs.View() == G.Empty && watcher.View() == Watcher(0, multiset{})
    {
      globs := new G.GlobTracker();
      watcher := new CookieWatcher<Query>();
    }

    method HandleQuery(r: Cookied<Query>) returns (answer: Option<set<string>>)
      modifies globs
      ensures globs.View() == ApplyRequests(old(globs.View()), [r])
      ensures answer == AnswerTo(old(globs.View()), r)
    {
      assert [r][..0] == [];
      answer := None;
      match r.request
      case WatchGlobs(hash, gs) => globs.HandleWatchGlobs(hash, gs);
      case GetChangedGlobs(hash, candidates) =>
        var changed := globs.HandleGetChangedGlobs(hash, candidates);
        answer := Some(changed);
    }

    method HandleQueries(batch: seq<Cookied<Query>>) returns (answers: seq<Option<set<string>>>)
      modifies globs
      ensures globs.View() == ApplyRequests(old(globs.View()), batch)
      ensures AnswersTo(old(globs.View()), batch, answers)
    {
      answers := [];
      for i := 0 to |batch|
        invariant globs.View() == ApplyRequests(old(globs.View()), batch[..i])
        invariant |answers| == i
        invariant forall k :: 0 <= k < i ==>
            answers[k] == AnswerTo(ApplyRequests(old(globs.View()), batch[..k]), batch[k])
      {
        var answer := HandleQuery(batch[i]);
        answers := answers + [answer];
        assert batch[..i + 1][..i] == batch[..i];
        assert [batch[i]][..0] == [];
      }
      assert batch[..|batch|] == batch;
    }

    /** Apply the paths one by one until a new cookie releases requests or a path is not ours. */
    method HandleFileEvent(matcher: Matcher, isCreate: bool, paths: seq<EventPath>)
      returns (batch: seq<Cookied<Query>>, answers: seq<Option<set<string>>>)
      modifies globs, watcher
      ensures
        var n := Stop(isCreate, paths);
        var changed := ApplyChanges(matcher, old(globs.View()), Changes(isCreate, paths[..n]));
        && globs.View() == ApplyRequests(changed, batch) && AnswersTo(changed, batch, answers)
        && if n < |paths| && paths[n].CookieFile?
           then Releases(old(watcher.View()), paths[n].serial, batch, watcher.View())
           else batch == [] && watcher.View() == old(watcher.View())
    {
      batch, answers := [], [];
      var i := 0;
      while i < |paths|
        invariant 0 <= i <= Stop(isCreate, paths)
        invariant batch == [] && answers == [] && watcher.View() == old(watcher.View())
        invariant globs.View() == ApplyChanges(matcher, old(globs.View()), Changes(isCreate, paths[..i]))
      {
        StopIsFirst(isCreate, paths, i);
        if isCreate && paths[i].CookieFile? {
          batch := watcher.PopReadyRequests(paths[i].serial);
          answers := HandleQueries(batch);
          return;
        }
        if paths[i].OutsideRoot? { return; }
        var dangling := globs.HandlePathChange(matcher, paths[i].file);
        OneMoreChange(matcher, old(globs.View()), isCreate, paths, i);
        i := i + 1;
      }
      assert paths[..i] == paths;
    }
  }

  lemma StopIsFirst(isCreate: bool, paths: seq<EventPath>, i: nat)
    requires i <= Stop(isCreate, paths) && i < |paths|
    ensures paths[i].OutsideRoot? || (isCreate && paths[i].CookieFile?) <==> i == Stop(isCreate, paths)
  {
  }

  lemma OneMoreChange(matcher: Matcher, t: G.Tracker, isCreate: bool, paths: seq<EventPath>, i: nat)
    requires i < |paths| && !StopsAt(isCreate, paths[i])
    ensures ApplyChanges(matcher, t, Changes(isCreate, paths[..i + 1]))
         == G.PathChange(matcher, ApplyChanges(matcher, t, Changes(isCreate, paths[..i])), paths[i].file)
  {
    assert paths[..i + 1] == paths[..i] + [paths[i]];
    ChangesSplit(isCreate, paths[..i], [paths[i]]);
    assert [paths[i]][1..] == [];
    var front := Changes(isCreate, paths[..i]);
    assert Changes(isCreate, paths[..i + 1]) == front + [paths[i].file];
    assert (front + [paths[i].file])[..|front|] == front;
  }
}
