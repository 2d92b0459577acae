/**
 The glob tracker: which of the globs registered for a hash have not seen a change since. It keeps
 two maps that index each other; their meaning is a statement about the history of events.
 */
module GlobTracker {
  import opened Basics
  import opened Globs

  type Hash = string

  /** For each hash its remaining globs; for each glob the hashes for which it has not changed. */
  datatype Tracker = Tracker(hashGlobs: map<Hash, GlobSet>, globStatuses: map<string, set<Hash>>)

  const Empty: Tracker := Tracker(map[], map[])

  function HashesFor(statuses: map<string, set<Hash>>, g: string): set<Hash> {
    if g in statuses then statuses[g] else {}
  }

  function Recorded(statuses: map<string, set<Hash>>, globs: set<string>, hash: Hash): map<string, set<Hash>> {
    map g | g in statuses.Keys + globs :: if g in globs then HashesFor(statuses, g) + {hash} else HashesFor(statuses, g)
  }

  function Watch(t: Tracker, hash: Hash, globs: GlobSet): Tracker {
    Tracker(t.hashGlobs[hash := globs], Recorded(t.globStatuses, globs.includes, hash))
  }

  /** The hash still has the glob among its unchanged ones. */
  predicate Has(t: Tracker, h: Hash, g: string) {
    h in t.hashGlobs && g in t.hashGlobs[h].includes
  }

  /** The answer to a query: the candidates that are not known to be unchanged. */
  function ChangedGlobs(t: Tracker, hash: Hash, candidates: set<string>): set<string> {
    if hash in t.hashGlobs then candidates - t.hashGlobs[hash].includes else candidates
  }

  /** The globs that a path change invalidates for a hash, unless the hash excludes the path. */
  function Hits(matcher: Matcher, statuses: map<string, set<Hash>>, path: string): set<(string, Hash)> {
    set g, h | g in statuses && matcher(g, path) && h in statuses[g] :: (g, h)
  }

  function HitGlobs(hits: set<(string, Hash)>, h: Hash): set<string> {
    set hit | hit in hits && hit.1 == h :: hit.0
  }

  /** What hits leave of a glob set; one that loses its last glob this way is forgotten. */
  function Left(matcher: Matcher, globs: GlobSet, hit: set<string>, path: string): Option<GlobSet> {
    if Excludes(matcher, globs, path) || hit == {} then Some(globs)
    else if globs.includes - hit == {} then None
    else Some(globs.(includes := globs.includes - hit))
  }

  function Without(matcher: Matcher, hashGlobs: map<Hash, GlobSet>, hits: set<(string, Hash)>, path: string)
    : map<Hash, GlobSet>
  {
    map h | h in hashGlobs && Left(matcher, hashGlobs[h], HitGlobs(hits, h), path).Some? ::
      Left(matcher, hashGlobs[h], HitGlobs(hits, h), path).value
  }

  /** The hashes that stay with a glob matching the path: those that exclude it. */
  function Spared(matcher: Matcher, hashGlobs: map<Hash, GlobSet>, hashes: set<Hash>, path: string): set<Hash> {
    set h | h in hashes && h in hashGlobs && Excludes(matcher, hashGlobs[h], path)
  }

  function Purged(matcher: Matcher, hashGlobs: map<Hash, GlobSet>, statuses: map<string, set<Hash>>, path: string)
    : map<string, set<Hash>>
  {
    map g | g in statuses && (matcher(g, path) ==> Spared(matcher, hashGlobs, statuses[g], path) != {}) ::
      if matcher(g, path) then Spared(matcher, hashGlobs, statuses[g], path) else statuses[g]
  }

  function PathChange(matcher: Matcher, t: Tracker, path: string): Tracker {
    Tracker(
      Without(matcher, t.hashGlobs, Hits(matcher, t.globStatuses, path), path),
      Purged(matcher, t.hashGlobs, t.globStatuses, path))
  }

  // The history

  datatype Event = WatchGlobs(hash: Hash, globs: GlobSet) | PathChanged(path: string) | WatchError

  function Step(matcher: Matcher, t: Tracker, e: Event): Tracker {
    match e
    case WatchGlobs(hash, globs) => Watch(t, hash, globs)
    case PathChanged(path) => PathChange(matcher, t, path)
    case WatchError => Empty
  }

  function After(matcher: Matcher, history: seq<Event>): Tracker {
    if history == [] then Empty
    else Step(matcher, After(matcher, history[..|history| - 1]), history[|history| - 1])
  }

  /** At index `i` the hash was registered for the last time, and no error came later. */
  ghost predicate IsCurrent(history: seq<Event>, h: Hash, i: int) {
    && 0 <= i < |history| && history[i].WatchGlobs? && history[i].hash == h
    && forall j :: i < j < |history| ==> !history[j].WatchError? && !(history[j].WatchGlobs? && history[j].hash == h)
  }

  /** The event changes a file that `g` matches and no exclude of the set does. */
  predicate Invalidates(matcher: Matcher, e: Event, globs: GlobSet, g: string) {
    e.PathChanged? && matcher(g, e.path) && forall x :: x in globs.excludes ==> !matcher(x, e.path)
  }

  /** What "unchanged" means: registered, and since then no error and no matching, non-excluded change. */
  ghost predicate Unchanged(matcher: Matcher, history: seq<Event>, h: Hash, g: string) {
    exists i ::
      && IsCurrent(history, h, i) && g in history[i].globs.includes
      && forall j :: i < j < |history| ==> !Invalidates(matcher, history[j], history[i].globs, g)
  }

  /** The maps index each other, remember the current excludes and tell the truth about the history. */
  ghost predicate Indexed(t: Tracker) {
    forall h, g :: Has(t, h, g) ==> h in HashesFor(t.globStatuses, g)
  }

  ghost predicate ExcludesAreCurrent(history: seq<Event>, t: Tracker) {
    forall h :: h in t.hashGlobs ==>
        exists i :: IsCurrent(history, h, i) && history[i].globs.excludes == t.hashGlobs[h].excludes
  }

  ghost predicate Faithful(matcher: Matcher, history: seq<Event>, t: Tracker) {
    && Indexed(t)
    && ExcludesAreCurrent(history, t)
    && (forall h, g :: Has(t, h, g) <==> Unchanged(matcher, history, h, g))
  }

  lemma CurrentIsUnique(history: seq<Event>, h: Hash, i: int, j: int)
    requires IsCurrent(history, h, i) && IsCurrent(history, h, j)
    ensures i == j
  {
  }

  lemma CurrentStep(history: seq<Event>, e: Event, h: Hash, i: int)
    ensures IsCurrent(history + [e], h, i) <==>
      if e.WatchGlobs? && e.hash == h then i == |history| else !e.WatchError? && IsCurrent(history, h, i)
  {
    var all := history + [e];
    assert forall j :: 0 <= j < |history| ==> all[j] == history[j];
    assert all[|history|] == e;
    if i < |history| && IsCurrent(all, h, i) {
      assert all[|history|] == e;
      assert forall j :: i < j < |history| ==> all[j] == history[j];
    }
  }

  /** How one event changes what is unchanged. */
  lemma UnchangedStep(matcher: Matcher, history: seq<Event>, e: Event, h: Hash, g: string)
    ensures e.WatchGlobs? && e.hash == h ==> (Unchanged(matcher, history + [e], h, g) <==> g in e.globs.includes)
    ensures e.WatchGlobs? && e.hash != h ==> (Unchanged(matcher, history + [e], h, g)
        <==> Unchanged(matcher, history, h, g))
    ensures e.WatchError? ==> !Unchanged(matcher, history + [e], h, g)
    ensures forall i :: e.PathChanged? && IsCurrent(history, h, i) ==>
      (Unchanged(matcher, history + [e], h, g) <==>
       Unchanged(matcher, history, h, g) && !Invalidates(matcher, e, history[i].globs, g))
    ensures e.PathChanged? && Unchanged(matcher, history + [e], h, g) ==> Unchanged(matcher, history, h, g)
  {
    var all := history + [e];
    assert forall j :: 0 <= j < |history| ==> all[j] == history[j];
    assert all[|history|] == e;
    forall i
      ensures IsCurrent(all, h, i) <==>
          if e.WatchGlobs? && e.hash == h then i == |history| else !e.WatchError? && IsCurrent(history, h, i)
    {
      CurrentStep(history, e, h, i);
    }
    forall i, j | IsCurrent(history, h, i) && IsCurrent(history, h, j)
      ensures i == j
    {
      CurrentIsUnique(history, h, i, j);
    }
  }

  lemma WatchKeepsFaith(matcher: Matcher, history: seq<Event>, t: Tracker, hash: Hash, globs: GlobSet)
    requires Faithful(matcher, history, t)
    ensures Faithful(matcher, history + [WatchGlobs(hash, globs)], Watch(t, hash, globs))
  {
    var e := WatchGlobs(hash, globs);
    var t' := Watch(t, hash, globs);
    assert Indexed(t') by {
      forall h, g | Has(t', h, g)
        ensures h in HashesFor(t'.globStatuses, g)
      {
        if h != hash { assert Has(t, h, g); }
      }
    }
    forall h, g
      ensures Has(t', h, g) <==> Unchanged(matcher, history + [e], h, g)
    {
      UnchangedStep(matcher, history, e, h, g);
      assert h != hash ==> (Has(t', h, g) <==> Has(t, h, g));
    }
    ExcludesStayCurrent(history, e, t, t');
  }

  lemma ExcludesStayCurrent(history: seq<Event>, e: Event, t: Tracker, t': Tracker)
    requires ExcludesAreCurrent(history, t) && !e.WatchError?
    requires forall h :: h in t'.hashGlobs ==>
      if e.WatchGlobs? && e.hash == h then t'.hashGlobs[h] == e.globs
      else h in t.hashGlobs && t'.hashGlobs[h].excludes == t.hashGlobs[h].excludes
    ensures ExcludesAreCurrent(history + [e], t')
  {
    forall h | h in t'.hashGlobs
      ensures exists i ::
          IsCurrent(history + [e], h, i) && (history + [e])[i].globs.excludes == t'.hashGlobs[h].excludes
    {
      if e.WatchGlobs? && e.hash == h {
        CurrentStep(history, e, h, |history|);
        assert IsCurrent(history + [e], h, |history|);
      } else {
        var i :| IsCurrent(history, h, i) && history[i].globs.excludes == t.hashGlobs[h].excludes;
        CurrentStep(history, e, h, i);
        assert IsCurrent(history + [e], h, i);
      }
    }
  }

  lemma HitGlobsAre(matcher: Matcher, statuses: map<string, set<Hash>>, path: string, h: Hash, g: string)
    ensures g in HitGlobs(Hits(matcher, statuses, path), h) <==> matcher(g, path) && h in HashesFor(statuses, g)
  {
    var hits := Hits(matcher, statuses, path);
    if matcher(g, path) && h in HashesFor(statuses, g) {
      assert (g, h) in hits;
      assert (g, h).1 == h && (g, h).0 == g;
    }
  }

  /** A glob stays with a hash unless the path matches it and the hash does not exclude the path. */
  lemma HasAfterPath(matcher: Matcher, t: Tracker, path: string, h: Hash, g: string)
    requires Indexed(t)
    ensures Has(PathChange(matcher, t, path), h, g) <==>
      Has(t, h, g) && !(matcher(g, path) && !Excludes(matcher, t.hashGlobs[h], path))
    ensures Has(PathChange(matcher, t, path), h, g) ==> h in HashesFor(PathChange(matcher, t, path).globStatuses, g)
  {
    HitGlobsAre(matcher, t.globStatuses, path, h, g);
    if Has(t, h, g) {
      assert h in t.globStatuses[g];
      var hit := HitGlobs(Hits(matcher, t.globStatuses, path), h);
      assert g !in hit ==> g in t.hashGlobs[h].includes - hit;
      assert Excludes(matcher, t.hashGlobs[h], path) ==> h in Spared(matcher, t.hashGlobs, t.globStatuses[g], path);
    }
  }

  lemma PathKeepsFaith(matcher: Matcher, history: seq<Event>, t: Tracker, path: string)
    requires Faithful(matcher, history, t)
    ensures Faithful(matcher, history + [PathChanged(path)], PathChange(matcher, t, path))
  {
    var e := PathChanged(path);
    var t' := PathChange(matcher, t, path);
    forall h, g
      ensures Has(t', h, g) <==> Unchanged(matcher, history + [e], h, g)
      ensures Has(t', h, g) ==> h in HashesFor(t'.globStatuses, g)
    {
      UnchangedStep(matcher, history, e, h, g);
      HasAfterPath(matcher, t, path, h, g);
      if Has(t, h, g) {
        var i :| IsCurrent(history, h, i) && history[i].globs.excludes == t.hashGlobs[h].excludes;
        assert Invalidates(matcher, e, history[i].globs, g) <==>
            matcher(g, path) && !Excludes(matcher, t.hashGlobs[h], path);
      }
    }
    ExcludesStayCurrent(history, e, t, t');
  }

  lemma {:induction false} HistoryIsFaithful(matcher: Matcher, history: seq<Event>)
    ensures Faithful(matcher, history, After(matcher, history))
  {
    if history != [] {
      var front, e := history[..|history| - 1], history[|history| - 1];
      assert history == front + [e];
      HistoryIsFaithful(matcher, front);
      match e
      case WatchGlobs(hash, globs) => WatchKeepsFaith(matcher, front, After(matcher, front), hash, globs);
      case PathChanged(path) => PathKeepsFaith(matcher, front, After(matcher, front), path);
      case WatchError =>
        forall h, g
          ensures !Unchanged(matcher, history, h, g)
        {
          UnchangedStep(matcher, front, e, h, g);
        }
    }
  }

  /** After any history, a query returns exactly the candidates that are not unchanged for its hash. */
  lemma QueryMeansHistory(matcher: Matcher, history: seq<Event>, h: Hash, candidates: set<string>, g: string)
    ensures g in ChangedGlobs(After(matcher, history), h, candidates) <==>
      g in candidates && !Unchanged(matcher, history, h, g)
  {
    HistoryIsFaithful(matcher, history);
    assert Has(After(matcher, history), h, g) <==> Unchanged(matcher, history, h, g);
  }

  // The branch for hashes that are not tracked

  /** Every glob refers only to tracked hashes that still have it. */
  ghost predicate NoDangling(t: Tracker) {
    forall g, h :: g in t.globStatuses && h in t.globStatuses[g] ==> Has(t, h, g)
  }

  /** A change of the path finds, for `g`, the hash `h`. */
  predicate Finds(matcher: Matcher, t: Tracker, path: string, g: string, h: Hash) {
    g in t.globStatuses && matcher(g, path) && h in t.globStatuses[g]
  }

  /** One of the globs finds a hash that is not tracked. */
  ghost predicate FindsUntracked(matcher: Matcher, t: Tracker, path: string, globs: set<string>) {
    exists g, h :: g in globs && Finds(matcher, t, path, g, h) && h !in t.hashGlobs
  }

  /** One of the globs finds a hash that no longer has it. */
  ghost predicate FindsStale(matcher: Matcher, t: Tracker, path: string, globs: set<string>) {
    exists g, h :: g in globs && Finds(matcher, t, path, g, h) && !Has(t, h, g)
  }

  /** Whoever registers a hash again names at least the globs that are still unchanged for it. */
  ghost predicate Covers(matcher: Matcher, history: seq<Event>) {
    forall i, g :: 0 <= i < |history| && history[i].WatchGlobs? && Unchanged(matcher, history[..i], history[i].hash, g)
      ==> g in history[i].globs.includes
  }

  lemma PathKeepsNoDangling(matcher: Matcher, t: Tracker, path: string)
    requires NoDangling(t) && Indexed(t)
    ensures NoDangling(PathChange(matcher, t, path))
  {
    var t' := PathChange(matcher, t, path);
    forall g, h | g in t'.globStatuses && h in t'.globStatuses[g]
      ensures Has(t', h, g)
    {
      assert h in t.globStatuses[g] && Has(t, h, g);
      HasAfterPath(matcher, t, path, h, g);
    }
  }

  lemma WatchKeepsNoDangling(t: Tracker, hash: Hash, globs: GlobSet)
    requires NoDangling(t) && forall g :: Has(t, hash, g) ==> g in globs.includes
    ensures NoDangling(Watch(t, hash, globs))
  {
    var t' := Watch(t, hash, globs);
    forall g, h | g in t'.globStatuses && h in t'.globStatuses[g]
      ensures Has(t', h, g)
    {
      if h != hash || g !in globs.includes { assert Has(t, h, g); }
    }
  }

  lemma CoversPrefix(matcher: Matcher, history: seq<Event>, k: nat)
    requires Covers(matcher, history) && k <= |history|
    ensures Covers(matcher, history[..k])
  {
    var front := history[..k];
    forall i, g | 0 <= i < |front| && front[i].WatchGlobs? && Unchanged(matcher, front[..i], front[i].hash, g)
      ensures g in front[i].globs.includes
    {
      assert front[..i] == history[..i];
    }
  }

  /** A registration covers what the tracker still has of its hash. */
  lemma CoversTracked(matcher: Matcher, history: seq<Event>, i: nat)
    requires Covers(matcher, history) && i < |history| && history[i].WatchGlobs?
    ensures forall g :: Has(After(matcher, history[..i]), history[i].hash, g) ==> g in history[i].globs.includes
  {
    HistoryIsFaithful(matcher, history[..i]);
  }

  lemma {:induction false} CoveringMeansNoDangling(matcher: Matcher, history: seq<Event>)
    requires Covers(matcher, history)
    ensures NoDangling(After(matcher, history))
  {
    if history != [] {
      var front, e := history[..|history| - 1], history[|history| - 1];
      CoversPrefix(matcher, history, |history| - 1);
      CoveringMeansNoDangling(matcher, front);
      var t := After(matcher, front);
      match e
      case WatchGlobs(hash, globs) =>
        CoversTracked(matcher, history, |history| - 1);
        WatchKeepsNoDangling(t, hash, globs);
      case PathChanged(path) =>
        HistoryIsFaithful(matcher, front);
        PathKeepsNoDangling(matcher, t, path);
      case WatchError =>
    }
  }

  /**
   No glob ever refers to a hash that is not tracked or no longer has it, exactly if every registration
   covers the globs still unchanged for its hash.
   */
  lemma NeverDanglesIff(matcher: Matcher, history: seq<Event>)
    ensures (forall k :: 0 <= k <= |history| ==> NoDangling(After(matcher, history[..k]))) <==> Covers(matcher, history)
  {
    if Covers(matcher, history) {
      forall k | 0 <= k <= |history| ensures NoDangling(After(matcher, history[..k])) {
        CoversPrefix(matcher, history, k);
        CoveringMeansNoDangling(matcher, history[..k]);
      }
    }
    if forall k :: 0 <= k <= |history| ==> NoDangling(After(matcher, history[..k])) {
      forall i, g | 0 <= i < |history| && history[i].WatchGlobs? && Unchanged(matcher, history[..i], history[i].hash, g)
        ensures g in history[i].globs.includes
      {
        assert history[..i + 1][..i] == history[..i] && NoDangling(After(matcher, history[..i + 1]));
        OneRegistration(matcher, history[..i], history[i].hash, history[i].globs, g);
      }
    }
  }

  lemma OneRegistration(matcher: Matcher, front: seq<Event>, hash: Hash, globs: GlobSet, g: string)
    requires Unchanged(matcher, front, hash, g) && NoDangling(Watch(After(matcher, front), hash, globs))
    ensures g in globs.includes
  {
    HistoryIsFaithful(matcher, front);
    var t := After(matcher, front);
    assert Has(t, hash, g);
    assert hash in Watch(t, hash, globs).globStatuses[g];
  }

  ghost predicate SameGlobsPerHash(history: seq<Event>) {
    forall i, j :: 0 <= i < j < |history| && history[i].WatchGlobs? && history[j].WatchGlobs?
        && history[i].hash == history[j].hash
      ==> history[i].globs == history[j].globs
  }

  /** In particular if a hash is always registered with the same globs. */
  lemma SameGlobsMeansNoDangling(matcher: Matcher, history: seq<Event>)
    requires SameGlobsPerHash(history)
    ensures NoDangling(After(matcher, history))
  {
    forall i, g | 0 <= i < |history| && history[i].WatchGlobs? && Unchanged(matcher, history[..i], history[i].hash, g)
      ensures g in history[i].globs.includes
    {
      var j :| IsCurrent(history[..i], history[i].hash, j) && g in history[..i][j].globs.includes;
      assert history[..i][j] == history[j];
    }
    CoveringMeansNoDangling(matcher, history);
  }

  /**
   Registering a hash with other globs leaves a reference behind; once the new globs have changed, the hash is
   not tracked any more, and the next change that the old glob matches finds it.
   */
  lemma UntrackedHashIsMet(matcher: Matcher, first: string, second: string) returns (history: seq<Event>)
    requires matcher("b", first) && !matcher("a", first) && matcher("a", second)
    ensures !SameGlobsPerHash(history) && !Covers(matcher, history)
    ensures var t := After(matcher, history); Finds(matcher, t, second, "a", "h") && "h" !in t.hashGlobs
  {
    var one, two := WatchGlobs("h", GlobSet({"a"}, {})), WatchGlobs("h", GlobSet({"b"}, {}));
    history := [one, two, PathChanged(first)];
    assert history[..2] == [one, two] && [one, two][..1] == [one] && [one][..0] == [];
    var t1, t := After(matcher, [one]), After(matcher, [one, two]);
    assert t1 == Step(matcher, After(matcher, []), one);
    assert t1 == Watch(Empty, "h", one.globs) && t == Watch(t1, "h", two.globs);
    assert t1.globStatuses["a"] == {"h"} && t1.globStatuses.Keys == {"a"};
    assert "a"[0] != "b"[0] && t.globStatuses.Keys == {"a", "b"} && t.globStatuses["a"] == {"h"}
        && t.globStatuses["b"] == {"h"};
    assert t == Tracker(map["h" := GlobSet({"b"}, {})], map["a" := {"h"}, "b" := {"h"}]);
    assert history[0].globs != history[1].globs;
    AfterBoth(matcher, t, first);
    assert After(matcher, history) == PathChange(matcher, t, first);
    if Covers(matcher, history) { NeverDanglesIff(matcher, history); }
    assert history[..3] == history;
  }

  lemma AfterBoth(matcher: Matcher, t: Tracker, path: string)
    requires t == Tracker(map["h" := GlobSet({"b"}, {})], map["a" := {"h"}, "b" := {"h"}])
    requires matcher("b", path) && !matcher("a", path)
    ensures var t' := PathChange(matcher, t, path);
        "a" in t'.globStatuses && "h" in t'.globStatuses["a"] && "h" !in t'.hashGlobs
  {
    HitGlobsAre(matcher, t.globStatuses, path, "h", "b");
    var hit := HitGlobs(Hits(matcher, t.globStatuses, path), "h");
    assert "b" in hit && {"b"} - hit == {};
    assert !Excludes(matcher, t.hashGlobs["h"], path);
  }

  // The object itself

  class GlobTracker {
    var hashGlobs: map<Hash, GlobSet>
    var globStatuses: map<string, set<Hash>>

    ghost function View(): Tracker
      reads this
    {
      Tracker(hashGlobs, globStatuses)
    }

    constructor ()
      ensures View() == Empty
    {
      hashGlobs, globStatuses := map[], map[];
    }

    method RecordGlob(g: string, hash: Hash)
      modifies this`globStatuses
      ensures globStatuses == old(globStatuses)[g := HashesFor(old(globStatuses), g) + {hash}]
    {
      if g !in globStatuses { globStatuses := globStatuses[g := {}]; }
      globStatuses := globStatuses[g := globStatuses[g] + {hash}];
    }

    method RecordGlobs(globs: set<string>, hash: Hash)
      modifies this`globStatuses
      ensures globStatuses == Recorded(old(globStatuses), globs, hash)
    {
      var todo := globs;
      ghost var done: set<string> := {};
      RecordedNone(globStatuses, hash);
      while todo != {}
        invariant done + todo == globs
        invariant globStatuses == Recorded(old(globStatuses), done, hash)
        decreases |todo|
      {
        var g :| g in todo;
        RecordedOneMore(old(globStatuses), done, g, hash);
        RecordGlob(g, hash);
        todo, done := todo - {g}, done + {g};
      }
    }

    method HandleWatchGlobs(hash: Hash, globs: GlobSet)
      modifies this
      ensures View() == Watch(old(View()), hash, globs)
    {
      RecordGlobs(globs.includes, hash);
      hashGlobs := hashGlobs[hash := globs];
    }

    method HandleGetChangedGlobs(hash: Hash, candidates: set<string>) returns (changed: set<string>)
      ensures changed == ChangedGlobs(View(), hash, candidates)
    {
      changed := candidates;
      if hash in hashGlobs {
        changed := set g | g in candidates && g !in hashGlobs[hash].includes;
      }
    }

    method OnError()
      modifies this
      ensures View() == Empty
    {
      hashGlobs, globStatuses := map[], map[];
    }

    /** One turn of the inner retain: what a matching change does to one hash of a glob. */
    method InvalidateHash(matcher: Matcher, path: string, g: string, h: Hash,
                          ghost start: map<Hash, GlobSet>, ghost hits: set<(string, Hash)>)
      returns (keep: bool, missing: bool)
      requires hashGlobs == Without(matcher, start, hits, path)
      modifies this`hashGlobs
      ensures hashGlobs == Without(matcher, start, hits + {(g, h)}, path)
      ensures keep <==> h in start && Excludes(matcher, start[h], path)
      ensures missing ==> !(h in start && g in start[h].includes && (g, h) !in hits)
      ensures h !in start ==> missing
    {
      OneMoreHit(matcher, start, hits, path, g, h);
      if h in start && g in start[h].includes && (g, h) !in hits { StaysUntilHit(matcher, start, hits, path, g, h); }
      keep, missing := false, h !in hashGlobs;
      if missing { return; }
      var globs := hashGlobs[h];
      if Excludes(matcher, globs, path) {
        keep := true;
      } else {
        globs := globs.(includes := globs.includes - {g});
        hashGlobs := if globs.includes == {} then hashGlobs - {h} else hashGlobs[h := globs];
      }
    }

    /**
     Drop a glob, which matches the changed path, from the hashes that do not exclude the path.
     `dangling` reports the branch for a hash that is not tracked, which the source asserts away.
     */
    method InvalidateGlob(matcher: Matcher, path: string, g: string, hashes: set<Hash>,
                          ghost start: map<Hash, GlobSet>, ghost hits: set<(string, Hash)>)
      returns (kept: set<Hash>, dangling: bool)
      requires hashGlobs == Without(matcher, start, hits, path)
      modifies this`hashGlobs
      ensures hashGlobs == Without(matcher, start, hits + Pairs(g, hashes), path)
      ensures kept == Spared(matcher, start, hashes, path)
      ensures dangling ==> SomeStale(start, g, hits, hashes)
      ensures SomeUntracked(start, hashes) ==> dangling
    {
      kept, dangling := {}, false;
      var todo := hashes;
      ghost var seen: set<Hash> := {};
      assert hits + Pairs(g, seen) == hits;
      while todo != {}
        invariant todo <= hashes && seen == hashes - todo
        invariant hashGlobs == Without(matcher, start, hits + Pairs(g, seen), path)
        invariant kept == Spared(matcher, start, seen, path)
        invariant dangling ==> SomeStale(start, g, hits, hashes)
        invariant SomeUntracked(start, seen) ==> dangling
        decreases |todo|
      {
        var h :| h in todo;
        PairsOneMore(hits, g, seen, h);
        SparedOneMore(matcher, start, seen, path, h);
        var keep, missing := InvalidateHash(matcher, path, g, h, start, hits + Pairs(g, seen));
        if keep { kept := kept + {h}; }
        if missing { dangling := true; }
        todo := todo - {h};
        seen := seen + {h};
      }
      assert seen == hashes;
    }

    /** One turn of the outer retain: `before` is the index as it was when the pass began. */
    method PurgeGlob(matcher: Matcher, path: string, g: string, before: map<string, set<Hash>>, todo: set<string>,
                     ghost start: map<Hash, GlobSet>)
      returns (dangling: bool)
      requires todo <= before.Keys && g in todo
      requires hashGlobs == Without(matcher, start, Hits(matcher, before - todo, path), path)
      requires globStatuses == HalfPurged(matcher, start, before, todo, path)
      modifies this
      ensures hashGlobs == Without(matcher, start, Hits(matcher, before - (todo - {g}), path), path)
      ensures globStatuses == HalfPurged(matcher, start, before, todo - {g}, path)
      ensures dangling ==> FindsStale(matcher, Tracker(start, before), path, {g})
      ensures FindsUntracked(matcher, Tracker(start, before), path, {g}) ==> dangling
    {
      HitsOneMore(matcher, before, todo, g, path);
      PurgedOneMore(matcher, start, before, todo, g, path);
      dangling := false;
      if matcher(g, path) {
        var kept;
        kept, dangling := InvalidateGlob(matcher, path, g, before[g], start, Hits(matcher, before - todo, path));
        globStatuses := if kept == {} then globStatuses - {g} else globStatuses[g := kept];
        ghost var t := Tracker(start, before);
        assert forall h :: h in before[g] ==>
            Finds(matcher, t, path, g, h) && (g, h) !in Hits(matcher, before - todo, path);
      }
    }

    /**
     `dangling` says that the branch for a hash that is not tracked was taken: it is if the change finds such a
     hash, and it is not unless the change finds a hash that no longer has the glob.
     */
    method HandlePathChange(matcher: Matcher, path: string) returns (dangling: bool)
      modifies this
      ensures View() == PathChange(matcher, old(View()), path)
      ensures FindsUntracked(matcher, old(View()), path, old(globStatuses).Keys) ==> dangling
      ensures dangling ==> FindsStale(matcher, old(View()), path, old(globStatuses).Keys)
    {
      dangling := false;
      var before := globStatuses;
      var todo := before.Keys;
      NothingPurged(matcher, hashGlobs, before, path);
      while todo != {}
        invariant todo <= before.Keys && before == old(globStatuses)
        invariant hashGlobs == Without(matcher, old(hashGlobs), Hits(matcher, before - todo, path), path)
        invariant globStatuses == HalfPurged(matcher, old(hashGlobs), before, todo, path)
        invariant FindsUntracked(matcher, old(View()), path, before.Keys - todo) ==> dangling
        invariant dangling ==> FindsStale(matcher, old(View()), path, before.Keys)
        decreases |todo|
      {
        var g :| g in todo;
        var bad := PurgeGlob(matcher, path, g, before, todo, old(hashGlobs));
        FindsOneMore(matcher, old(View()), path, before.Keys, todo, g);
        dangling := dangling || bad;
        todo := todo - {g};
      }
      EverythingPurged(matcher, old(hashGlobs), before, path);
      assert before.Keys - {} == before.Keys;
    }
  }

  lemma FindsOneMore(matcher: Matcher, t: Tracker, path: string, globs: set<string>, todo: set<string>, g: string)
    requires todo <= globs && g in todo
    ensures FindsUntracked(matcher, t, path, globs - (todo - {g})) ==>
      FindsUntracked(matcher, t, path, globs - todo) || FindsUntracked(matcher, t, path, {g})
    ensures FindsStale(matcher, t, path, {g}) ==> FindsStale(matcher, t, path, globs)
  {
    if FindsUntracked(matcher, t, path, globs - (todo - {g})) {
      var k, h :| k in globs - (todo - {g}) && Finds(matcher, t, path, k, h) && h !in t.hashGlobs;
      assert k in globs - todo || k in {g};
    }
  }

  /** What a glob keeps of its hashes when the path changes; nothing if it loses them all. */
  function PurgedAt(matcher: Matcher, hashGlobs: map<Hash, GlobSet>, hashes: set<Hash>, g: string,
      path: string): Option<set<Hash>> {
    if !matcher(g, path) then Some(hashes)
    else if Spared(matcher, hashGlobs, hashes, path) == {} then None
    else Some(Spared(matcher, hashGlobs, hashes, path))
  }

  /** The index while the globs of `todo` have not been looked at. */
  function HalfPurged(matcher: Matcher, hashGlobs: map<Hash, GlobSet>, statuses: map<string, set<Hash>>,
      todo: set<string>, path: string): map<string, set<Hash>> {
    map g | g in statuses && (g in todo || PurgedAt(matcher, hashGlobs, statuses[g], g, path).Some?) ::
      if g in todo then statuses[g] else PurgedAt(matcher, hashGlobs, statuses[g], g, path).value
  }

  lemma NothingPurged(matcher: Matcher, hashGlobs: map<Hash, GlobSet>, statuses: map<string, set<Hash>>, path: string)
    ensures Without(matcher, hashGlobs, Hits(matcher, statuses - statuses.Keys, path), path) == hashGlobs
    ensures HalfPurged(matcher, hashGlobs, statuses, statuses.Keys, path) == statuses
  {
    assert Hits(matcher, statuses - statuses.Keys, path) == {};
    assert forall h :: HitGlobs({}, h) == {};
  }

  lemma EverythingPurged(matcher: Matcher, hashGlobs: map<Hash, GlobSet>, statuses: map<string, set<Hash>>,
      path: string)
    ensures statuses - {} == statuses
    ensures HalfPurged(matcher, hashGlobs, statuses, {}, path) == Purged(matcher, hashGlobs, statuses, path)
  {
  }

  lemma RecordedNone(statuses: map<string, set<Hash>>, hash: Hash)
    ensures Recorded(statuses, {}, hash) == statuses
  {
  }

  lemma RecordedOneMore(statuses: map<string, set<Hash>>, done: set<string>, g: string, hash: Hash)
    ensures
      var now := Recorded(statuses, done, hash);
      Recorded(statuses, done + {g}, hash) == now[g := HashesFor(now, g) + {hash}]
  {
  }

  lemma PurgedOneMore(matcher: Matcher, hashGlobs: map<Hash, GlobSet>, statuses: map<string, set<Hash>>,
      todo: set<string>, g: string, path: string)
    requires todo <= statuses.Keys && g in todo
    ensures
      var before := HalfPurged(matcher, hashGlobs, statuses, todo, path);
      HalfPurged(matcher, hashGlobs, statuses, todo - {g}, path)
      == match PurgedAt(matcher, hashGlobs, statuses[g], g, path)
         case None => before - {g}
         case Some(kept) => before[g := kept]
  {
  }

  lemma HitsOneMore(matcher: Matcher, statuses: map<string, set<Hash>>, todo: set<string>, g: string, path: string)
    requires todo <= statuses.Keys && g in todo
    ensures Hits(matcher, statuses - (todo - {g}), path)
         == if matcher(g, path) then Hits(matcher, statuses - todo, path) + (set h | h in statuses[g] :: (g, h))
            else Hits(matcher, statuses - todo, path)
    ensures forall h :: (g, h) !in Hits(matcher, statuses - todo, path)
  {
  }

  function Pairs(g: string, hashes: set<Hash>): set<(string, Hash)> {
    set h | h in hashes :: (g, h)
  }

  lemma PairsOneMore(hits: set<(string, Hash)>, g: string, seen: set<Hash>, h: Hash)
    ensures hits + Pairs(g, seen + {h}) == hits + Pairs(g, seen) + {(g, h)}
    ensures h !in seen ==> (g, h) !in Pairs(g, seen)
  {
  }

  lemma SparedOneMore(matcher: Matcher, start: map<Hash, GlobSet>, seen: set<Hash>, path: string, h: Hash)
    ensures Spared(matcher, start, seen + {h}, path)
         == Spared(matcher, start, seen, path) + if h in start && Excludes(matcher, start[h], path) then {h} else {}
  {
  }

  /** Some of the hashes does not have the glob any more. */
  ghost predicate SomeStale(start: map<Hash, GlobSet>, g: string, hits: set<(string, Hash)>, hashes: set<Hash>) {
    exists h :: h in hashes && !(h in start && g in start[h].includes && (g, h) !in hits)
  }

  ghost predicate SomeUntracked(start: map<Hash, GlobSet>, hashes: set<Hash>) {
    exists h :: h in hashes && h !in start
  }

  lemma HitGlobsOneMore(hits: set<(string, Hash)>, g: string, h: Hash, k: Hash)
    ensures HitGlobs(hits + {(g, h)}, k) == HitGlobs(hits, k) + if k == h then {g} else {}
  {
    var hits' := hits + {(g, h)};
    assert (g, h) in hits' && (g, h).0 == g && (g, h).1 == h;
    assert forall x :: x in hits ==> x in hits';
  }

  lemma LeftOneMore(matcher: Matcher, globs: GlobSet, hit: set<string>, path: string, g: string)
    ensures Left(matcher, globs, hit + {g}, path) ==
      match Left(matcher, globs, hit, path)
      case None => None
      case Some(left) =>
        if Excludes(matcher, left, path) then Some(left)
        else if left.includes - {g} == {} then None
        else Some(left.(includes := left.includes - {g}))
    ensures Left(matcher, globs, hit, path).Some? ==>
      Excludes(matcher, Left(matcher, globs, hit, path).value, path) == Excludes(matcher, globs, path)
  {
    assert globs.includes - (hit + {g}) == (globs.includes - hit) - {g};
    if hit == {} { assert globs.includes - (hit + {g}) == globs.includes - {g}; }
  }

  lemma OneMoreHit(matcher: Matcher, start: map<Hash, GlobSet>, hits: set<(string, Hash)>, path: string, g: string,
      h: Hash)
    ensures
      var now := Without(matcher, start, hits, path);
      Without(matcher, start, hits + {(g, h)}, path)
      == if h !in now || Excludes(matcher, now[h], path) then now
         else if now[h].includes - {g} == {} then now - {h}
         else now[h := now[h].(includes := now[h].includes - {g})]
    ensures
      var now := Without(matcher, start, hits, path);
      (h in now && Excludes(matcher, now[h], path)) <==> (h in start && Excludes(matcher, start[h], path))
  {
    if h in start { LeftOneMore(matcher, start[h], HitGlobs(hits, h), path, g); }
    HitGlobsOneMore(hits, g, h, h);
    var now, after := Without(matcher, start, hits, path), Without(matcher, start, hits + {(g, h)}, path);
    var expected :=
      if h !in now || Excludes(matcher, now[h], path) then now
      else if now[h].includes - {g} == {} then now - {h}
      else now[h := now[h].(includes := now[h].includes - {g})];
    forall k | k != h
      ensures k in after <==> k in expected
      ensures k in after ==> after[k] == expected[k]
    {
      HitGlobsOneMore(hits, g, h, k);
      assert HitGlobs(hits + {(g, h)}, k) == HitGlobs(hits, k);
    }
    assert h in after <==> h in expected;
    assert h in after ==> after[h] == expected[h];
  }

  lemma StaysUntilHit(matcher: Matcher, start: map<Hash, GlobSet>, hits: set<(string, Hash)>, path: string, g: string,
      h: Hash)
    requires h in start && g in start[h].includes && (g, h) !in hits
    ensures h in Without(matcher, start, hits, path)
  {
    assert g !in HitGlobs(hits, h);
    assert g in start[h].includes - HitGlobs(hits, h);
  }
}
