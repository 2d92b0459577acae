/**
 The import tracer: a stack of files to look at, each with the number of imports that led to it, and
 the table of files already seen. Reading, parsing and resolving one file is a parameter.
 */
module Tracing {
  import opened Basics

  type File = string

  /** What looking into a file gives: it cannot be read or parsed, or these are its resolved imports. */
  datatype Reading = Failed(error: string) | Parsed(imports: seq<File>, errors: seq<string>)

  /** `plain` files (style sheets and JSON) are recorded but not looked into. */
  datatype Disk = Disk(plain: File -> bool, read: File -> Reading)

  function Imports(disk: Disk, f: File): seq<File> {
    if disk.plain(f) || disk.read(f).Failed? then [] else disk.read(f).imports
  }

  function Errors(disk: Disk, f: File): seq<string> {
    if disk.plain(f) then []
    else match disk.read(f) case Failed(e) => [e] case Parsed(_, errors) => errors
  }

  function HasModule(disk: Disk, f: File): bool {
    !disk.plain(f) && disk.read(f).Parsed?
  }

  type Todo = (File, nat)

  /** `seen` says of each file whether it has a parsed module; `order` is the history of first visits. */
  datatype State = State(files: seq<Todo>, seen: map<File, bool>, errors: seq<string>, order: seq<File>)

  function Extended(imports: seq<File>, depth: nat): seq<Todo> {
    seq(|imports|, i requires 0 <= i < |imports| => (imports[i], depth))
  }

  function Start(roots: seq<File>): State {
    State(Extended(roots, 0), map[], [], [])
  }

  /** `trace_file` on a file that has been popped. */
  function Visit(disk: Disk, s: State, f: File, depth: nat): State {
    if f in s.seen then s
    else State(s.files + Extended(Imports(disk, f), depth + 1), s.seen[f := HasModule(disk, f)],
               s.errors + Errors(disk, f), s.order + [f])
  }

  /** One round of the loop. */
  function Step(disk: Disk, limit: Option<nat>, s: State): State
    requires s.files != []
  {
    var (f, depth) := s.files[|s.files| - 1];
    var popped := s.(files := s.files[..|s.files| - 1]);
    if limit.Some? && depth > limit.value then popped else Visit(disk, popped, f, depth)
  }

  // Reachability

  /** `f` is looked into, can be parsed and imports `g`. */
  ghost predicate Leads(disk: Disk, f: File, g: File) {
    !disk.plain(f) && disk.read(f).Parsed? && g in disk.read(f).imports
  }

  /** `f` can be reached from a root by following exactly `n` imports. */
  ghost predicate In(disk: Disk, roots: seq<File>, f: File, n: nat)
    decreases n
  {
    if n == 0 then f in roots else exists p :: In(disk, roots, p, n - 1) && Leads(disk, p, f)
  }

  ghost predicate Reachable(disk: Disk, roots: seq<File>, f: File) {
    exists n :: In(disk, roots, f, n)
  }

  /** A finite set of files that contains the roots and all their imports. */
  ghost predicate Closed(disk: Disk, roots: seq<File>, all: set<File>) {
    && (forall f :: f in roots ==> f in all)
    && (forall f, g :: f in all && Leads(disk, f, g) ==> g in all)
  }

  // What every round keeps

  ghost predicate Listed(files: seq<Todo>, f: File) {
    exists i :: 0 <= i < |files| && files[i].0 == f
  }

  /** The entry is reachable as it says, in the finite set, and no deeper than the number of files seen. */
  ghost predicate TodoOk(disk: Disk, roots: seq<File>, all: set<File>, seen: nat, t: Todo) {
    In(disk, roots, t.0, t.1) && t.0 in all && t.1 <= seen
  }

  ghost predicate FilesOk(disk: Disk, roots: seq<File>, all: set<File>, s: State) {
    forall i :: 0 <= i < |s.files| ==> TodoOk(disk, roots, all, |s.seen|, s.files[i])
  }

  ghost predicate SeenAt(disk: Disk, roots: seq<File>, limit: Option<nat>, f: File, n: nat) {
    In(disk, roots, f, n) && (limit.Some? ==> n <= limit.value)
  }

  /** Every file seen has been reached, within the limit; it was visited once, and left its errors then. */
  ghost predicate SeenOk(disk: Disk, roots: seq<File>, all: set<File>, limit: Option<nat>, s: State) {
    && s.seen.Keys <= all
    && (forall f :: f in s.seen ==> exists n :: SeenAt(disk, roots, limit, f, n))
    && (forall f :: f in s.seen ==> (s.seen[f] <==> !disk.plain(f) && disk.read(f).Parsed?))
    && IsOrderOf(s.order, s.seen.Keys)
    && s.errors == ErrorsOf(disk, s.order)
  }

  function ErrorsOf(disk: Disk, order: seq<File>): seq<string> {
    if order == [] then [] else
    var before, f := ErrorsOf(disk, order[..|order| - 1]), order[|order| - 1];
    if disk.plain(f) then before
    else match disk.read(f) case Failed(e) => before + [e] case Parsed(_, errors) => before + errors
  }

  /** Nothing gets lost: roots and imports of seen files are seen or still listed. */
  ghost predicate NothingLost(disk: Disk, roots: seq<File>, s: State) {
    && (forall f :: f in roots ==> f in s.seen || Listed(s.files, f))
    && (forall f, g :: f in s.seen && Leads(disk, f, g) ==> g in s.seen || Listed(s.files, g))
  }

  /** The limit is out of reach. */
  ghost predicate Generous(limit: Option<nat>, all: set<File>) {
    limit.Some? ==> |all| <= limit.value + 1
  }

  /** Up to the limit, a file is the same number of imports away on every way to it. */
  ghost predicate Leveled(disk: Disk, roots: seq<File>, limit: nat) {
    forall f, n: nat, m: nat :: In(disk, roots, f, n) && In(disk, roots, f, m) && n <= limit && m <= limit ==> n == m
  }

  ghost predicate ListedWithin(files: seq<Todo>, f: File, limit: nat) {
    exists i :: 0 <= i < |files| && files[i].0 == f && files[i].1 <= limit
  }

  ghost predicate Above(disk: Disk, roots: seq<File>, f: File, limit: nat) {
    exists n: nat :: n < limit && In(disk, roots, f, n)
  }

  /** No file within the limit gets lost: it is seen or still listed at a depth within the limit. */
  ghost predicate NothingCut(disk: Disk, roots: seq<File>, limit: nat, s: State) {
    && (forall f :: f in roots ==> f in s.seen || ListedWithin(s.files, f, limit))
    && (forall f, g :: f in s.seen && Leads(disk, f, g) && Above(disk, roots, f, limit) ==>
          g in s.seen || ListedWithin(s.files, g, limit))
  }

  ghost predicate Inv(disk: Disk, roots: seq<File>, all: set<File>, limit: Option<nat>, s: State) {
    && FilesOk(disk, roots, all, s) && SeenOk(disk, roots, all, limit, s)
    && (Generous(limit, all) ==> NothingLost(disk, roots, s))
    && (limit.Some? && Leveled(disk, roots, limit.value) ==> NothingCut(disk, roots, limit.value, s))
  }

  lemma StartIsOk(disk: Disk, roots: seq<File>, all: set<File>, limit: Option<nat>)
    requires Closed(disk, roots, all)
    ensures Inv(disk, roots, all, limit, Start(roots))
  {
    var s := Start(roots);
    forall f | f in roots ensures Listed(s.files, f) && (limit.Some? ==> ListedWithin(s.files, f, limit.value)) {
      var i :| 0 <= i < |roots| && roots[i] == f;
      assert s.files[i] == (f, 0);
    }
  }

  lemma PopListed(files: seq<Todo>, f: File)
    requires files != [] && Listed(files, f)
    ensures f == files[|files| - 1].0 || Listed(files[..|files| - 1], f)
  {
    var i :| 0 <= i < |files| && files[i].0 == f;
    if i < |files| - 1 { assert files[..|files| - 1][i].0 == f; }
  }

  lemma PopWithin(files: seq<Todo>, f: File, limit: nat)
    requires files != [] && ListedWithin(files, f, limit)
    ensures (f == files[|files| - 1].0 && files[|files| - 1].1 <= limit) || ListedWithin(files[..|files| - 1], f, limit)
  {
    var i :| 0 <= i < |files| && files[i].0 == f && files[i].1 <= limit;
    if i < |files| - 1 { assert files[..|files| - 1][i] == files[i]; }
  }

  lemma WithinMore(files: seq<Todo>, more: seq<Todo>, f: File, limit: nat)
    ensures ListedWithin(files, f, limit) || ListedWithin(more, f, limit) ==> ListedWithin(files + more, f, limit)
  {
    var all := files + more;
    if ListedWithin(files, f, limit) {
      var i :| 0 <= i < |files| && files[i].0 == f && files[i].1 <= limit;
      assert all[i] == files[i];
    } else if ListedWithin(more, f, limit) {
      var i :| 0 <= i < |more| && more[i].0 == f && more[i].1 <= limit;
      assert all[|files| + i] == more[i];
    }
  }

  lemma ListedInMore(files: seq<Todo>, more: seq<Todo>, f: File)
    ensures Listed(files, f) || Listed(more, f) ==> Listed(files + more, f)
  {
    var all := files + more;
    if Listed(files, f) {
      var i :| 0 <= i < |files| && files[i].0 == f;
      assert all[i].0 == f;
    } else if Listed(more, f) {
      var i :| 0 <= i < |more| && more[i].0 == f;
      assert all[|files| + i].0 == f;
    }
  }

  /** A file that is seen already, or too deep, is dropped; a generous limit drops no unseen file. */
  lemma DropKeeps(disk: Disk, roots: seq<File>, all: set<File>, limit: Option<nat>, s: State)
    requires Inv(disk, roots, all, limit, s) && s.files != []
    requires var (f, depth) := s.files[|s.files| - 1]; f in s.seen || (limit.Some? && depth > limit.value)
    ensures Inv(disk, roots, all, limit, s.(files := s.files[..|s.files| - 1]))
  {
    var s' := s.(files := s.files[..|s.files| - 1]);
    var (f, depth) := s.files[|s.files| - 1];
    if Generous(limit, all) {
      if f !in s.seen { FewerThan(s.seen.Keys, all, f); }
      forall g | Listed(s.files, g) ensures g in s.seen || Listed(s'.files, g) { PopListed(s.files, g); }
    }
    if limit.Some? {
      forall g | ListedWithin(s.files, g, limit.value) ensures g in s.seen || ListedWithin(s'.files, g, limit.value) {
        PopWithin(s.files, g, limit.value);
      }
    }
  }

  lemma FewerThan(a: set<File>, b: set<File>, f: File)
    requires a <= b && f in b && f !in a
    ensures |a| < |b|
  {
    var rest := b - a;
    assert f in rest && |b| == |a| + |rest| by { assert b == a + rest; }
  }

  lemma OneImportFurther(disk: Disk, roots: seq<File>, f: File, depth: nat, g: File)
    requires In(disk, roots, f, depth) && Leads(disk, f, g)
    ensures In(disk, roots, g, depth + 1)
  {
  }

  lemma VisitKeepsFiles(disk: Disk, roots: seq<File>, all: set<File>, limit: Option<nat>, s: State, f: File, depth: nat)
    requires FilesOk(disk, roots, all, s) && Closed(disk, roots, all)
    requires TodoOk(disk, roots, all, |s.seen|, (f, depth)) && f !in s.seen
    ensures FilesOk(disk, roots, all, Visit(disk, s, f, depth))
  {
    var s', imports := Visit(disk, s, f, depth), Imports(disk, f);
    assert |s'.seen| == |s.seen| + 1;
    var n := |s.files|;
    forall i | 0 <= i < |s'.files| ensures TodoOk(disk, roots, all, |s'.seen|, s'.files[i]) {
      if i < n {
        assert s'.files[i] == s.files[i] && TodoOk(disk, roots, all, |s.seen|, s.files[i]);
      } else {
        assert s'.files[i] == (imports[i - n], depth + 1) && Leads(disk, f, imports[i - n]);
        OneImportFurther(disk, roots, f, depth, imports[i - n]);
      }
    }
  }

  lemma VisitKeepsSeen(disk: Disk, roots: seq<File>, all: set<File>, limit: Option<nat>, s: State, f: File, depth: nat)
    requires SeenOk(disk, roots, all, limit, s)
    requires SeenAt(disk, roots, limit, f, depth) && f in all && f !in s.seen
    ensures SeenOk(disk, roots, all, limit, Visit(disk, s, f, depth))
  {
    var s' := Visit(disk, s, f, depth);
    OneMoreError(disk, s.order, f);
    OneMoreVisit(s.order, s.seen.Keys, f);
    assert s'.seen.Keys == s.seen.Keys + {f};
  }

  lemma OneMoreError(disk: Disk, order: seq<File>, f: File)
    ensures ErrorsOf(disk, order + [f]) == ErrorsOf(disk, order) + Errors(disk, f)
  {
    assert (order + [f])[..|order|] == order;
  }

  lemma OneMoreVisit(order: seq<File>, seen: set<File>, f: File)
    requires IsOrderOf(order, seen) && f !in seen
    ensures IsOrderOf(order + [f], seen + {f})
  {
  }

  lemma VisitLosesNothing(disk: Disk, roots: seq<File>, s: State, s': State, f: File, depth: nat)
    requires s.files != [] && s.files[|s.files| - 1] == (f, depth) && NothingLost(disk, roots, s) && f !in s.seen
    requires s' == Visit(disk, s.(files := s.files[..|s.files| - 1]), f, depth)
    ensures NothingLost(disk, roots, s')
  {
    var popped, more := s.files[..|s.files| - 1], Extended(Imports(disk, f), depth + 1);
    forall g | Listed(s.files, g) ensures g in s'.seen || Listed(s'.files, g) {
      PopListed(s.files, g);
      ListedInMore(popped, more, g);
    }
    forall g | Leads(disk, f, g) ensures Listed(s'.files, g) {
      var i :| 0 <= i < |Imports(disk, f)| && Imports(disk, f)[i] == g;
      assert more[i].0 == g;
      ListedInMore(popped, more, g);
    }
  }

  lemma VisitCutsNothing(disk: Disk, roots: seq<File>, limit: nat, s: State, s': State, f: File, depth: nat)
    requires s.files != [] && s.files[|s.files| - 1] == (f, depth) && NothingCut(disk, roots, limit, s) && f !in s.seen
    requires Leveled(disk, roots, limit) && In(disk, roots, f, depth) && depth <= limit
    requires s' == Visit(disk, s.(files := s.files[..|s.files| - 1]), f, depth)
    ensures NothingCut(disk, roots, limit, s')
  {
    var popped, more := s.files[..|s.files| - 1], Extended(Imports(disk, f), depth + 1);
    forall g | ListedWithin(s.files, g, limit) ensures g in s'.seen || ListedWithin(s'.files, g, limit) {
      PopWithin(s.files, g, limit);
      WithinMore(popped, more, g, limit);
    }
    forall g | Leads(disk, f, g) && Above(disk, roots, f, limit) ensures ListedWithin(s'.files, g, limit) {
      var n: nat :| n < limit && In(disk, roots, f, n);
      assert n == depth;
      var i :| 0 <= i < |Imports(disk, f)| && Imports(disk, f)[i] == g;
      assert more[i] == (g, depth + 1);
      WithinMore(popped, more, g, limit);
    }
  }

  lemma VisitKeeps(disk: Disk, roots: seq<File>, all: set<File>, limit: Option<nat>, s: State, f: File, depth: nat)
    requires Closed(disk, roots, all) && Inv(disk, roots, all, limit, s) && s.files != []
    requires s.files[|s.files| - 1] == (f, depth) && f !in s.seen && (limit.Some? ==> depth <= limit.value)
    ensures Inv(disk, roots, all, limit, Visit(disk, s.(files := s.files[..|s.files| - 1]), f, depth))
  {
    var popped := s.(files := s.files[..|s.files| - 1]);
    assert TodoOk(disk, roots, all, |s.seen|, s.files[|s.files| - 1]);
    assert FilesOk(disk, roots, all, popped);
    VisitKeepsFiles(disk, roots, all, limit, popped, f, depth);
    VisitKeepsSeen(disk, roots, all, limit, popped, f, depth);
    if Generous(limit, all) { VisitLosesNothing(disk, roots, s, Visit(disk, popped, f, depth), f, depth); }
    if limit.Some? && Leveled(disk, roots, limit.value) {
      VisitCutsNothing(disk, roots, limit.value, s, Visit(disk, popped, f, depth), f, depth);
    }
  }

  /** Every round keeps the invariant, and leaves fewer files unseen or a shorter list. */
  lemma StepKeeps(disk: Disk, roots: seq<File>, all: set<File>, limit: Option<nat>, s: State)
    requires Closed(disk, roots, all) && Inv(disk, roots, all, limit, s) && s.files != []
    ensures Inv(disk, roots, all, limit, Step(disk, limit, s))
    ensures var s' := Step(disk, limit, s);
      all - s'.seen.Keys < all - s.seen.Keys || (s.seen == s'.seen && |s'.files| < |s.files|)
  {
    var (f, depth) := s.files[|s.files| - 1];
    if f in s.seen || (limit.Some? && depth > limit.value) {
      DropKeeps(disk, roots, all, limit, s);
    } else {
      VisitKeeps(disk, roots, all, limit, s, f, depth);
      assert TodoOk(disk, roots, all, |s.seen|, s.files[|s.files| - 1]);
      assert f in all - s.seen.Keys && f !in all - Step(disk, limit, s).seen.Keys;
    }
  }

  /** With nothing left to look at, everything reachable has been seen. */
  lemma {:induction false} AllSeen(disk: Disk, roots: seq<File>, s: State, f: File, n: nat)
    requires NothingLost(disk, roots, s) && s.files == [] && In(disk, roots, f, n)
    ensures f in s.seen
    decreases n
  {
    if n > 0 {
      var p :| In(disk, roots, p, n - 1) && Leads(disk, p, f);
      AllSeen(disk, roots, s, p, n - 1);
    }
  }

  lemma {:induction false} AllSeenWithin(disk: Disk, roots: seq<File>, limit: nat, s: State, f: File, n: nat)
    requires NothingCut(disk, roots, limit, s) && s.files == [] && In(disk, roots, f, n) && n <= limit
    ensures f in s.seen
    decreases n
  {
    if n > 0 {
      var p :| In(disk, roots, p, n - 1) && Leads(disk, p, f);
      AllSeenWithin(disk, roots, limit, s, p, n - 1);
    }
  }

  lemma SeenAtTheEnd(disk: Disk, roots: seq<File>, all: set<File>, limit: Option<nat>, s: State)
    requires Inv(disk, roots, all, limit, s) && s.files == []
    ensures Generous(limit, all) ==> forall f :: f in s.seen <==> Reachable(disk, roots, f)
    ensures limit.Some? && Leveled(disk, roots, limit.value) ==>
      forall f :: f in s.seen <==> exists n :: SeenAt(disk, roots, limit, f, n)
  {
    if Generous(limit, all) {
      forall f, n: nat | In(disk, roots, f, n) ensures f in s.seen { AllSeen(disk, roots, s, f, n); }
      forall f | f in s.seen ensures Reachable(disk, roots, f) { var n :| SeenAt(disk, roots, limit, f, n); }
    }
    if limit.Some? && Leveled(disk, roots, limit.value) {
      forall f, n: nat | SeenAt(disk, roots, limit, f, n) ensures f in s.seen {
        AllSeenWithin(disk, roots, limit.value, s, f, n);
      }
    }
  }

  // A limit that is hit

  /** a imports b and c, c imports b, b imports x. */
  function Diamond(): Disk {
    var imports := f => if f == "a" then ["b", "c"] else if f == "c" then ["b"] else if f == "b" then ["x"] else [];
    Disk(_ => false, f => Parsed(imports(f), []))
  }

  function Steps(disk: Disk, limit: Option<nat>, s: State, k: nat): State {
    if k == 0 then s else
    var before := Steps(disk, limit, s, k - 1);
    if before.files == [] then before else Step(disk, limit, before)
  }

  lemma DiamondVisit(s: State, rest: seq<Todo>, f: File, depth: nat)
    requires s.files == rest + [(f, depth)] && f !in s.seen && depth <= 2
    ensures Step(Diamond(), Some(2), s)
         == State(rest + Extended(Imports(Diamond(), f), depth + 1), s.seen[f := true], s.errors, s.order + [f])
  {
    assert s.files[..|s.files| - 1] == rest;
  }

  lemma DiamondDrop(s: State, rest: seq<Todo>, f: File, depth: nat)
    requires s.files == rest + [(f, depth)] && (f in s.seen || depth > 2)
    ensures Step(Diamond(), Some(2), s) == s.(files := rest)
  {
    assert s.files[..|s.files| - 1] == rest;
  }

  lemma DiamondSteps()
    ensures
      var s := Steps(Diamond(), Some(2), Start(["a"]), 3);
      s.files == [("b", 1), ("x", 3)] && s.seen == map["a" := true, "c" := true, "b" := true]
  {
    var d, s0 := Diamond(), Start(["a"]);
    DiamondVisit(s0, [], "a", 0);
    var s1 := Steps(d, Some(2), s0, 1);
    assert s1.files == [("b", 1), ("c", 1)];
    DiamondVisit(s1, [("b", 1)], "c", 1);
    var s2 := Steps(d, Some(2), s0, 2);
    assert s2.files == [("b", 1), ("b", 2)];
    DiamondVisit(s2, [("b", 1)], "b", 2);
    assert Steps(d, Some(2), s0, 3) == Step(d, Some(2), s2);
  }

  lemma DiamondReaches()
    ensures In(Diamond(), ["a"], "x", 2)
  {
    var d := Diamond();
    assert In(d, ["a"], "a", 0) && "b" == d.read("a").imports[0] && Leads(d, "a", "b");
    assert In(d, ["a"], "b", 1) && "x" == d.read("b").imports[0] && Leads(d, "b", "x");
  }

  /**
   A limit may cut files that are within it: the stack reaches b through c first, at depth 2, so b's
   import is dropped, although two imports lead from a to x.
   */
  lemma LimitMayCutTooEarly()
    ensures var end := Steps(Diamond(), Some(2), Start(["a"]), 5); end.files == [] && "x" !in end.seen
    ensures In(Diamond(), ["a"], "x", 2)
  {
    var d, s0 := Diamond(), Start(["a"]);
    DiamondSteps();
    var s3 := Steps(d, Some(2), s0, 3);
    DiamondDrop(s3, [("b", 1)], "x", 3);
    var s4 := Steps(d, Some(2), s0, 4);
    assert s4 == s3.(files := [("b", 1)]);
    DiamondDrop(s4, [], "b", 1);
    assert Steps(d, Some(2), s0, 5) == Step(d, Some(2), s4);
    DiamondReaches();
  }

  class Tracer {
    var files: seq<Todo>
    var errors: seq<string>
    ghost var order: seq<File>

    constructor (roots: seq<File>)
      ensures State(files, map[], errors, order) == Start(roots)
    {
      files := Extended(roots, 0);
      errors, order := [], [];
    }

    method TraceFile(disk: Disk, f: File, depth: nat, seen: map<File, bool>) returns (seen': map<File, bool>)
      modifies this
      ensures State(files, seen', errors, order) == Visit(disk, old(State(files, seen, errors, order)), f, depth)
    {
      seen' := seen;
      if f in seen { return; }
      seen' := seen'[f := false];
      order := order + [f];
      if disk.plain(f) { return; }
      match disk.read(f) {
        case Failed(e) => errors := errors + [e];
        case Parsed(imports, problems) =>
          errors := errors + problems;
          seen' := seen'[f := true];
          files := files + Extended(imports, depth + 1);
      }
    }

    /** One round: the last file is taken off the stack and looked at, unless it is too deep. */
    method Round(disk: Disk, limit: Option<nat>, seen: map<File, bool>) returns (seen': map<File, bool>)
      requires files != []
      modifies this
      ensures State(files, seen', errors, order) == Step(disk, limit, old(State(files, seen, errors, order)))
    {
      var (f, depth) := files[|files| - 1];
      files := files[..|files| - 1];
      seen' := seen;
      if limit.Some? && depth > limit.value { return; }
      seen' := TraceFile(disk, f, depth, seen);
    }

    /**
     `trace`: it ends if only finitely many files can be reached. Without a limit, or with one that
     cannot be hit, exactly the reachable files are seen; in any case only files within the limit, and all of
     them if each is the same number of imports away on every way to it.
     */
    method Trace(disk: Disk, roots: seq<File>, limit: Option<nat>, ghost all: set<File>) returns (seen: map<File, bool>)
      requires State(files, map[], errors, order) == Start(roots) && Closed(disk, roots, all)
      modifies this
      ensures Generous(limit, all) ==> forall f :: f in seen <==> Reachable(disk, roots, f)
      ensures limit.Some? && Leveled(disk, roots, limit.value) ==>
        forall f :: f in seen <==> exists n :: SeenAt(disk, roots, limit, f, n)
      ensures SeenOk(disk, roots, all, limit, State(files, seen, errors, order))
    {
      seen := map[];
      StartIsOk(disk, roots, all, limit);
      ghost var s := Start(roots);
      while files != []
        invariant s == State(files, seen, errors, order)
        invariant Inv(disk, roots, all, limit, s)
        decreases all - s.seen.Keys, |s.files|
      {
        StepKeeps(disk, roots, all, limit, s);
        seen := Round(disk, limit, seen);
        s := Step(disk, limit, s);
      }
      SeenAtTheEnd(disk, roots, all, limit, s);
    }
  }
}
