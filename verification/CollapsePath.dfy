/**
 Collapsing dot segments out of glob paths, and the directory a walk starts from: the part of the base
 path that no include glob climbs out of.
 */
module CollapsePath {
  import opened Basics
  import PackagePaths

  const UP := ".."
  const HERE := "."

  datatype Kind = Up | Here | Name

  function KindOf(segment: string): Kind {
    if segment == UP then Up else if segment == HERE then Here else Name
  }

  predicate IsDot(segment: string) {
    segment == UP || segment == HERE
  }

  predicate NoDots(segments: seq<string>) {
    forall i :: 0 <= i < |segments| ==> !IsDot(segments[i])
  }

  // What a list of segments means

  /** Where a walk along the segments ends that starts in the directory `at`; None if it leaves the root. */
  function Place(at: seq<string>, segments: seq<string>): Option<seq<string>> {
    if segments == [] then Some(at) else
    match Place(at, segments[..|segments| - 1])
    case None => None
    case Some(here) =>
      var segment := segments[|segments| - 1];
      if segment == UP then if here == [] then None else Some(here[..|here| - 1])
      else if segment == HERE then Some(here)
      else Some(here + [segment])
  }

  /** How far below its start a walk ends: names count down, dot-dots up. */
  function Net(segments: seq<string>): int {
    if segments == [] then 0 else
    var segment := segments[|segments| - 1];
    Net(segments[..|segments| - 1]) + if segment == UP then -1 else if segment == HERE then 0 else 1
  }

  ghost predicate ClimbsOut(segments: seq<string>, k: nat) {
    k <= |segments| && Net(segments[..k]) < 0
  }

  // The loop

  datatype Collapsed = Collapsed(stack: seq<string>, lowest: Option<nat>, changed: bool)

  function Min(a: nat, b: nat): nat {
    if a < b then a else b
  }

  function Lowest(lowest: Option<nat>, size: nat): nat {
    match lowest case None => size case Some(l) => Min(l, size)
  }

  function Take(c: Collapsed, segment: string): Option<Collapsed> {
    match KindOf(segment)
    case Up =>
      if c.stack == [] then None
      else Some(Collapsed(c.stack[..|c.stack| - 1], Some(Lowest(c.lowest, |c.stack| - 1)), true))
    case Here => Some(Collapsed(c.stack, Some(Lowest(c.lowest, |c.stack|)), true))
    case Name =>
      var lowest := if c.lowest.None? then None else Some(Lowest(c.lowest, |c.stack| + 1));
      Some(Collapsed(c.stack + [segment], lowest, c.changed))
  }

  function Collapse(segments: seq<string>): Option<Collapsed> {
    if segments == [] then Some(Collapsed([], None, false)) else
    match Collapse(segments[..|segments| - 1])
    case None => None
    case Some(c) => Take(c, segments[|segments| - 1])
  }

  /** The second component of the result. */
  function Kept(c: Collapsed): nat {
    Lowest(c.lowest, |c.stack|)
  }

  /** The front of the stack has never been touched. */
  predicate KeptIsFront(segments: seq<string>, c: Collapsed) {
    && (c.lowest.Some? <==> c.changed) && (!c.changed ==> c.stack == segments)
    && (c.lowest.Some? ==> c.lowest.value <= |c.stack|)
    && Kept(c) <= |segments| && c.stack[..Kept(c)] == segments[..Kept(c)]
  }

  ghost predicate Faithful(segments: seq<string>, c: Collapsed) {
    Shaped(segments, c) && KeptIsFront(segments, c)
  }

  lemma Fronts(a: seq<string>, b: seq<string>, n: nat, m: nat)
    requires m <= n <= |a| && n <= |b| && a[..n] == b[..n]
    ensures a[..m] == b[..m]
  {
    assert a[..m] == a[..n][..m] && b[..m] == b[..n][..m];
  }

  lemma TakeKeepsFront(before: seq<string>, b: Collapsed, segment: string)
    requires KeptIsFront(before, b) && Take(b, segment).Some?
    ensures KeptIsFront(before + [segment], Take(b, segment).value)
  {
    var c := Take(b, segment).value;
    if c.changed {
      var m := Kept(c);
      assert m <= Kept(b);
      Fronts(b.stack, before, Kept(b), m);
      assert c.stack[..m] == b.stack[..m] && (before + [segment])[..m] == before[..m];
    }
  }

  lemma NoDotsParts(segments: seq<string>, segment: string)
    ensures NoDots(segments + [segment]) <==> NoDots(segments) && !IsDot(segment)
    ensures segments != [] && NoDots(segments) ==> NoDots(segments[..|segments| - 1])
  {
    var all := segments + [segment];
    assert all[|segments|] == segment;
    assert forall i :: 0 <= i < |segments| ==> all[i] == segments[i];
  }

  /** The stack holds no dots and is as high as the walk is deep. */
  ghost predicate Shaped(segments: seq<string>, c: Collapsed) {
    NoDots(c.stack) && |c.stack| == Net(segments) && (c.changed <==> !NoDots(segments))
  }

  lemma TakeKeepsShape(before: seq<string>, b: Collapsed, segment: string)
    requires Shaped(before, b) && Take(b, segment).Some?
    ensures Shaped(before + [segment], Take(b, segment).value)
  {
    NoDotsParts(before, segment);
    NoDotsParts(b.stack, segment);
    assert (before + [segment])[..|before|] == before;
  }

  lemma {:induction false} CollapseIsFaithful(segments: seq<string>)
    requires Collapse(segments).Some?
    ensures Faithful(segments, Collapse(segments).value)
  {
    if segments != [] {
      var before, segment := segments[..|segments| - 1], segments[|segments| - 1];
      CollapseIsFaithful(before);
      assert segments == before + [segment];
      TakeKeepsShape(before, Collapse(before).value, segment);
      TakeKeepsFront(before, Collapse(before).value, segment);
    }
  }

  /** Collapsing fails exactly when some prefix climbs above the start. */
  lemma {:induction false} CollapseFailsIff(segments: seq<string>)
    ensures Collapse(segments).None? <==> exists k :: ClimbsOut(segments, k)
  {
    if segments == [] {
      assert segments[..0] == [];
    } else {
      var before := segments[..|segments| - 1];
      CollapseFailsIff(before);
      assert segments[..|segments|] == segments;
      forall k | 0 <= k <= |before| ensures segments[..k] == before[..k] { }
      if Collapse(before).None? {
        var k :| ClimbsOut(before, k);
        assert ClimbsOut(segments, k);
      } else {
        CollapseIsFaithful(before);
        forall k: nat | ClimbsOut(segments, k) ensures k == |segments| {
          assert k <= |before| ==> ClimbsOut(before, k);
        }
        assert Collapse(segments).None? <==> ClimbsOut(segments, |segments|);
      }
    }
  }

  /** From any directory, the collapsed segments lead where the original ones lead. */
  lemma {:induction false} CollapseKeepsPlace(segments: seq<string>, at: seq<string>)
    requires Collapse(segments).Some?
    ensures Place(at, segments) == Some(at + Collapse(segments).value.stack)
    ensures Place(at, Collapse(segments).value.stack) == Place(at, segments)
  {
    if segments != [] {
      CollapseKeepsPlace(segments[..|segments| - 1], at);
      var b := Collapse(segments[..|segments| - 1]).value;
      if KindOf(segments[|segments| - 1]).Up? {
        assert (at + b.stack)[..|at + b.stack| - 1] == at + b.stack[..|b.stack| - 1];
      }
    }
    CollapseIsFaithful(segments);
    NamesLeadDown(at, Collapse(segments).value.stack);
  }

  lemma {:induction false} NamesLeadDown(at: seq<string>, names: seq<string>)
    requires NoDots(names)
    ensures Place(at, names) == Some(at + names)
  {
    if names == [] {
      assert at + names == at;
    } else {
      NamesLeadDown(at, names[..|names| - 1]);
      assert at + names[..|names| - 1] + [names[|names| - 1]] == at + names;
    }
  }

  /** A collapsed path has nothing left to collapse. */
  lemma {:induction false} CollapseIsIdempotent(segments: seq<string>)
    requires NoDots(segments)
    ensures Collapse(segments) == Some(Collapsed(segments, None, false))
  {
    if segments != [] {
      var front, last := segments[..|segments| - 1], segments[|segments| - 1];
      assert segments == front + [last];
      NoDotsParts(front, last);
      assert KindOf(last).Name?;
      CollapseIsIdempotent(front);
      assert Take(Collapsed(front, None, false), last) == Some(Collapsed(front + [last], None, false));
    }
  }

  // What is kept

  ghost predicate IsFirstDot(segments: seq<string>, d: nat) {
    d < |segments| && IsDot(segments[d]) && forall j :: 0 <= j < d ==> !IsDot(segments[j])
  }

  /** From the first dot segment on the walk is never higher than `m`, and it is there once. */
  ghost predicate IsLowestFrom(segments: seq<string>, d: nat, m: nat) {
    && (forall j :: d < j <= |segments| ==> m <= Net(segments[..j]))
    && (exists j :: d < j <= |segments| && m == Net(segments[..j]))
  }

  ghost predicate KeptIs(segments: seq<string>, m: nat) {
    if NoDots(segments) then m == |segments|
    else exists d: nat :: IsFirstDot(segments, d) && IsLowestFrom(segments, d, m)
  }

  lemma OneMoreKept(before: seq<string>, segment: string, m: nat, d: nat)
    requires IsFirstDot(before, d) && IsLowestFrom(before, d, m) && Net(before + [segment]) >= 0
    ensures IsFirstDot(before + [segment], d) && IsLowestFrom(before + [segment], d, Min(m, Net(before + [segment])))
  {
    var all := before + [segment];
    assert all[..|all|] == all;
    forall j | 0 <= j <= |before| ensures all[..j] == before[..j] { }
    var j :| d < j <= |before| && m == Net(before[..j]);
    assert all[..j] == before[..j];
  }

  lemma TakeKept(b: Collapsed, segment: string)
    requires Take(b, segment).Some? && (b.lowest.Some? <==> b.changed)
    ensures
      var c := Take(b, segment).value;
      && (b.changed && b.lowest.value <= |b.stack| ==> Kept(c) == Min(Kept(b), |c.stack|))
      && (!b.changed && IsDot(segment) ==> Kept(c) == |c.stack|)
  {
  }

  lemma FirstDotKept(before: seq<string>, segment: string)
    requires NoDots(before) && IsDot(segment) && Net(before + [segment]) >= 0
    ensures IsFirstDot(before + [segment], |before|)
    ensures IsLowestFrom(before + [segment], |before|, Net(before + [segment]))
  {
    var all := before + [segment];
    assert all[..|all|] == all && forall j :: 0 <= j < |before| ==> all[j] == before[j];
  }

  /** What collapsing keeps is exactly the height of the lowest point from the first dot segment on. */
  lemma {:induction false} KeptIsLowest(segments: seq<string>)
    requires Collapse(segments).Some?
    ensures KeptIs(segments, Kept(Collapse(segments).value))
  {
    CollapseIsFaithful(segments);
    if segments != [] {
      var before, segment := segments[..|segments| - 1], segments[|segments| - 1];
      assert segments == before + [segment];
      KeptIsLowest(before);
      CollapseIsFaithful(before);
      NoDotsParts(before, segment);
      TakeKept(Collapse(before).value, segment);
      KeptOneMore(before, segment, Kept(Collapse(before).value), Kept(Collapse(segments).value));
    }
  }

  lemma KeptOneMore(before: seq<string>, segment: string, m: nat, m': nat)
    requires KeptIs(before, m) && Net(before + [segment]) >= 0
    requires if !NoDots(before) then m' == Min(m, Net(before + [segment]))
      else if IsDot(segment) then m' == Net(before + [segment]) else m' == |before| + 1
    ensures KeptIs(before + [segment], m')
  {
    NoDotsParts(before, segment);
    if !NoDots(before) {
      var d: nat :| IsFirstDot(before, d) && IsLowestFrom(before, d, m);
      OneMoreKept(before, segment, m, d);
    } else if IsDot(segment) {
      FirstDotKept(before, segment);
    }
  }

  // Where the walk starts

  /** The least `Kept` of the paths that do not climb out; None if there are none. */
  function LowestOf(base: seq<string>, globs: seq<seq<string>>): Option<nat> {
    if globs == [] then None else
    var before := LowestOf(base, globs[..|globs| - 1]);
    match Collapse(base + globs[|globs| - 1])
    case None => before
    case Some(c) => Some(Lowest(before, Kept(c)))
  }

  /** The components of the base path up to there. */
  function WalkBase(base: seq<string>, globs: seq<seq<string>>): seq<string> {
    match LowestOf(base, globs) case None => base case Some(l) => base[..Min(l, |base|)]
  }

  lemma {:induction false} LowestIsLowest(base: seq<string>, globs: seq<seq<string>>, i: nat)
    requires i < |globs| && Collapse(base + globs[i]).Some?
    ensures LowestOf(base, globs).Some? && LowestOf(base, globs).value <= Kept(Collapse(base + globs[i]).value)
  {
    if i < |globs| - 1 { LowestIsLowest(base, globs[..|globs| - 1], i); }
  }

  /** The walk starts in the base path or above it, and above everything any include can match. */
  lemma WalkBaseCoversIncludes(base: seq<string>, globs: seq<seq<string>>, i: nat)
    requires i < |globs| && Collapse(base + globs[i]).Some?
    ensures WalkBase(base, globs) <= base
    ensures WalkBase(base, globs) <= Collapse(base + globs[i]).value.stack
  {
    LowestIsLowest(base, globs, i);
    var segments := base + globs[i];
    CollapseIsFaithful(segments);
    var c := Collapse(segments).value;
    var walk := WalkBase(base, globs);
    Fronts(c.stack, segments, Kept(c), |walk|);
    assert walk == segments[..|walk|];
  }

  lemma {:induction false} LowestIsReached(base: seq<string>, globs: seq<seq<string>>) returns (i: nat)
    requires LowestOf(base, globs).Some?
    ensures i < |globs| && Collapse(base + globs[i]).Some?
    ensures LowestOf(base, globs).value == Kept(Collapse(base + globs[i]).value)
  {
    var n := |globs| - 1;
    var before, here := LowestOf(base, globs[..n]), Collapse(base + globs[n]);
    i := n;
    if here.None? || (before.Some? && before.value <= Kept(here.value)) { i := LowestIsReached(base, globs[..n]); }
  }

  /** The paths that stay below the root throughout. */
  ghost predicate Survives(segments: seq<string>) {
    forall k: nat :: !ClimbsOut(segments, k)
  }

  /** From its first dot segment on, the walk along the segments is never higher up than `n`. */
  ghost predicate StaysBelow(segments: seq<string>, n: nat) {
    forall d: nat, j :: IsFirstDot(segments, d) && d < j <= |segments| ==> n <= Net(segments[..j])
  }

  /** And it is exactly there once. */
  ghost predicate Reaches(segments: seq<string>, n: nat) {
    exists d: nat :: IsFirstDot(segments, d) && IsLowestFrom(segments, d, n)
  }

  lemma KeptStaysBelow(segments: seq<string>, m: nat, n: nat)
    requires KeptIs(segments, m) && n <= m
    ensures StaysBelow(segments, n)
  {
    forall d: nat, j | IsFirstDot(segments, d) && d < j <= |segments| ensures n <= Net(segments[..j]) {
      var e: nat :| IsFirstDot(segments, e) && IsLowestFrom(segments, e, m);
      assert d == e;
    }
  }

  /**
   The walk starts as far down the base path as it can: no surviving include goes higher up from its first dot segment
   on, and unless it starts in the base path itself, one of them goes just that high.
   */
  lemma WalkBaseIsLongest(base: seq<string>, globs: seq<seq<string>>)
    requires IsClean(base)
    ensures WalkBase(base, globs) <= base
    ensures
      var n := |WalkBase(base, globs)|;
      && (forall i :: 0 <= i < |globs| && Survives(base + globs[i]) ==> StaysBelow(base + globs[i], n))
      && (n < |base| ==> exists i :: 0 <= i < |globs| && Survives(base + globs[i]) && Reaches(base + globs[i], n))
  {
    var n := |WalkBase(base, globs)|;
    forall i | 0 <= i < |globs| && Survives(base + globs[i]) ensures StaysBelow(base + globs[i], n) {
      CollapseFailsIff(base + globs[i]);
      LowestIsLowest(base, globs, i);
      KeptIsLowest(base + globs[i]);
      KeptStaysBelow(base + globs[i], Kept(Collapse(base + globs[i]).value), n);
    }
    if n < |base| {
      var i := LowestIsReached(base, globs);
      CollapseFailsIff(base + globs[i]);
      KeptIsLowest(base + globs[i]);
      assert Survives(base + globs[i]) && Reaches(base + globs[i], n);
    }
  }

  // Paths as strings

  function TrimStart(path: string): string {
    if path != "" && path[0] == '/' then TrimStart(path[1..]) else path
  }

  function TrimEnd(path: string): string {
    if path != "" && path[|path| - 1] == '/' then TrimEnd(path[..|path| - 1]) else path
  }

  function Segments(path: string): seq<string> {
    PackagePaths.Split(TrimStart(path))
  }

  predicate IsRoot(path: string) {
    path != "" && path[0] == '/'
  }

  function Join(segments: seq<string>): string {
    if segments == [] then ""
    else if |segments| == 1 then segments[0]
    else segments[0] + "/" + Join(segments[1..])
  }

  predicate NoSlash(segment: string) {
    forall i :: 0 <= i < |segment| ==> segment[i] != '/'
  }

  predicate NoSlashes(segments: seq<string>) {
    forall i :: 0 <= i < |segments| ==> NoSlash(segments[i])
  }

  lemma {:induction false} SplitOne(segment: string)
    requires NoSlash(segment)
    ensures PackagePaths.Split(segment) == [segment]
  {
    if segment != "" {
      SplitOne(segment[1..]);
      assert [segment[0]] + segment[1..] == segment;
    }
  }

  lemma {:induction false} SplitJoin(segments: seq<string>)
    requires segments != [] && NoSlashes(segments)
    ensures PackagePaths.Split(Join(segments)) == segments
  {
    SplitOne(segments[0]);
    if |segments| > 1 {
      SplitJoin(segments[1..]);
      PackagePaths.SplitAppend(segments[0], Join(segments[1..]));
      assert [segments[0]] + segments[1..] == segments;
    }
  }

  lemma {:induction false} SplitHasNoSlashes(path: string)
    ensures NoSlashes(PackagePaths.Split(path))
  {
    if path != "" { SplitHasNoSlashes(path[1..]); }
  }

  /** What `collapse_path` writes for a changed path. */
  function Written(root: bool, stack: seq<string>): string {
    if root then Join([""] + stack) else Join(stack)
  }

  lemma WrittenRoot(stack: seq<string>)
    ensures Written(true, stack) == if stack == [] then "" else "/" + Join(stack)
  {
    assert ([""] + stack)[1..] == stack;
  }

  /** The stack can be told from the text: it is not empty, and no empty segment has come to its front. */
  predicate Readable(stack: seq<string>) {
    stack != [] && (stack[0] != "" || |stack| == 1)
  }

  lemma TrimOne(path: string)
    requires path == "" || path[0] != '/'
    ensures Segments(path) == PackagePaths.Split(path) == Segments("/" + path)
  {
    assert ("/" + path)[1..] == path;
  }

  /** A changed path reads as a path of the same kind with the collapsed segments, exactly for readable stacks. */
  lemma WrittenReadsIff(root: bool, stack: seq<string>)
    requires NoSlashes(stack)
    ensures IsRoot(Written(root, stack)) == root && Segments(Written(root, stack)) == stack <==> Readable(stack)
  {
    var text := Written(root, stack);
    if root { WrittenRoot(stack); }
    if stack != [] {
      SplitJoin(stack);
      assert NoSlash(stack[0]);
      if stack[0] != "" {
        assert Join(stack)[0] == stack[0][0];
        TrimOne(Join(stack));
      } else if |stack| > 1 {
        assert Join(stack)[0] == '/';
        if root { TrimMore(Join(stack)); }
      } else {
        TrimOne("");
      }
    }
  }

  lemma TrimMore(path: string)
    requires path != "" && path[0] == '/'
    ensures Segments("/" + path) == Segments(path) && |Segments(path)| < |PackagePaths.Split(path)|
  {
    assert ("/" + path)[1..] == path;
    TrimShortens(path[1..]);
  }

  lemma {:induction false} TrimShortens(path: string)
    ensures |Segments(path)| <= |PackagePaths.Split(path)|
  {
    if path != "" && path[0] == '/' { TrimShortens(path[1..]); }
  }

  lemma {:induction false} StackHoldsSegments(segments: seq<string>)
    requires Collapse(segments).Some? && NoSlashes(segments)
    ensures NoSlashes(Collapse(segments).value.stack)
  {
    if segments != [] { StackHoldsSegments(segments[..|segments| - 1]); }
  }

  /** How many segments have been walked when the walk is at its start for the last time. */
  function LastFloor(segments: seq<string>): (k: nat)
    ensures k <= |segments| && Net(segments[..k]) == 0
    ensures forall j :: k < j <= |segments| ==> Net(segments[..j]) != 0
  {
    assert segments[..|segments|] == segments;
    if segments == [] || Net(segments) == 0 then |segments|
    else
      var front := segments[..|segments| - 1];
      assert forall j :: 0 <= j <= |front| ==> segments[..j] == front[..j];
      LastFloor(front)
  }

  /** The segment after that is the one at the front of the collapsed path. */
  lemma {:induction false} FrontIsAfterLastFloor(segments: seq<string>)
    requires Collapse(segments).Some? && Net(segments) > 0
    ensures |Collapse(segments).value.stack| == Net(segments)
    ensures LastFloor(segments) < |segments| && Collapse(segments).value.stack[0] == segments[LastFloor(segments)]
  {
    CollapseIsFaithful(segments);
    var front, last := segments[..|segments| - 1], segments[|segments| - 1];
    CollapseIsFaithful(front);
    assert Net(segments) == Net(front) + if last == UP then -1 else if last == HERE then 0 else 1;
    assert LastFloor(segments) == LastFloor(front);
    if Net(front) > 0 {
      FrontIsAfterLastFloor(front);
      assert Collapse(segments).value.stack[0] == Collapse(front).value.stack[0];
    } else {
      assert LastFloor(front) == |front| && Collapse(front).value.stack == [];
    }
  }

  /** The walk ends below its start, and what it goes into from there for the last time has a name, unless it is all. */
  predicate ReadsBack(segments: seq<string>) {
    Net(segments) > 0 && (Net(segments) == 1 || (LastFloor(segments) < |segments|
        && segments[LastFloor(segments)] != ""))
  }

  /** The text that comes out of `collapse_path`: a path without dots comes out as it is. */
  function CollapsedText(path: string): string
    requires Collapse(Segments(path)).Some?
  {
    if NoDots(Segments(path)) then path else Written(IsRoot(path), Collapse(Segments(path)).value.stack)
  }

  /**
   For every path that does not climb out, the result reads as a path of the same kind with the collapsed segments,
   exactly if there was nothing to collapse or the walk ends below its start, inside something with a name.
   */
  lemma CollapsedReadsIff(path: string)
    requires Collapse(Segments(path)).Some?
    ensures
      var text := CollapsedText(path);
      IsRoot(text) == IsRoot(path) && Segments(text) == Collapse(Segments(path)).value.stack
      <==> NoDots(Segments(path)) || ReadsBack(Segments(path))
  {
    var segments := Segments(path);
    var stack := Collapse(segments).value.stack;
    CollapseIsFaithful(segments);
    if !NoDots(segments) {
      SplitHasNoSlashes(TrimStart(path));
      StackHoldsSegments(segments);
      WrittenReadsIff(IsRoot(path), stack);
      if Net(segments) > 0 { FrontIsAfterLastFloor(segments); }
    }
  }

  lemma TwoSegments(a: string, b: string)
    requires NoSlash(a) && NoSlash(b)
    ensures PackagePaths.Split(a + "/" + b) == [a, b]
  {
    SplitOne(a);
    SplitOne(b);
    PackagePaths.SplitAppend(a, b);
  }

  lemma ExampleSegments()
    ensures Segments("/a/..") == ["a", UP]
    ensures Segments("a/..//b") == ["a", UP, "", "b"]
  {
    var first, second := "a" + "/" + UP, "" + "/" + "b";
    assert "/a/.." == "/" + first;
    TwoSegments("a", UP);
    TwoSegments("", "b");
    TrimOne(first);
    LongExample(first, second);
  }

  lemma LongExample(first: string, second: string)
    requires first == "a/.." && second == "/b"
    requires PackagePaths.Split(first) == ["a", UP] && PackagePaths.Split(second) == ["", "b"]
    ensures Segments("a/..//b") == ["a", UP, "", "b"]
  {
    var path := "a/..//b";
    assert path == first + "/" + second && path[0] == 'a';
    TrimOne(path);
    PackagePaths.SplitAppend(first, second);
    assert ["a", UP] + ["", "b"] == ["a", UP, "", "b"];
  }

  /** "/a/.." comes out as "", which is not absolute any more, and "a/..//b" as "/b", which is. */
  lemma UnreadableExamples()
    ensures Collapse(Segments("/a/..")).Some? && CollapsedText("/a/..") == ""
    ensures Collapse(Segments("a/..//b")).Some? && CollapsedText("a/..//b") == "/b"
  {
    ExampleSegments();
    CollapsedExamples();
    assert IsDot(["a", UP][1]) && IsDot(["a", UP, "", "b"][1]);
    assert IsRoot("/a/..") && !IsRoot("a/..//b");
  }

  lemma CollapsedExamples()
    ensures Collapse(["a", UP]) == Some(Collapsed([], Some(0), true)) && Written(true, []) == ""
    ensures Collapse(["a", UP, "", "b"]) == Some(Collapsed(["", "b"], Some(0), true))
        && Written(false, ["", "b"]) == "/b"
  {
    CollapseIsIdempotent(["a"]);
    assert ["a", UP][..1] == ["a"];
    assert ["a", UP, ""][..2] == ["a", UP] && ["a", UP, "", "b"][..3] == ["a", UP, ""];
    var none: seq<string> := [];
    assert none + [""] == [""] && [""] + ["b"] == ["", "b"];
    assert !IsDot("") && "b"[0] != HERE[0] && !IsDot("b");
    assert Collapse(["a", UP]) == Some(Collapsed([], Some(0), true));
    assert Collapse(["a", UP, ""]) == Some(Collapsed([""], Some(0), true));
    assert ["", "b"][1..] == ["b"] && [""] + [] == [""];
  }

  /** The loop of `collapse_path` over the segments. */
  method CollapseSegments(segments: seq<string>) returns (r: Option<Collapsed>)
    ensures r == Collapse(segments)
  {
    var stack: seq<string>, changed, lowest: Option<nat> := [], false, None;
    for i := 0 to |segments|
      invariant Collapse(segments[..i]) == Some(Collapsed(stack, lowest, changed))
    {
      assert segments[..i + 1][..i] == segments[..i] && segments[..i + 1][i] == segments[i];
      match KindOf(segments[i]) {
        case Up =>
          if stack == [] {
            StaysFailed(segments, i + 1);
            return None;
          }
          stack := stack[..|stack| - 1];
          if lowest.None? { lowest := Some(|stack|); }
          changed := true;
        case Here =>
          if lowest.None? { lowest := Some(|stack|); }
          changed := true;
        case Name => stack := stack + [segments[i]];
      }
      if lowest.Some? { lowest := Some(Min(lowest.value, |stack|)); }
    }
    assert segments[..|segments|] == segments;
    r := Some(Collapsed(stack, lowest, changed));
  }

  /** `collapse_path` */
  method CollapseText(path: string) returns (r: Option<(string, nat)>)
    ensures r.None? <==> Collapse(Segments(path)).None?
    ensures r.None? <==> exists k :: ClimbsOut(Segments(path), k)
    ensures r.Some? ==> r.value == (CollapsedText(path), Kept(Collapse(Segments(path)).value))
  {
    var segments := Segments(path);
    CollapseFailsIff(segments);
    var collapsed := CollapseSegments(segments);
    if collapsed.None? { return None; }
    CollapseIsFaithful(segments);
    var c := collapsed.value;
    var kept := if c.lowest.Some? then c.lowest.value else |c.stack|;
    if !c.changed { return Some((path, kept)); }
    var text := if IsRoot(path) then Join([""] + c.stack) else Join(c.stack);
    r := Some((text, kept));
  }

  lemma {:induction false} StaysFailed(segments: seq<string>, k: nat)
    requires k <= |segments| && Collapse(segments[..k]).None?
    ensures Collapse(segments).None?
    decreases |segments|
  {
    if k == |segments| {
      assert segments[..k] == segments;
    } else {
      assert segments[..|segments| - 1][..k] == segments[..k];
      StaysFailed(segments[..|segments| - 1], k);
    }
  }

  // Base path and globs as strings

  function JoinUnix(a: string, b: string): string {
    TrimEnd(a) + "/" + TrimStart(b)
  }

  /** Components of a clean absolute path: none is empty, a dot or holds a slash. */
  predicate IsClean(base: seq<string>) {
    NoSlashes(base) && NoDots(base) && forall i :: 0 <= i < |base| ==> base[i] != ""
  }

  lemma {:induction false} JoinEnds(base: seq<string>)
    requires base != [] && IsClean(base)
    ensures var text := Join(base); text != "" && text[0] != '/' && text[|text| - 1] != '/'
  {
    assert NoSlash(base[0]);
    if |base| > 1 { JoinEnds(base[1..]); }
  }

  lemma JoinedText(b: string, glob: string)
    requires b != "" && b[0] != '/' && b[|b| - 1] != '/'
    ensures JoinUnix("/" + b, glob) == "/" + (b + "/" + TrimStart(glob))
  {
    var text := "/" + b;
    assert text[|text| - 1] == b[|b| - 1];
    assert TrimEnd(text) == text;
    assert text + "/" + TrimStart(glob) == "/" + (b + "/" + TrimStart(glob));
  }

  lemma BelowSegments(b: string, rest: string)
    requires b != "" && b[0] != '/'
    ensures Segments("/" + (b + "/" + rest)) == PackagePaths.Split(b) + PackagePaths.Split(rest)
  {
    TrimOne(b + "/" + rest);
    PackagePaths.SplitAppend(b, rest);
  }

  lemma JoinedToRoot(glob: string)
    ensures JoinUnix("/", glob) == "/" + TrimStart(glob) && Segments("/" + TrimStart(glob)) == Segments(glob)
  {
    assert "/"[..0] == "" && TrimEnd("/") == "";
    TrimmedStart(glob);
    TrimOne(TrimStart(glob));
  }

  /** Below a clean base path, the segments of the joined path are those of the base and of the glob. */
  lemma JoinedSegments(base: seq<string>, glob: string)
    requires IsClean(base)
    ensures Segments(JoinUnix("/" + Join(base), glob)) == base + Segments(glob)
    ensures IsRoot(JoinUnix("/" + Join(base), glob))
  {
    if base == [] {
      JoinedToRoot(glob);
      assert "/" + Join(base) == "/" && base + Segments(glob) == Segments(glob);
    } else {
      JoinEnds(base);
      SplitJoin(base);
      JoinedBelow(Join(base), glob);
    }
  }

  lemma JoinedBelow(b: string, glob: string)
    requires b != "" && b[0] != '/' && b[|b| - 1] != '/'
    ensures Segments(JoinUnix("/" + b, glob)) == PackagePaths.Split(b) + Segments(glob)
    ensures IsRoot(JoinUnix("/" + b, glob))
  {
    JoinedText(b, glob);
    BelowSegments(b, TrimStart(glob));
  }

  lemma {:induction false} TrimmedStart(path: string)
    ensures var rest := TrimStart(path); rest == "" || rest[0] != '/'
  {
    if path != "" && path[0] == '/' { TrimmedStart(path[1..]); }
  }

  function AllSegments(globs: seq<string>): seq<seq<string>> {
    seq(|globs|, i requires 0 <= i < |globs| => Segments(globs[i]))
  }

  /** What a glob becomes below the base. */
  function IncludeText(base: seq<string>, glob: string): string
    requires Collapse(base + Segments(glob)).Some?
  {
    if NoDots(base + Segments(glob)) then JoinUnix("/" + Join(base), glob)
    else Written(true, Collapse(base + Segments(glob)).value.stack)
  }

  /** The globs that do not climb out of the root, joined and collapsed, in order. */
  function Includes(base: seq<string>, globs: seq<string>): seq<string> {
    if globs == [] then [] else
    var before, glob := Includes(base, globs[..|globs| - 1]), globs[|globs| - 1];
    if Collapse(base + Segments(glob)).None? then before else before + [IncludeText(base, glob)]
  }

  method PreprocessInclude(base: seq<string>, glob: string) returns (r: Option<(string, nat)>)
    requires IsClean(base)
    ensures r.None? <==> Collapse(base + Segments(glob)).None?
    ensures r.Some? ==> r.value == (IncludeText(base, glob), Kept(Collapse(base + Segments(glob)).value))
  {
    JoinedSegments(base, glob);
    r := CollapseText(JoinUnix("/" + Join(base), glob));
  }

  /**
   The include half of the preprocessing: join each glob to the base, collapse it, drop the ones that climb
   out of the root, and cut the base down to what all of them share.
   */
  method PreprocessIncludes(base: seq<string>, globs: seq<string>) returns (walk: seq<string>, paths: seq<string>)
    requires IsClean(base)
    ensures walk == WalkBase(base, AllSegments(globs)) && paths == Includes(base, globs)
  {
    paths := [];
    var lowest: Option<nat> := None;
    for i := 0 to |globs|
      invariant paths == Includes(base, globs[..i])
      invariant lowest == LowestOf(base, AllSegments(globs[..i]))
    {
      assert globs[..i + 1][..i] == globs[..i];
      assert AllSegments(globs[..i + 1])[..i] == AllSegments(globs[..i]);
      var collapsed := PreprocessInclude(base, globs[i]);
      if collapsed.Some? {
        lowest := Some(if lowest.Some? then Min(lowest.value, collapsed.value.1) else collapsed.value.1);
        paths := paths + [collapsed.value.0];
      }
    }
    assert globs[..|globs|] == globs;
    walk := if lowest.Some? then base[..Min(lowest.value, |base|)] else base;
  }

  // The includes that are left

  /** How many of the globs stay below the root. */
  ghost function Survivors(base: seq<string>, globs: seq<string>): nat {
    if globs == [] then 0
    else Survivors(base, globs[..|globs| - 1]) + if Survives(base + Segments(globs[|globs| - 1])) then 1 else 0
  }

  /**
   Below the base, the text of a surviving glob reads as an absolute path to where the glob leads, exactly if there
   was nothing to collapse or the walk along it ends inside something with a name.
   */
  lemma IncludeLeads(base: seq<string>, glob: string)
    requires IsClean(base) && Survives(base + Segments(glob))
    ensures
      var segments := base + Segments(glob);
      && Collapse(segments).Some?
      && var text, place := IncludeText(base, glob), Place([], segments);
         && place.Some?
         && (IsRoot(text) && Segments(text) == place.value <==> NoDots(segments) || ReadsBack(segments))
  {
    var segments := base + Segments(glob);
    CollapseFailsIff(segments);
    JoinedSegments(base, glob);
    CollapsedReadsIff(JoinUnix("/" + Join(base), glob));
    CollapseKeepsPlace(segments, []);
  }

  lemma {:induction false} IncludesAre(base: seq<string>, globs: seq<string>, i: nat)
    requires i < |globs|
    ensures |Includes(base, globs)| == Survivors(base, globs)
    ensures Survives(base + Segments(globs[i])) ==>
      && Collapse(base + Segments(globs[i])).Some? && Survivors(base, globs[..i]) < |Includes(base, globs)|
      && Includes(base, globs)[Survivors(base, globs[..i])] == IncludeText(base, globs[i])
    decreases |globs|
  {
    var front, last := globs[..|globs| - 1], globs[|globs| - 1];
    CollapseFailsIff(base + Segments(last));
    if front != [] { IncludesAre(base, front, if i < |front| then i else 0); }
    if i < |front| { assert front[..i] == globs[..i]; }
  }
}
