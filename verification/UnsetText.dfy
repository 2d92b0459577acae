/**
 Removing every occurrence of a path from a JSONC document: which ranges are cut out of the text, how
 overlapping ranges are clipped while they are cut back to front, and what text that leaves.
 */
module UnsetText {
  import opened Basics
  import opened Jsonc

  function Lower(c: char): char {
    if 'A' <= c <= 'Z' then c - 'A' + 'a' else c
  }

  predicate SameIgnoringCase(a: string, b: string) {
    |a| == |b| && forall i :: 0 <= i < |a| ==> Lower(a[i]) == Lower(b[i])
  }

  predicate NameMatches(caseSensitive: bool, target: string, name: string) {
    if caseSensitive then target == name else SameIgnoringCase(target, name)
  }

  /** `a` is a capital ASCII letter and `b` the small one. */
  predicate IsCapitalOf(a: char, b: char) {
    'A' <= a <= 'Z' && b as int == a as int + 32
  }

  /** The name is the wanted one: the very same, or the same but for the case of ASCII letters. */
  predicate Named(cs: bool, name: string, wanted: string) {
    if cs then name == wanted
    else |name| == |wanted| && forall i :: 0 <= i < |name| ==>
        name[i] == wanted[i] || IsCapitalOf(name[i], wanted[i]) || IsCapitalOf(wanted[i], name[i])
  }

  lemma NamedIff(cs: bool, wanted: string, name: string)
    ensures NameMatches(cs, wanted, name) <==> Named(cs, name, wanted)
  {
    if !cs && |name| == |wanted| {
      forall i | 0 <= i < |name|
        ensures Lower(wanted[i]) == Lower(name[i])
           <==> name[i] == wanted[i] || IsCapitalOf(name[i], wanted[i]) || IsCapitalOf(wanted[i], name[i])
      {
        SameLower(wanted[i], name[i]);
      }
    }
  }

  lemma SameLower(a: char, b: char)
    ensures Lower(a) == Lower(b) <==> a == b || IsCapitalOf(a, b) || IsCapitalOf(b, a)
  {
  }

  /** Member `k` has the name the path asks for next. */
  predicate Hit(cs: bool, v: Value, path: seq<string>, k: nat): (r: bool)
    requires v.Object? && path != [] && k < |v.members|
    ensures r <==> Named(cs, v.members[k].name, path[0])
  {
    NamedIff(cs, path[0], v.members[k].name);
    NameMatches(cs, path[0], v.members[k].name)
  }

  datatype Range = Range(start: nat, end: nat, replacement: string)

  /** Where the core of member `k` starts and ends in an object that starts at `at`. */
  function CoreStart(v: Value, at: nat, k: nat): nat
    requires v.Object? && k < |v.members|
  {
    at + 1 + |Commaed(v.members[..k])| + |v.members[k].lead|
  }

  function CoreEnd(v: Value, at: nat, k: nat): nat
    requires v.Object? && k < |v.members|
  {
    CoreStart(v, at, k) + |PrintCore(v.members[k])|
  }

  /** From the end of the previous member to the start of the next, so that a comma goes too. */
  function RangeOf(v: Value, at: nat, k: nat): Range
    requires v.Object? && k < |v.members|
  {
    var last := k + 1 == |v.members|;
    Range(if k == 0 then CoreStart(v, at, k) else CoreEnd(v, at, k - 1),
          if last then CoreEnd(v, at, k) else CoreStart(v, at, k + 1),
          if k == 0 || last then "" else ",")
  }

  function MemberRanges(cs: bool, v: Value, at: nat, path: seq<string>, k: nat): seq<Range>
    requires v.Object? && path != [] && k < |v.members|
    decreases |path|, 0
  {
    if !Hit(cs, v, path, k) then []
    else if |path| == 1 then [RangeOf(v, at, k)]
    else Ranges(cs, v.members[k].value, at + |FrontOf(v, k)|, path[1..])
  }

  function RangesFrom(cs: bool, v: Value, at: nat, path: seq<string>, k: nat): seq<Range>
    requires v.Object? && path != [] && k <= |v.members|
    decreases |path|, 1, |v.members| - k
  {
    if k == |v.members| then [] else MemberRanges(cs, v, at, path, k) + RangesFrom(cs, v, at, path, k + 1)
  }

  /** All ranges to cut out of a value that starts at `at`, in document order. */
  function Ranges(cs: bool, v: Value, at: nat, path: seq<string>): seq<Range>
    decreases |path|, 2
  {
    if path == [] || v.Leaf? then [] else RangesFrom(cs, v, at, path, 0)
  }

  /** What one member with the right name contributes: its own range, or what is found further down. */
  method FindInMember(cs: bool, v: Value, at: nat, path: seq<string>, k: nat) returns (ranges: seq<Range>)
    requires v.Object? && path != [] && k < |v.members|
    ensures ranges == MemberRanges(cs, v, at, path, k)
    decreases |path|, 0
  {
    if !NameMatches(cs, path[0], v.members[k].name) { return []; }
    if |path| == 1 {
      var start := if k > 0 then CoreEnd(v, at, k - 1) else CoreStart(v, at, k);
      var end := if k + 1 < |v.members| then CoreStart(v, at, k + 1) else CoreEnd(v, at, k);
      var replacement := if k == 0 || k + 1 == |v.members| then "" else ",";
      return [Range(start, end, replacement)];
    }
    ranges := FindAllPaths(cs, v.members[k].value, at + |FrontOf(v, k)|, path[1..]);
  }

  /** `find_all_paths` walks the members with the previous and the next one at hand. */
  method FindAllPaths(cs: bool, v: Value, at: nat, path: seq<string>) returns (ranges: seq<Range>)
    ensures ranges == Ranges(cs, v, at, path)
    decreases |path|, 1
  {
    ranges := [];
    if path == [] || v.Leaf? { return; }
    for k := 0 to |v.members|
      invariant ranges + RangesFrom(cs, v, at, path, k) == RangesFrom(cs, v, at, path, 0)
    {
      var more := FindInMember(cs, v, at, path, k);
      ghost var rest := RangesFrom(cs, v, at, path, k + 1);
      assert (ranges + more) + rest == ranges + (more + rest);
      ranges := ranges + more;
    }
  }

  // Cutting back to front

  /** The text so far, and the start of the range that was cut last. */
  datatype Buffer = Buffer(text: string, last: Option<nat>)

  /** Clip the range to what has not been cut yet; a clipped range leaves no comma behind. */
  function CutOne(b: Buffer, r: Range): Option<Buffer> {
    var end := if b.last.Some? && r.end > b.last.value then b.last.value else r.end;
    var replacement := if end != r.end then "" else r.replacement;
    if r.start <= end <= |b.text| then Some(Buffer(Splice(b.text, r.start, end, replacement), Some(r.start))) else None
  }

  function CutAll(b: Buffer, ranges: seq<Range>): Option<Buffer>
    decreases |ranges|
  {
    if ranges == [] then Some(b)
    else
      match CutOne(b, ranges[|ranges| - 1])
      case None => None
      case Some(b') => CutAll(b', ranges[..|ranges| - 1])
  }

  lemma {:induction false} CutAppend(b: Buffer, first: seq<Range>, second: seq<Range>)
    ensures CutAll(b, first + second) == match CutAll(b, second) case None => None case Some(b') => CutAll(b', first)
    decreases |second|
  {
    if second == [] {
      assert first + second == first;
    } else {
      var all := first + second;
      assert all[|all| - 1] == second[|second| - 1];
      assert all[..|all| - 1] == first + second[..|second| - 1];
      var one := CutOne(b, second[|second| - 1]);
      if one.Some? { CutAppend(one.value, first, second[..|second| - 1]); }
    }
  }

  // What is left

  function NewCore(cs: bool, v: Value, path: seq<string>, k: nat): string
    requires v.Object? && path != [] && k < |v.members|
    decreases |path|, 0
  {
    var m := v.members[k];
    m.key + m.sep + if |path| > 1 && Hit(cs, v, path, k) then Left(cs, m.value, path[1..]) else Print(m.value)
  }

  predicate Goes(cs: bool, v: Value, path: seq<string>, k: nat)
    requires v.Object? && path != [] && k < |v.members|
  {
    |path| == 1 && Hit(cs, v, path, k)
  }

  /** What follows the core of member `k - 1` once the members from `k` on have been treated. */
  function Rest(cs: bool, v: Value, path: seq<string>, k: nat): string
    requires v.Object? && path != [] && 0 < k <= |v.members|
    decreases |path|, 1, |v.members| - k
  {
    if k == |v.members| then v.members[k - 1].trail + Ending(v)
    else if !Goes(cs, v, path, k) then
      v.members[k - 1].trail + "," + v.members[k].lead + NewCore(cs, v, path, k) + Rest(cs, v, path, k + 1)
    else if k + 1 < |v.members| && !Goes(cs, v, path, k + 1) then
      "," + NewCore(cs, v, path, k + 1) + Rest(cs, v, path, k + 2)
    else Rest(cs, v, path, k + 1)
  }

  /** The text that cutting all ranges of a value leaves of it. */
  function Left(cs: bool, v: Value, path: seq<string>): string
    decreases |path|, 2
  {
    if path == [] || v.Leaf? || v.members == [] then Print(v)
    else if !Goes(cs, v, path, 0) then
      "{" + v.members[0].lead + NewCore(cs, v, path, 0) + Rest(cs, v, path, 1)
    else if 1 < |v.members| && !Goes(cs, v, path, 1) then
      "{" + v.members[0].lead + NewCore(cs, v, path, 1) + Rest(cs, v, path, 2)
    else "{" + v.members[0].lead + Rest(cs, v, path, 1)
  }

  // Cutting the ranges leaves exactly that

  /** The object's text up to the end of the core of member `k`. */
  function UpTo(v: Value, k: nat): string
    requires v.Object? && k < |v.members|
  {
    FrontOf(v, k) + Print(v.members[k].value)
  }

  lemma UpToFirst(v: Value)
    requires v.Object? && v.members != []
    ensures UpTo(v, 0) == "{" + v.members[0].lead + PrintCore(v.members[0])
    ensures CoreStart(v, 0, 0) == |"{" + v.members[0].lead| && CoreEnd(v, 0, 0) == |UpTo(v, 0)|
  {
    assert v.members[..0] == [];
    var m := v.members[0];
    FirstStrings(m.lead, m.key, m.sep, Print(m.value));
  }

  lemma FirstStrings(l: string, k: string, s: string, v: string)
    ensures "{" + "" + l + k + s + v == "{" + l + (k + s + v)
  {
  }

  lemma UpToNext(v: Value, k: nat)
    requires v.Object? && 0 < k < |v.members|
    ensures UpTo(v, k) == UpTo(v, k - 1) + (v.members[k - 1].trail + "," + v.members[k].lead) + PrintCore(v.members[k])
  {
    assert v.members[..k][..k - 1] == v.members[..k - 1] && v.members[..k][k - 1] == v.members[k - 1];
    assert Commaed(v.members[..k]) == Commaed(v.members[..k - 1]) + PrintMember(v.members[k - 1]) + ",";
    var a, m := v.members[k - 1], v.members[k];
    NextStrings(Commaed(v.members[..k - 1]), a.lead, a.key, a.sep, Print(a.value), a.trail, m.lead, m.key, m.sep,
        Print(m.value));
  }

  lemma NextStrings(c: string, l0: string, k0: string, s0: string, v0: string, t0: string, l: string, k: string,
      s: string, v: string)
    ensures "{" + (c + (l0 + (k0 + s0 + v0) + t0) + ",") + l + k + s + v
         == ("{" + c + l0 + k0 + s0 + v0) + (t0 + "," + l) + (k + s + v)
  {
  }

  lemma Positions(v: Value, at: nat, k: nat)
    requires v.Object? && k < |v.members|
    ensures CoreEnd(v, at, k) == at + |UpTo(v, k)|
    ensures CoreStart(v, at, k) == at + |UpTo(v, k)| - |PrintCore(v.members[k])|
  {
  }

  /** The buffer after the members from `k` on have been treated. */
  function Treated(cs: bool, a: string, v: Value, b: string, path: seq<string>, k: nat): string
    requires v.Object? && path != [] && 0 < k <= |v.members|
  {
    a + UpTo(v, k - 1) + (Rest(cs, v, path, k) + b)
  }

  /** What the last cut may have been by then. */
  predicate LastOk(cs: bool, a: string, v: Value, path: seq<string>, k: nat, last: Option<nat>)
    requires v.Object? && path != [] && 0 < k <= |v.members|
  {
    && (last.Some? ==> last.value >= |a + UpTo(v, k - 1)|)
    && (k < |v.members| && Goes(cs, v, path, k) ==> last == Some(|a + UpTo(v, k - 1)|))
    && (k < |v.members| && |path| == 1 && !Goes(cs, v, path, k) && last.Some? ==> last.value >= |a + UpTo(v, k)|)
  }

  lemma CutSpan(p: string, m: string, q: string, last: Option<nat>, r: Range)
    requires r.start == |p| && r.end >= |p| + |m|
    requires r.end == |p| + |m| ==> last.None? || last.value >= r.end
    requires r.end > |p| + |m| ==> last == Some(|p| + |m|)
    ensures CutOne(Buffer(p + m + q, last), r)
         == Some(Buffer(p + (if r.end == |p| + |m| then r.replacement else "") + q, Some(|p|)))
  {
    SpliceMiddle(p, m, q, if r.end == |p| + |m| then r.replacement else "");
  }

  /** Cutting one range, given what the buffer looks like. */
  lemma CutSingle(b: Buffer, r: Range)
    ensures CutAll(b, [r]) == CutOne(b, r)
  {
    assert [r][..0] == [];
  }

  /** Nothing is cut at member `k`: the text is as it was, read from one member earlier. */
  lemma StayStep(cs: bool, a: string, v: Value, b: string, path: seq<string>, k: nat)
    requires v.Object? && path != [] && 0 < k < |v.members| && !Goes(cs, v, path, k)
    requires NewCore(cs, v, path, k) == PrintCore(v.members[k])
    ensures Treated(cs, a, v, b, path, k) == Treated(cs, a, v, b, path, k + 1)
  {
    UpToNext(v, k);
    StayStrings(a, UpTo(v, k - 1), v.members[k - 1].trail, v.members[k].lead, PrintCore(v.members[k]),
        Rest(cs, v, path, k + 1), b);
  }

  lemma StayStrings(a: string, u: string, t: string, l: string, c: string, r: string, b: string)
    ensures a + u + ((t + "," + l + c + r) + b) == a + (u + (t + "," + l) + c) + (r + b)
  {
  }

  /** Member `k` goes and the next one stays: what is between them goes too, and a comma is put back. */
  lemma CutBeforeKept(cs: bool, a: string, v: Value, b: string, path: seq<string>, k: nat, last: Option<nat>)
    requires v.Object? && path != [] && 0 < k < |v.members| - 1
    requires Goes(cs, v, path, k) && !Goes(cs, v, path, k + 1) && LastOk(cs, a, v, path, k + 1, last)
    ensures CutOne(Buffer(Treated(cs, a, v, b, path, k + 1), last), RangeOf(v, |a|, k))
         == Some(Buffer(Treated(cs, a, v, b, path, k), Some(|a + UpTo(v, k - 1)|)))
  {
    var p := a + UpTo(v, k - 1);
    var m := v.members[k - 1].trail + "," + v.members[k].lead + PrintCore(v.members[k])
             + (v.members[k].trail + "," + v.members[k + 1].lead);
    var q := NewCore(cs, v, path, k + 1) + Rest(cs, v, path, k + 2) + b;
    UpToNext(v, k);
    UpToNext(v, k + 1);
    Positions(v, |a|, k - 1);
    Positions(v, |a|, k + 1);
    BeforeKeptStrings(a, UpTo(v, k - 1), v.members[k - 1].trail + "," + v.members[k].lead, PrintCore(v.members[k]),
                      v.members[k].trail, v.members[k + 1].lead, NewCore(cs, v, path, k + 1), Rest(cs, v, path, k + 2),
                          b);
    assert Treated(cs, a, v, b, path, k + 1) == p + m + q;
    assert Treated(cs, a, v, b, path, k) == p + "," + q;
    CutSpan(p, m, q, last, RangeOf(v, |a|, k));
  }

  lemma BeforeKeptStrings(a: string, u: string, j: string, c: string, t: string, l: string, n: string, r: string,
      b: string)
    ensures a + (u + j + c) + ((t + "," + l + n + r) + b) == (a + u) + (j + c + (t + "," + l)) + (n + r + b)
    ensures a + u + (("," + n + r) + b) == (a + u) + "," + (n + r + b)
  {
  }

  /** Member `k` goes and so does the next one, or there is none: only up to its own end is left to cut. */
  lemma CutBeforeGone(cs: bool, a: string, v: Value, b: string, path: seq<string>, k: nat, last: Option<nat>)
    requires v.Object? && path != [] && 0 < k < |v.members|
    requires Goes(cs, v, path, k) && (k + 1 < |v.members| ==> Goes(cs, v, path, k + 1))
        && LastOk(cs, a, v, path, k + 1, last)
    ensures CutOne(Buffer(Treated(cs, a, v, b, path, k + 1), last), RangeOf(v, |a|, k))
         == Some(Buffer(Treated(cs, a, v, b, path, k), Some(|a + UpTo(v, k - 1)|)))
  {
    var p := a + UpTo(v, k - 1);
    var m := v.members[k - 1].trail + "," + v.members[k].lead + PrintCore(v.members[k]);
    var q := Rest(cs, v, path, k + 1) + b;
    UpToNext(v, k);
    Positions(v, |a|, k - 1);
    Positions(v, |a|, k);
    GoneStrings(a, UpTo(v, k - 1), v.members[k - 1].trail + "," + v.members[k].lead, PrintCore(v.members[k]), q);
    assert Treated(cs, a, v, b, path, k + 1) == p + m + q;
    assert Treated(cs, a, v, b, path, k) == p + "" + q;
    if k + 1 < |v.members| {
      UpToNext(v, k + 1);
      Positions(v, |a|, k + 1);
    }
    CutSpan(p, m, q, last, RangeOf(v, |a|, k));
  }

  lemma GoneStrings(a: string, u: string, j: string, c: string, q: string)
    ensures a + (u + j + c) + q == (a + u) + (j + c) + q
    ensures a + u + q == (a + u) + "" + q
  {
  }

  /** One member of an object whose members are removed, seen from the back. */
  lemma ShallowStep(cs: bool, a: string, v: Value, b: string, path: seq<string>, k: nat, last: Option<nat>)
      returns (last': Option<nat>)
    requires v.Object? && |path| == 1 && 0 < k < |v.members| && LastOk(cs, a, v, path, k + 1, last)
    ensures CutAll(Buffer(Treated(cs, a, v, b, path, k + 1), last), MemberRanges(cs, v, |a|, path, k))
         == Some(Buffer(Treated(cs, a, v, b, path, k), last'))
    ensures LastOk(cs, a, v, path, k, last')
  {
    if Goes(cs, v, path, k) {
      last' := Some(|a + UpTo(v, k - 1)|);
      if k + 1 < |v.members| && !Goes(cs, v, path, k + 1) {
        CutBeforeKept(cs, a, v, b, path, k, last);
      } else {
        CutBeforeGone(cs, a, v, b, path, k, last);
      }
      CutSingle(Buffer(Treated(cs, a, v, b, path, k + 1), last), RangeOf(v, |a|, k));
    } else {
      last' := last;
      StayStep(cs, a, v, b, path, k);
      UpToNext(v, k);
    }
  }

  lemma FrontNext(v: Value, k: nat)
    requires v.Object? && 0 < k < |v.members|
    ensures FrontOf(v, k)
         == UpTo(v, k - 1) + (v.members[k - 1].trail + "," + v.members[k].lead) + (v.members[k].key + v.members[k].sep)
  {
    assert v.members[..k][..k - 1] == v.members[..k - 1] && v.members[..k][k - 1] == v.members[k - 1];
    assert Commaed(v.members[..k]) == Commaed(v.members[..k - 1]) + PrintMember(v.members[k - 1]) + ",";
    var a, m := v.members[k - 1], v.members[k];
    FrontStrings(Commaed(v.members[..k - 1]), a.lead, a.key, a.sep, Print(a.value), a.trail, m.lead, m.key, m.sep);
  }

  lemma FrontStrings(c: string, l0: string, k0: string, s0: string, v0: string, t0: string, l: string, k: string,
      s: string)
    ensures "{" + (c + (l0 + (k0 + s0 + v0) + t0) + ",") + l + k + s
         == ("{" + c + l0 + k0 + s0 + v0) + (t0 + "," + l) + (k + s)
  {
  }

  lemma DeepStrings(a: string, u: string, t: string, l: string, ks: string, x: string, r: string, b: string)
    ensures (a + (u + (t + "," + l) + ks)) + x + (r + b) == a + u + ((t + "," + l + (ks + x) + r) + b)
  {
  }

  lemma AfterStrings(a: string, f: string, p: string, r: string, b: string)
    ensures a + (f + p) + (r + b) == (a + f) + p + (r + b) && |a + (f + p)| == |(a + f) + p|
  {
  }

  /** The buffer before and after treating the value of a member on the way. */
  lemma DeepText(cs: bool, a: string, v: Value, b: string, path: seq<string>, k: nat)
    requires v.Object? && |path| > 1 && 0 < k < |v.members| && Hit(cs, v, path, k)
    ensures Treated(cs, a, v, b, path, k + 1)
         == (a + FrontOf(v, k)) + Print(v.members[k].value) + (Rest(cs, v, path, k + 1) + b)
    ensures Treated(cs, a, v, b, path, k)
         == (a + FrontOf(v, k)) + Left(cs, v.members[k].value, path[1..]) + (Rest(cs, v, path, k + 1) + b)
    ensures |a + UpTo(v, k)| == |(a + FrontOf(v, k)) + Print(v.members[k].value)| && |FrontOf(v, k)| >= |UpTo(v, k - 1)|
  {
    var m := v.members[k];
    var left, rest := Left(cs, m.value, path[1..]), Rest(cs, v, path, k + 1);
    AfterStrings(a, FrontOf(v, k), Print(m.value), rest, b);
    FrontNext(v, k);
    assert NewCore(cs, v, path, k) == m.key + m.sep + left;
    DeepStrings(a, UpTo(v, k - 1), v.members[k - 1].trail, m.lead, m.key + m.sep, left, rest, b);
  }

  lemma LastWeakens(cs: bool, a: string, v: Value, path: seq<string>, k: nat, last: Option<nat>)
    requires v.Object? && |path| > 1 && 0 < k < |v.members| && LastOk(cs, a, v, path, k + 1, last)
    ensures LastOk(cs, a, v, path, k, last)
  {
    UpToNext(v, k);
  }

  /** One member on the way to the occurrences further down. */
  lemma {:induction false} DeepStep(cs: bool, a: string, v: Value, b: string, path: seq<string>, k: nat,
      last: Option<nat>) returns (last': Option<nat>)
    requires v.Object? && |path| > 1 && 0 < k < |v.members| && LastOk(cs, a, v, path, k + 1, last)
    ensures CutAll(Buffer(Treated(cs, a, v, b, path, k + 1), last), MemberRanges(cs, v, |a|, path, k))
         == Some(Buffer(Treated(cs, a, v, b, path, k), last'))
    ensures LastOk(cs, a, v, path, k, last')
    decreases |path|, 0
  {
    if Hit(cs, v, path, k) {
      var value, front, rest := v.members[k].value, a + FrontOf(v, k), Rest(cs, v, path, k + 1) + b;
      DeepText(cs, a, v, b, path, k);
      assert MemberRanges(cs, v, |a|, path, k) == Ranges(cs, value, |front|, path[1..]);
      last' := CutLeaves(cs, front, value, rest, path[1..], last);
    } else {
      last' := last;
      assert MemberRanges(cs, v, |a|, path, k) == [];
      StayStep(cs, a, v, b, path, k);
      LastWeakens(cs, a, v, path, k, last);
    }
  }

  /** Before anything has been treated. */
  lemma TreatedAtEnd(cs: bool, a: string, v: Value, b: string, path: seq<string>)
    requires v.Object? && path != [] && v.members != []
    ensures a + Print(v) + b == Treated(cs, a, v, b, path, |v.members|)
    ensures |a + UpTo(v, |v.members| - 1)| <= |a + Print(v)|
  {
    var k := |v.members|;
    ObjectAround(v, k - 1);
    assert CommaBefore(v.members[k..]) == "";
    EndStrings(a, UpTo(v, k - 1), v.members[k - 1].trail, Ending(v), b);
  }

  lemma {:induction false} CutFrom(cs: bool, a: string, v: Value, b: string, path: seq<string>, k: nat,
      last: Option<nat>) returns (last': Option<nat>)
    requires v.Object? && path != [] && 0 < k <= |v.members| && (last.Some? ==> last.value >= |a + Print(v)|)
    ensures CutAll(Buffer(a + Print(v) + b, last), RangesFrom(cs, v, |a|, path, k))
        == Some(Buffer(Treated(cs, a, v, b, path, k), last'))
    ensures LastOk(cs, a, v, path, k, last')
    decreases |path|, 1, |v.members| - k
  {
    if k == |v.members| {
      last' := last;
      TreatedAtEnd(cs, a, v, b, path);
    } else {
      var between := CutFrom(cs, a, v, b, path, k + 1, last);
      CutAppend(Buffer(a + Print(v) + b, last), MemberRanges(cs, v, |a|, path, k), RangesFrom(cs, v, |a|, path, k + 1));
      if |path| == 1 {
        last' := ShallowStep(cs, a, v, b, path, k, between);
      } else {
        last' := DeepStep(cs, a, v, b, path, k, between);
      }
    }
  }

  lemma EndStrings(a: string, u: string, t: string, e: string, b: string)
    ensures a + (u + (t + "" + e)) + b == a + u + ((t + e) + b)
  {
  }

  lemma FirstGoneStrings(a: string, l: string, c: string, q: string)
    ensures a + ("{" + l + c) + q == (a + "{" + l) + c + q
  {
  }

  /** The first member: there is nothing in front of it but the brace. */
  lemma {:induction false} FirstStep(cs: bool, a: string, v: Value, b: string, path: seq<string>, last: Option<nat>)
      returns (last': Option<nat>)
    requires v.Object? && path != [] && v.members != [] && LastOk(cs, a, v, path, 1, last)
    ensures CutAll(Buffer(Treated(cs, a, v, b, path, 1), last), MemberRanges(cs, v, |a|, path, 0))
         == Some(Buffer(a + Left(cs, v, path) + b, last'))
    ensures last'.Some? ==> last'.value >= |a|
    decreases |path|, 0
  {
    UpToFirst(v);
    var m := v.members[0];
    var rest := Rest(cs, v, path, 1) + b;
    if Goes(cs, v, path, 0) {
      last' := Some(|a + "{" + m.lead|);
      if 1 < |v.members| && !Goes(cs, v, path, 1) {
        FirstBeforeKept(cs, a, v, b, path, last);
      } else {
        FirstBeforeGone(cs, a, v, b, path, last);
      }
      CutSingle(Buffer(Treated(cs, a, v, b, path, 1), last), RangeOf(v, |a|, 0));
    } else if |path| > 1 && Hit(cs, v, path, 0) {
      var front := a + FrontOf(v, 0);
      assert a + UpTo(v, 0) == front + Print(m.value);
      last' := CutLeaves(cs, front, m.value, rest, path[1..], last);
      assert v.members[..0] == [];
      FirstDeepStrings(a, m.lead, m.key, m.sep, Left(cs, m.value, path[1..]), Rest(cs, v, path, 1), b);
    } else {
      last' := last;
      FirstStayStrings(a, m.lead, PrintCore(m), Rest(cs, v, path, 1), b);
    }
  }

  lemma FirstDeepStrings(a: string, l: string, k: string, s: string, x: string, r: string, b: string)
    ensures (a + ("{" + "" + l + k + s)) + x + (r + b) == a + ("{" + l + (k + s + x) + r) + b
  {
  }

  lemma FirstStayStrings(a: string, l: string, c: string, r: string, b: string)
    ensures a + ("{" + l + c) + (r + b) == a + ("{" + l + c + r) + b
  {
  }

  lemma FirstBeforeKept(cs: bool, a: string, v: Value, b: string, path: seq<string>, last: Option<nat>)
    requires v.Object? && path != [] && 1 < |v.members|
    requires Goes(cs, v, path, 0) && !Goes(cs, v, path, 1) && LastOk(cs, a, v, path, 1, last)
    ensures CutOne(Buffer(Treated(cs, a, v, b, path, 1), last), RangeOf(v, |a|, 0))
         == Some(Buffer(a + Left(cs, v, path) + b, Some(|a + "{" + v.members[0].lead|)))
  {
    var m, n := v.members[0], v.members[1];
    var p, gone := a + "{" + m.lead, PrintCore(m) + (m.trail + "," + n.lead);
    var q := NewCore(cs, v, path, 1) + Rest(cs, v, path, 2) + b;
    UpToFirst(v);
    UpToNext(v, 1);
    Positions(v, |a|, 0);
    Positions(v, |a|, 1);
    FirstKeptStrings(a, m.lead, PrintCore(m), m.trail, n.lead, NewCore(cs, v, path, 1), Rest(cs, v, path, 2), b);
    assert Treated(cs, a, v, b, path, 1) == p + gone + q;
    assert a + Left(cs, v, path) + b == p + "" + q;
    CutSpan(p, gone, q, last, RangeOf(v, |a|, 0));
  }

  lemma FirstKeptStrings(a: string, l: string, c: string, t: string, l1: string, n: string, r: string, b: string)
    ensures a + ("{" + l + c) + ((t + "," + l1 + n + r) + b) == (a + "{" + l) + (c + (t + "," + l1)) + (n + r + b)
    ensures a + ("{" + l + n + r) + b == (a + "{" + l) + "" + (n + r + b)
  {
  }

  lemma FirstBeforeGone(cs: bool, a: string, v: Value, b: string, path: seq<string>, last: Option<nat>)
    requires v.Object? && path != [] && v.members != []
    requires Goes(cs, v, path, 0) && (1 < |v.members| ==> Goes(cs, v, path, 1)) && LastOk(cs, a, v, path, 1, last)
    ensures CutOne(Buffer(Treated(cs, a, v, b, path, 1), last), RangeOf(v, |a|, 0))
         == Some(Buffer(a + Left(cs, v, path) + b, Some(|a + "{" + v.members[0].lead|)))
  {
    var m := v.members[0];
    var p, q := a + "{" + m.lead, Rest(cs, v, path, 1) + b;
    UpToFirst(v);
    Positions(v, |a|, 0);
    FirstGoneStrings(a, m.lead, PrintCore(m), q);
    assert Treated(cs, a, v, b, path, 1) == p + PrintCore(m) + q;
    FirstLeftStrings(a, m.lead, Rest(cs, v, path, 1), b);
    if 1 < |v.members| {
      UpToNext(v, 1);
      Positions(v, |a|, 1);
    }
    CutSpan(p, PrintCore(m), q, last, RangeOf(v, |a|, 0));
  }

  lemma FirstLeftStrings(a: string, l: string, r: string, b: string)
    ensures a + ("{" + l + r) + b == (a + "{" + l) + "" + (r + b)
  {
  }

  /** Cutting all ranges of a value, in any surroundings and whatever was cut behind it, leaves exactly `Left`. */
  lemma {:induction false} CutLeaves(cs: bool, a: string, v: Value, b: string, path: seq<string>, last: Option<nat>)
      returns (last': Option<nat>)
    requires last.Some? ==> last.value >= |a + Print(v)|
    ensures CutAll(Buffer(a + Print(v) + b, last), Ranges(cs, v, |a|, path))
        == Some(Buffer(a + Left(cs, v, path) + b, last'))
    ensures last'.Some? ==> last'.value >= |a|
    decreases |path|, 2
  {
    if path == [] || v.Leaf? || v.members == [] {
      last' := last;
    } else {
      var between := CutFrom(cs, a, v, b, path, 1, last);
      CutAppend(Buffer(a + Print(v) + b, last), MemberRanges(cs, v, |a|, path, 0), RangesFrom(cs, v, |a|, path, 1));
      last' := FirstStep(cs, a, v, b, path, between);
    }
  }

  /** `unset_path`: nothing if there is no range, else the text with all of them cut, back to front. */
  method UnsetPathInText(doc: Document, path: seq<string>, cs: bool) returns (output: Option<string>)
    ensures output.None? <==> Ranges(cs, doc.root, |doc.before|, path) == []
    ensures output.Some? ==> output.value == doc.before + Left(cs, doc.root, path) + doc.after
  {
    var ranges := FindAllPaths(cs, doc.root, |doc.before|, path);
    if ranges == [] { return None; }
    var text := Text(doc);
    var last: Option<nat> := None;
    ghost var final := CutLeaves(cs, doc.before, doc.root, doc.after, path, None);
    var i := |ranges|;
    assert ranges[..i] == ranges;
    while i > 0
      invariant 0 <= i <= |ranges|
      invariant CutAll(Buffer(text, last), ranges[..i]) == CutAll(Buffer(Text(doc), None), ranges)
    {
      var r := ranges[i - 1];
      assert ranges[..i][i - 1] == r && ranges[..i][..i - 1] == ranges[..i - 1];
      var end := if last.Some? && r.end > last.value then last.value else r.end;
      var replacement := if end != r.end then "" else r.replacement;
      text := Splice(text, r.start, end, replacement);
      last := Some(r.start);
      i := i - 1;
    }
    output := Some(text);
  }
}
