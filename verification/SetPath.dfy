/** Setting a path in a JSONC document by one splice of its text. */
module SetPath {
  import opened Basics
  import opened Jsonc

  /** The node a path leads to as far as it exists: how many segments matched, the node, where it starts. */
  datatype Found = Found(depth: nat, node: Value, at: nat)

  function ValueOffset(v: Value, k: nat): nat
    requires v.Object? && k < |v.members|
  {
    |FrontOf(v, k)|
  }

  /** `get_closest_node`, with the start of each node computed from the text before it. */
  function ClosestNode(v: Value, at: nat, path: seq<string>): (f: Found)
    ensures f.depth <= |path|
    decreases |path|
  {
    if path == [] || v.Leaf? then Found(0, v, at)
    else
      match LastNamed(v.members, path[0])
      case None => Found(0, v, at)
      case Some(k) =>
        var f := ClosestNode(v.members[k].value, at + ValueOffset(v, k), path[1..]);
        f.(depth := f.depth + 1)
  }

  // Generating text

  function ObjectText(segments: seq<string>, value: string): string {
    if segments == [] then value else "{" + Quoted(segments[0]) + ":" + ObjectText(segments[1..], value) + "}"
  }

  function Opening(segments: seq<string>): string {
    if segments == [] then "" else Opening(segments[..|segments| - 1]) + "{" + Quoted(segments[|segments| - 1]) + ":"
  }

  function Braces(n: nat): string {
    if n == 0 then "" else Braces(n - 1) + "}"
  }

  lemma {:induction false} OpeningCloses(segments: seq<string>, value: string)
    ensures Opening(segments) + value + Braces(|segments|) == ObjectText(segments, value)
  {
    if segments != [] {
      var front, last := segments[..|segments| - 1], segments[|segments| - 1];
      var inner := "{" + Quoted(last) + ":" + value + "}";
      OpeningCloses(front, inner);
      assert Opening(segments) + value + Braces(|segments|) == Opening(front) + inner + Braces(|front|) by {
        BracesFront(|front|);
        var a, b := Opening(front), Braces(|front|);
        assert a + "{" + Quoted(last) + ":" + value + ("}" + b) == a + ("{" + Quoted(last) + ":" + value + "}") + b;
      }
      ObjectTextSnoc(front, last, value);
      assert segments == front + [last];
    }
  }

  lemma {:induction false} BracesFront(n: nat)
    ensures Braces(n) + "}" == "}" + Braces(n)
  {
    if n > 0 {
      BracesFront(n - 1);
      assert "}" + Braces(n - 1) + "}" == "}" + (Braces(n - 1) + "}");
    }
  }

  lemma {:induction false} ObjectTextSnoc(front: seq<string>, last: string, value: string)
    ensures ObjectText(front + [last], value) == ObjectText(front, "{" + Quoted(last) + ":" + value + "}")
  {
    if front == [] {
      assert front + [last] == [last] && [last][1..] == [];
    } else {
      assert (front + [last])[1..] == front[1..] + [last];
      ObjectTextSnoc(front[1..], last, value);
    }
  }

  method GenerateObject(segments: seq<string>, value: string) returns (output: string)
    ensures output == ObjectText(segments, value)
  {
    output := "";
    var i := 0;
    while i < |segments|
      invariant 0 <= i <= |segments| && output == Opening(segments[..i])
    {
      output := output + "{" + Quoted(segments[i]) + ":";
      assert segments[..i + 1][..i] == segments[..i];
      i := i + 1;
    }
    assert segments[..i] == segments;
    output := output + value;
    var j := 0;
    while j < |segments|
      invariant 0 <= j <= |segments| && output == Opening(segments) + value + Braces(j)
    {
      output := output + "}";
      assert Opening(segments) + value + Braces(j) + "}" == Opening(segments) + value + (Braces(j) + "}");
      j := j + 1;
    }
    OpeningCloses(segments, value);
  }

  // The tree behind the text

  function NestedMember(segments: seq<string>, value: Value): Member
    requires segments != []
    decreases |segments|, 0
  {
    Member("", Quoted(segments[0]), segments[0], ":", Nest(segments[1..], value), "")
  }

  /** Objects for the missing segments, around the value. */
  function Nest(segments: seq<string>, value: Value): Value
    decreases |segments|, 1
  {
    if segments == [] then value else Object([NestedMember(segments, value)], false, "")
  }

  lemma PrintSingle(m: Member)
    ensures Print(Object([m], false, "")) == "{" + PrintMember(m) + "}"
  {
    assert [m][1..] == [];
    assert PrintMembers([m]) == PrintMember(m) + "";
  }

  lemma {:induction false} NestPrints(segments: seq<string>, value: Value)
    ensures Print(Nest(segments, value)) == ObjectText(segments, Print(value))
    decreases |segments|, 1
  {
    if segments != [] {
      MemberPrints(segments, value);
      PrintSingle(NestedMember(segments, value));
      var q, t := Quoted(segments[0]), ObjectText(segments[1..], Print(value));
      assert "{" + (q + ":" + t) + "}" == "{" + q + ":" + t + "}";
    }
  }

  lemma {:induction false} MemberPrints(path: seq<string>, value: Value)
    requires path != []
    ensures PrintMember(NestedMember(path, value)) == Quoted(path[0]) + ":" + ObjectText(path[1..], Print(value))
    decreases |path|, 0
  {
    NestPrints(path[1..], value);
    var core := PrintCore(NestedMember(path, value));
    assert "" + core + "" == core;
  }

  function SetValue(v: Value, k: nat, new_: Value): Value
    requires v.Object? && k < |v.members|
  {
    v.(members := v.members[k := v.members[k].(value := new_)])
  }

  /** Put a value in the place where following `depth` segments leads. */
  function Replace(v: Value, path: seq<string>, depth: nat, new_: Value): Value
    requires depth <= |path|
    decreases depth
  {
    if depth == 0 then new_
    else if v.Leaf? || LastNamed(v.members, path[0]).None? then v
    else
      var k := LastNamed(v.members, path[0]).value;
      SetValue(v, k, Replace(v.members[k].value, path[1..], depth - 1, new_))
  }

  /** The document's root after the rewrite. */
  function SetTree(v: Value, path: seq<string>, value: Value): Value
    requires path != [] && v.Object?
  {
    var depth := ClosestNode(v, 0, path).depth;
    if depth > 0 then Replace(v, path, depth, Nest(path[depth..], value))
    else v.(members := [NestedMember(path, value)] + v.members)
  }

  lemma {:induction false} ClosestShift(v: Value, a: nat, b: nat, path: seq<string>)
    ensures ClosestNode(v, a, path).depth == ClosestNode(v, b, path).depth
    ensures ClosestNode(v, a, path).node == ClosestNode(v, b, path).node
    decreases |path|
  {
    if path != [] && v.Object? && LastNamed(v.members, path[0]).Some? {
      var k := LastNamed(v.members, path[0]).value;
      ClosestShift(v.members[k].value, a + ValueOffset(v, k), b + ValueOffset(v, k), path[1..]);
    }
  }

  lemma SetValuePrints(v: Value, k: nat, new_: Value)
    requires v.Object? && k < |v.members|
    ensures Print(SetValue(v, k, new_)) == FrontOf(v, k) + Print(new_) + BackOf(v, k)
  {
    var v' := SetValue(v, k, new_);
    ObjectAround(v', k);
    assert v'.members[..k] == v.members[..k] && v'.members[k + 1..] == v.members[k + 1..];
  }

  lemma Regroup(a: string, b: string, c: string, d: string, e: string)
    ensures a + (b + c + d) + e == (a + b) + c + (d + e)
  {
  }

  /** The text around one member's value, before and after that value is replaced. */
  lemma AroundMember(a: string, v: Value, b: string, k: nat, inner: Value)
    requires v.Object? && k < |v.members|
    ensures a + Print(v) + b == (a + FrontOf(v, k)) + Print(v.members[k].value) + (BackOf(v, k) + b)
    ensures a + Print(SetValue(v, k, inner)) + b == (a + FrontOf(v, k)) + Print(inner) + (BackOf(v, k) + b)
  {
    var front, back := FrontOf(v, k), BackOf(v, k);
    assert Print(v) == front + Print(v.members[k].value) + back by { ObjectAround(v, k); }
    assert Print(SetValue(v, k, inner)) == front + Print(inner) + back by { SetValuePrints(v, k, inner); }
    Regroup(a, front, Print(v.members[k].value), back, b);
    Regroup(a, front, Print(inner), back, b);
  }

  predicate Spliced(text: string, at: nat, length: nat, with: string, result: string) {
    at + length <= |text| && Splice(text, at, at + length, with) == result
  }

  /** Splicing the closest node's range is replacing that node in the tree. */
  lemma {:induction false} ReplacePrints(a: string, v: Value, b: string, path: seq<string>, new_: Value)
    ensures
      var f := ClosestNode(v, |a|, path);
      Spliced(a + Print(v) + b, f.at, |Print(f.node)|, Print(new_), a + Print(Replace(v, path, f.depth, new_)) + b)
    decreases |path|
  {
    if path != [] && v.Object? && LastNamed(v.members, path[0]).Some? {
      var k := LastNamed(v.members, path[0]).value;
      var inner, front := v.members[k].value, a + FrontOf(v, k);
      var f := ClosestNode(inner, |front|, path[1..]);
      assert ClosestNode(v, |a|, path) == f.(depth := f.depth + 1);
      var inner' := Replace(inner, path[1..], f.depth, new_);
      assert Replace(v, path, f.depth + 1, new_) == SetValue(v, k, inner');
      AroundMember(a, v, b, k, inner');
      ReplacePrints(front, inner, BackOf(v, k) + b, path[1..], new_);
    } else {
      SpliceMiddle(a, Print(v), b, Print(new_));
    }
  }

  lemma PrependPrints(v: Value, m: Member)
    requires v.Object?
    ensures Print(v.(members := [m] + v.members))
         == "{" + (PrintMember(m) + if v.members != [] then "," else "") + (PrintMembers(v.members) + Ending(v))
  {
    var ms := [m] + v.members;
    PrintObject(v.(members := ms));
    assert ms[1..] == v.members;
    var p, e := PrintMember(m), Ending(v);
    if v.members != [] {
      var q, r := PrintMember(v.members[0]), CommaBefore(v.members[1..]);
      assert "{" + (p + ("," + q + r)) + e == "{" + (p + ",") + ((q + r) + e);
    } else {
      assert "{" + (p + "") + e == "{" + (p + "") + ("" + e);
    }
  }

  lemma InsertPrints(a: string, v: Value, b: string, m: Member)
    requires v.Object?
    ensures
      var text := PrintMember(m) + if v.members != [] then "," else "";
      Splice(a + Print(v) + b, |a| + 1, |a| + 1, text) == a + Print(v.(members := [m] + v.members)) + b
  {
    var text := PrintMember(m) + if v.members != [] then "," else "";
    PrependPrints(v, m);
    PrintObject(v);
    InsertAfterBrace(a, PrintMembers(v.members), Ending(v), b, text);
  }

  lemma InsertAfterBrace(a: string, ms: string, e: string, b: string, text: string)
    ensures Splice(a + ("{" + ms + e) + b, |a| + 1, |a| + 1, text) == a + ("{" + text + (ms + e)) + b
  {
    var rest := ms + e + b;
    assert a + ("{" + ms + e) + b == (a + "{") + "" + rest;
    SpliceMiddle(a + "{", "", rest, text);
    assert (a + "{") + text + rest == a + ("{" + text + (ms + e)) + b;
  }

  /** The output is the text with `gone`, found at `at`, replaced by `with`; everything around it is as it was. */
  ghost predicate IsEdit(text: string, output: string, at: nat, gone: string, with: string) {
    at + |gone| <= |text| && text[at..at + |gone|] == gone && output == text[..at] + with + text[at + |gone|..]
  }

  /** One range of the text is rewritten: the node the path leads to as far as it exists, or nothing after the brace. */
  ghost predicate OneEdit(doc: Document, path: seq<string>, value: Value, output: string)
    requires path != []
  {
    var f := ClosestNode(doc.root, |doc.before|, path);
    if f.depth > 0 then
      IsEdit(Text(doc), output, f.at, Print(f.node), ObjectText(path[f.depth..], Print(value)))
    else
      var comma := if doc.root.Object? && doc.root.members != [] then "," else "";
      IsEdit(Text(doc), output, |doc.before| + 1, "",
          Quoted(path[0]) + ":" + ObjectText(path[1..], Print(value)) + comma)
  }

  /** The node found is where the text says: its printed form stands at its offset. */
  lemma {:induction false} ClosestIsThere(a: string, v: Value, b: string, path: seq<string>)
    ensures
      var f, text := ClosestNode(v, |a|, path), a + Print(v) + b;
      f.at + |Print(f.node)| <= |text| && text[f.at..f.at + |Print(f.node)|] == Print(f.node)
    decreases |path|
  {
    if path != [] && v.Object? && LastNamed(v.members, path[0]).Some? {
      var k := LastNamed(v.members, path[0]).value;
      AroundMember(a, v, b, k, v.members[k].value);
      ClosestIsThere(a + FrontOf(v, k), v.members[k].value, BackOf(v, k) + b, path[1..]);
    }
  }

  /** The node that was found is replaced as a whole. */
  method ReplaceNode(doc: Document, path: seq<string>, value: Value, f: Found) returns (output: string)
    requires path != [] && f == ClosestNode(doc.root, |doc.before|, path) && f.depth > 0
    ensures doc.root.Object? && output == Text(doc.(root := SetTree(doc.root, path, value)))
    ensures OneEdit(doc, path, value, output)
  {
    var generated := GenerateObject(path[f.depth..], Print(value));
    ClosestIsThere(doc.before, doc.root, doc.after, path);
    ClosestShift(doc.root, |doc.before|, 0, path);
    NestPrints(path[f.depth..], value);
    ReplacePrints(doc.before, doc.root, doc.after, path, Nest(path[f.depth..], value));
    output := Splice(Text(doc), f.at, f.at + |Print(f.node)|, generated);
  }

  /** Nothing of the path exists: a member is put in front of the root's members. */
  method InsertMember(doc: Document, path: seq<string>, value: Value) returns (output: string)
    requires path != [] && ClosestNode(doc.root, |doc.before|, path).depth == 0
    requires doc.root.Leaf? ==> doc.root.text != ""
    ensures doc.root.Object? ==> output == Text(doc.(root := SetTree(doc.root, path, value)))
    ensures OneEdit(doc, path, value, output)
  {
    var separator := if doc.root.Object? && |doc.root.members| > 0 then "," else "";
    var generated := GenerateMember(path, Print(value), separator);
    var start := |doc.before| + 1;
    if doc.root.Object? {
      ClosestShift(doc.root, |doc.before|, 0, path);
      MemberPrints(path, value);
      InsertPrints(doc.before, doc.root, doc.after, NestedMember(path, value));
    }
    output := Splice(Text(doc), start, start, generated);
  }

  /** Rewriting the text and rewriting the tree agree whenever the root is an object. */
  method SetPathInText(doc: Document, path: seq<string>, value: Value) returns (output: string)
    requires path != []
    requires doc.root.Leaf? ==> doc.root.text != ""
    ensures doc.root.Object? ==> output == Text(doc.(root := SetTree(doc.root, path, value)))
    ensures OneEdit(doc, path, value, output)
  {
    var f := ClosestNode(doc.root, |doc.before|, path);
    if f.depth > 0 {
      output := ReplaceNode(doc, path, value, f);
    } else {
      output := InsertMember(doc, path, value);
    }
  }

  method GenerateMember(path: seq<string>, value: string, separator: string) returns (output: string)
    requires path != []
    ensures output == Quoted(path[0]) + ":" + ObjectText(path[1..], value) + separator
  {
    var object_ := GenerateObject(path[1..], value);
    output := Quoted(path[0]) + ":" + object_ + separator;
  }

  // What the rewrite means

  predicate Incomparable(p: seq<string>, q: seq<string>) {
    !(p <= q) && !(q <= p)
  }

  lemma {:induction false} LookupAppend(v: Value, p: seq<string>, q: seq<string>)
    requires Lookup(v, p).Some?
    ensures Lookup(v, p + q) == Lookup(Lookup(v, p).value, q)
    decreases |p|
  {
    if p == [] {
      assert p + q == q;
    } else {
      assert (p + q)[0] == p[0] && (p + q)[1..] == p[1..] + q;
      LookupAppend(v.members[LastNamed(v.members, p[0]).value].value, p[1..], q);
    }
  }

  /** The closest node is where the path leads, and the path does not lead further. */
  lemma {:induction false} ClosestIsMaximal(v: Value, at: nat, path: seq<string>)
    ensures
      var f := ClosestNode(v, at, path);
      && Lookup(v, path[..f.depth]) == Some(f.node)
      && (f.depth < |path| ==> f.node.Leaf? || LastNamed(f.node.members, path[f.depth]).None?)
    decreases |path|
  {
    if path != [] && v.Object? && LastNamed(v.members, path[0]).Some? {
      var k := LastNamed(v.members, path[0]).value;
      var f := ClosestNode(v, at, path);
      ClosestIsMaximal(v.members[k].value, at + ValueOffset(v, k), path[1..]);
      assert path[..f.depth][1..] == path[1..][..f.depth - 1];
    }
  }

  lemma SameNamesSameLast(a: seq<Member>, b: seq<Member>, name: string)
    requires |a| == |b| && forall i :: 0 <= i < |a| ==> a[i].name == b[i].name
    ensures LastNamed(a, name) == LastNamed(b, name)
  {
  }

  lemma ReplaceNames(v: Value, k: nat, inner: Value, name: string)
    requires v.Object? && k < |v.members|
    ensures LastNamed(SetValue(v, k, inner).members, name) == LastNamed(v.members, name)
  {
    SameNamesSameLast(SetValue(v, k, inner).members, v.members, name);
  }

  lemma SliceTail(path: seq<string>, q: seq<string>, depth: nat)
    requires 0 < depth <= |path|
    ensures path[..depth][0] == path[0] && path[..depth][1..] == path[1..][..depth - 1]
    ensures q != [] && depth <= |q| ==> q[1..][depth - 1..] == q[depth..]
  {
  }

  /** Following the replaced path leads into the new node, and any path off it leads where it led before. */
  lemma {:induction false} ReplaceLookup(v: Value, path: seq<string>, depth: nat, new_: Value, q: seq<string>)
    requires depth <= |path| && Lookup(v, path[..depth]).Some?
    ensures path[..depth] <= q ==> Lookup(Replace(v, path, depth, new_), q) == Lookup(new_, q[depth..])
    ensures Incomparable(q, path[..depth]) ==> Lookup(Replace(v, path, depth, new_), q) == Lookup(v, q)
    decreases depth
  {
    if depth == 0 {
      assert path[..0] <= q && q[0..] == q;
    } else {
      SliceTail(path, q, depth);
      var k := LastNamed(v.members, path[0]).value;
      var inner := Replace(v.members[k].value, path[1..], depth - 1, new_);
      if q != [] {
        ReplaceNames(v, k, inner, q[0]);
        if q[0] == path[0] {
          ReplaceLookup(v.members[k].value, path[1..], depth - 1, new_, q[1..]);
          PrefixTail(path[..depth], q);
        }
      }
    }
  }

  lemma PrefixTail(p: seq<string>, q: seq<string>)
    requires p != [] && q != [] && p[0] == q[0]
    ensures p <= q <==> p[1..] <= q[1..]
    ensures q <= p <==> q[1..] <= p[1..]
  {
    assert p == [p[0]] + p[1..] && q == [q[0]] + q[1..];
  }

  lemma {:induction false} NestLookup(segments: seq<string>, value: Value, q: seq<string>)
    ensures Lookup(Nest(segments, value), segments) == Some(value)
    ensures Incomparable(q, segments) ==> Lookup(Nest(segments, value), q) == None
  {
    if segments != [] {
      var ms := [NestedMember(segments, value)];
      assert LastNamed(ms, segments[0]) == Some(0);
      if q != [] && q[0] == segments[0] {
        NestLookup(segments[1..], value, q[1..]);
        PrefixTail(q, segments);
      } else {
        NestLookup(segments[1..], value, q);
      }
    }
  }

  lemma PrependNamed(ms: seq<Member>, m: Member, name: string)
    ensures LastNamed([m] + ms, name) ==
      match LastNamed(ms, name)
      case Some(k) => Some(k + 1)
      case None => if m.name == name then Some(0) else None
  {
    var all := [m] + ms;
    assert all[0] == m && forall j :: 0 < j < |all| ==> all[j] == ms[j - 1];
    match LastNamed(ms, name) {
      case Some(k) => LastIs(all, name, k + 1);
      case None => if m.name == name { LastIs(all, name, 0); }
    }
  }

  lemma LastIs(ms: seq<Member>, name: string, k: nat)
    requires k < |ms| && ms[k].name == name && forall j :: k < j < |ms| ==> ms[j].name != name
    ensures LastNamed(ms, name) == Some(k)
  {
  }

  lemma PrependLookup(v: Value, m: Member, q: seq<string>)
    requires v.Object? && q != []
    ensures
      var v' := v.(members := [m] + v.members);
      Lookup(v', q)
      == if LastNamed(v.members, q[0]).None? && m.name == q[0] then Lookup(m.value, q[1..]) else Lookup(v, q)
  {
    PrependNamed(v.members, m, q[0]);
    var ms := [m] + v.members;
    var k := LastNamed(v.members, q[0]);
    if k.Some? { assert ms[k.value + 1] == v.members[k.value]; }
  }

  /** The path of the node that is replaced, or of the member that is added. */
  function RewrittenPath(v: Value, path: seq<string>): seq<string>
    requires path != []
  {
    var depth := ClosestNode(v, 0, path).depth;
    if depth > 0 then path[..depth] else path[..1]
  }

  /** After the rewrite the path has the value, and every path not comparable with the rewritten one has what it had. */
  lemma SetPathMeans(v: Value, path: seq<string>, value: Value, q: seq<string>)
    requires path != [] && v.Object?
    ensures Lookup(SetTree(v, path, value), path) == Some(value)
    ensures Incomparable(q, RewrittenPath(v, path)) ==> Lookup(SetTree(v, path, value), q) == Lookup(v, q)
  {
    var depth := ClosestNode(v, 0, path).depth;
    ClosestIsMaximal(v, 0, path);
    NestLookup(path[depth..], value, q);
    if depth > 0 {
      ReplaceLookup(v, path, depth, Nest(path[depth..], value), path);
      ReplaceLookup(v, path, depth, Nest(path[depth..], value), q);
    } else {
      var m := NestedMember(path, value);
      NestLookup(path[1..], value, q);
      PrependLookup(v, m, path);
      if q != [] { PrependLookup(v, m, q); }
    }
  }

  /** A nested object that lacks the next segment is replaced whole, and with it all its members. */
  predicate Clobbers(v: Value, path: seq<string>) {
    var f := ClosestNode(v, 0, path);
    0 < f.depth < |path| && f.node.Object? && f.node.members != []
  }

  ghost predicate KeepsSiblings(v: Value, path: seq<string>, value: Value)
    requires path != [] && v.Object?
  {
    forall q :: Incomparable(q, path) ==> Lookup(SetTree(v, path, value), q) == Lookup(v, q)
  }

  lemma ComparableWithPart(path: seq<string>, depth: nat, q: seq<string>)
    requires depth <= |path| && Incomparable(q, path)
    ensures Incomparable(q, path[..depth]) || (path[..depth] <= q && Incomparable(q[depth..], path[depth..]))
  {
    if !Incomparable(q, path[..depth]) {
      assert path == path[..depth] + path[depth..];
      assert q <= path[..depth] ==> q <= path;
      assert path[..depth] <= q;
      assert q == path[..depth] + q[depth..];
    }
  }

  lemma UnlessClobbered(v: Value, path: seq<string>, value: Value, q: seq<string>)
    requires path != [] && v.Object? && !Clobbers(v, path) && Incomparable(q, path)
    ensures Lookup(SetTree(v, path, value), q) == Lookup(v, q)
  {
    var f := ClosestNode(v, 0, path);
    ClosestIsMaximal(v, 0, path);
    if f.depth > 0 {
      var nested := Nest(path[f.depth..], value);
      ReplaceLookup(v, path, f.depth, nested, q);
      ComparableWithPart(path, f.depth, q);
      if !Incomparable(q, path[..f.depth]) {
        NestLookup(path[f.depth..], value, q[f.depth..]);
        LookupAppend(v, path[..f.depth], q[f.depth..]);
        assert q == path[..f.depth] + q[f.depth..];
      }
    } else {
      PrependLookup(v, NestedMember(path, value), q);
      if q[0] == path[0] {
        PrefixTail(q, path);
        NestLookup(path[1..], value, q[1..]);
      }
    }
  }

  lemma ClobberedSibling(v: Value, path: seq<string>, value: Value) returns (q: seq<string>)
    requires path != [] && v.Object? && Clobbers(v, path)
    ensures Incomparable(q, path) && Lookup(v, q).Some? && Lookup(SetTree(v, path, value), q) == None
    ensures var f := ClosestNode(v, 0, path); q == path[..f.depth] + [f.node.members[0].name]
  {
    var f := ClosestNode(v, 0, path);
    ClosestIsMaximal(v, 0, path);
    var name := f.node.members[0].name;
    q := path[..f.depth] + [name];
    assert name != path[f.depth] && q[f.depth] == name;
    assert q[f.depth..] == [name];
    LookupAppend(v, path[..f.depth], [name]);
    ReplaceLookup(v, path, f.depth, Nest(path[f.depth..], value), q);
    assert Incomparable([name], path[f.depth..]);
    NestLookup(path[f.depth..], value, [name]);
  }

  /**
   Only the path is meant to change. That is so exactly when the path does not stop at a nested object
   that has members.
   */
  lemma KeepsSiblingsIff(v: Value, path: seq<string>, value: Value)
    requires path != [] && v.Object?
    ensures KeepsSiblings(v, path, value) <==> !Clobbers(v, path)
  {
    if Clobbers(v, path) {
      var q := ClobberedSibling(v, path, value);
    } else {
      forall q | Incomparable(q, path)
        ensures Lookup(SetTree(v, path, value), q) == Lookup(v, q)
      {
        UnlessClobbered(v, path, value, q);
      }
    }
  }

  /** `{"a":{"b":1}}` loses `b` when `a.c` is set. */
  lemma ClobberExample(value: Value)
    ensures
      var inner := Object([Member("", "\"b\"", "b", ":", Leaf("1"), "")], false, "");
      var v := Object([Member("", "\"a\"", "a", ":", inner, "")], false, "");
      Lookup(v, ["a", "b"]).Some? && Lookup(SetTree(v, ["a", "c"], value), ["a", "b"]) == None
  {
    var inner := Object([Member("", "\"b\"", "b", ":", Leaf("1"), "")], false, "");
    var v := Object([Member("", "\"a\"", "a", ":", inner, "")], false, "");
    assert LastNamed(v.members, "a") == Some(0);
    assert ["a", "c"][1..] == ["c"];
    assert "b"[0] != "c"[0];
    assert LastNamed(inner.members, "c") == None;
    assert ClosestNode(inner, ValueOffset(v, 0), ["c"]) == Found(0, inner, ValueOffset(v, 0));
    var q := ClobberedSibling(v, ["a", "c"], value);
    assert ["a", "c"][..1] + ["b"] == ["a", "b"];
  }

  // Well-formed documents stay well-formed

  lemma {:induction false} NestIsWellFormed(lex: Lexicon, segments: seq<string>, value: Value)
    requires Sound(lex) && WellFormed(lex, value) && forall i :: 0 <= i < |segments| ==> NeedsNoEscape(segments[i])
    ensures WellFormed(lex, Nest(segments, value))
  {
    if segments != [] {
      NestIsWellFormed(lex, segments[1..], value);
      assert lex.key(Quoted(segments[0]), segments[0]);
    }
  }

  lemma {:induction false} ReplaceIsWellFormed(lex: Lexicon, v: Value, path: seq<string>, depth: nat, new_: Value)
    requires WellFormed(lex, v) && WellFormed(lex, new_) && depth <= |path|
    ensures WellFormed(lex, Replace(v, path, depth, new_))
    decreases depth
  {
    if depth > 0 && v.Object? && LastNamed(v.members, path[0]).Some? {
      ReplaceIsWellFormed(lex, v.members[LastNamed(v.members, path[0]).value].value, path[1..], depth - 1, new_);
    }
  }

  /** Keys that need no escape and a well-formed value give a well-formed document. */
  lemma SetTreeIsWellFormed(lex: Lexicon, v: Value, path: seq<string>, value: Value)
    requires Sound(lex) && WellFormed(lex, v) && WellFormed(lex, value) && path != [] && v.Object?
    requires forall i :: 0 <= i < |path| ==> NeedsNoEscape(path[i])
    ensures WellFormed(lex, SetTree(v, path, value))
  {
    var depth := ClosestNode(v, 0, path).depth;
    NestIsWellFormed(lex, path[depth..], value);
    NestIsWellFormed(lex, path[1..], value);
    if depth > 0 {
      ReplaceIsWellFormed(lex, v, path, depth, Nest(path[depth..], value));
    } else {
      assert lex.key(Quoted(path[0]), path[0]);
    }
  }
}
