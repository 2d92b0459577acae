/**
 Reading a text back. For a scanner that finds the same pieces in a text however it is continued, no two values
 share a text, and what is left of a value after a removal is the text of a well-formed value only if no object on the
 path started badly.
 */
module UnsetReading {
  import opened Basics
  import opened Jsonc
  import opened UnsetText
  import opened UnsetPath

  // What a scanner provides

  predicate IsMark(c: string) {
    c == "," || c == "}"
  }

  ghost predicate Delimits(lex: Lexicon, r: string, t: string, c: string, x: string) {
    lex.trivia(t) && IsMark(c) && r == t + (c + x)
  }

  /** What may come after a value: nothing, or trivia and a comma or a closing brace. */
  ghost predicate Follows(lex: Lexicon, r: string) {
    r == "" || exists t, c, x :: Delimits(lex, r, t, c, x)
  }

  ghost predicate SameLeaf(lex: Lexicon, a: string, r: string, b: string, s: string) {
    lex.leaf(a) && lex.leaf(b) && Follows(lex, r) && Follows(lex, s) && a + r == b + s ==> a == b
  }

  ghost predicate SameTrail(lex: Lexicon, t: string, c: string, x: string, u: string, d: string, y: string) {
    lex.trivia(t) && lex.trivia(u) && IsMark(c) && IsMark(d) && t + (c + x) == u + (d + y) ==> t == u && c == d
  }

  /** From the end of the brace or comma to the start of the value. */
  ghost predicate IsHead(lex: Lexicon, m: Member) {
    lex.trivia(m.lead) && lex.key(m.key, m.name) && lex.sep(m.sep)
  }

  function Head(m: Member): string {
    m.lead + m.key + m.sep
  }

  ghost predicate StartsValue(lex: Lexicon, x: string) {
    x != "" && (x[0] == '{' || exists a, y :: lex.leaf(a) && x == a + y)
  }

  ghost predicate SameHead(lex: Lexicon, m: Member, x: string, n: Member, y: string) {
    IsHead(lex, m) && IsHead(lex, n) && StartsValue(lex, x) && StartsValue(lex, y) && Head(m) + x == Head(n) + y
    ==> Head(m) == Head(n)
  }

  ghost predicate HeadIsNoEnd(lex: Lexicon, m: Member, x: string, t: string, c: string, y: string) {
    IsHead(lex, m) && StartsValue(lex, x) && lex.trivia(t) && IsMark(c) ==> Head(m) + x != t + (c + y)
  }

  ghost predicate Reader(lex: Lexicon) {
    && Scans(lex)
    && (forall a :: lex.leaf(a) ==> a != "" && a[0] != '{')
    && (forall a, r, b, s :: SameLeaf(lex, a, r, b, s))
    && (forall t, c, x, u, d, y :: SameTrail(lex, t, c, x, u, d, y))
    && (forall m, x, n, y :: SameHead(lex, m, x, n, y))
    && (forall m, x, t, c, y :: HeadIsNoEnd(lex, m, x, t, c, y))
  }

  /** There are such scanners: without trivia, with quoted names, a bare colon and one plain value. */
  function Tiny(): Lexicon {
    Lexicon(t => t == "", (key, name) => NeedsNoEscape(name) && key == Quoted(name), s => s == ":", a => a == "0")
  }

  lemma QuotedEnds(n: string, x: string, m: string, y: string)
    requires NeedsNoEscape(n) && NeedsNoEscape(m) && Quoted(n) + x == Quoted(m) + y
    ensures n == m
  {
    var a, b := Quoted(n) + x, Quoted(m) + y;
    assert forall i :: 0 <= i < |n| ==> a[i + 1] == n[i];
    assert forall i :: 0 <= i < |m| ==> b[i + 1] == m[i];
    assert a[|n| + 1] == '\"' && b[|m| + 1] == '\"';
    assert |n| == |m|;
    assert n == a[1..|n| + 1] && m == b[1..|m| + 1];
  }

  lemma TinyHeads(m: Member, x: string, n: Member, y: string)
    ensures SameHead(Tiny(), m, x, n, y)
  {
    if IsHead(Tiny(), m) && IsHead(Tiny(), n) && Head(m) + x == Head(n) + y {
      assert Head(m) + x == Quoted(m.name) + (":" + x) && Head(n) + y == Quoted(n.name) + (":" + y);
      QuotedEnds(m.name, ":" + x, n.name, ":" + y);
    }
  }

  lemma TinyEnds(m: Member, x: string, t: string, c: string, y: string)
    ensures HeadIsNoEnd(Tiny(), m, x, t, c, y)
  {
    if IsHead(Tiny(), m) && t == "" && IsMark(c) {
      assert (Head(m) + x)[0] == '\"' && (t + (c + y))[0] == c[0];
    }
  }

  lemma TinyTrails(t: string, c: string, x: string, u: string, d: string, y: string)
    ensures SameTrail(Tiny(), t, c, x, u, d, y)
  {
    if t == "" && u == "" && IsMark(c) && IsMark(d) {
      assert (t + (c + x))[0] == c[0] && (u + (d + y))[0] == d[0];
    }
  }

  lemma ReadersExist()
    ensures Reader(Tiny()) && Sound(Tiny())
  {
    var lex := Tiny();
    forall t, u ensures Joins(lex, t, u) { }
    forall t, c, x, u, d, y ensures SameTrail(lex, t, c, x, u, d, y) { TinyTrails(t, c, x, u, d, y); }
    forall m, x, n, y ensures SameHead(lex, m, x, n, y) { TinyHeads(m, x, n, y); }
    forall m, x, t, c, y ensures HeadIsNoEnd(lex, m, x, t, c, y) { TinyEnds(m, x, t, c, y); }
  }

  // The text of an object, member by member

  /** Only a path of one segment takes members away. */
  predicate KeepsMembers(path: seq<string>) {
    |path| != 1
  }

  function SubPath(cs: bool, v: Value, path: seq<string>, k: nat): seq<string>
    requires v.Object? && k < |v.members| && KeepsMembers(path)
  {
    if |path| > 1 && Hit(cs, v, path, k) then path[1..] else []
  }

  function Piece(cs: bool, v: Value, path: seq<string>, k: nat): string
    requires v.Object? && k < |v.members| && KeepsMembers(path)
  {
    Left(cs, v.members[k].value, SubPath(cs, v, path, k))
  }

  /** What follows the value of member `k`: trivia, a mark, and the rest. */
  datatype Tail3 = Tail3(trivia: string, mark: string, rest: string)

  function Joined(t: Tail3): string {
    t.trivia + (t.mark + t.rest)
  }

  function TailOf(cs: bool, v: Value, path: seq<string>, k: nat): Tail3
    requires v.Object? && k < |v.members| && KeepsMembers(path)
    decreases |v.members| - k, 0
  {
    var m := v.members[k];
    if k + 1 < |v.members| then Tail3(m.trail, ",", TextFrom(cs, v, path, k + 1))
    else if v.comma then Tail3(m.trail, ",", v.tail + "}")
    else Tail3(m.trail + v.tail, "}", "")
  }

  function TextFrom(cs: bool, v: Value, path: seq<string>, k: nat): string
    requires v.Object? && k < |v.members| && KeepsMembers(path)
    decreases |v.members| - k, 1
  {
    Head(v.members[k]) + (Piece(cs, v, path, k) + Joined(TailOf(cs, v, path, k)))
  }

  lemma HeadStrings(l: string, k: string, s: string, x: string, r: string)
    ensures l + (k + s + x) + r == (l + k + s) + (x + r)
  {
  }

  lemma {:induction false} RestIsTail(cs: bool, v: Value, path: seq<string>, k: nat)
    requires v.Object? && |path| > 1 && 0 < k <= |v.members|
    ensures Rest(cs, v, path, k) == Joined(TailOf(cs, v, path, k - 1))
    decreases |v.members| - k
  {
    if k < |v.members| {
      RestIsTail(cs, v, path, k + 1);
      var m := v.members[k];
      HeadStrings(m.lead, m.key, m.sep, Piece(cs, v, path, k), Rest(cs, v, path, k + 1));
      CommaStrings(v.members[k - 1].trail, m.lead, NewCore(cs, v, path, k), Rest(cs, v, path, k + 1));
    } else {
      LastStrings(v.members[k - 1].trail, v.tail);
    }
  }

  lemma CommaStrings(t: string, l: string, c: string, r: string)
    ensures t + "," + l + c + r == t + ("," + (l + c + r))
  {
  }

  lemma LastStrings(t: string, tail: string)
    ensures t + ("," + tail + "}") == t + ("," + (tail + "}"))
    ensures t + ("" + tail + "}") == (t + tail) + ("}" + "")
  {
  }

  lemma {:induction false} CommaIsTail(cs: bool, v: Value, k: nat)
    requires v.Object? && k < |v.members|
    ensures v.members[k].trail + CommaBefore(v.members[k + 1..]) + Ending(v) == Joined(TailOf(cs, v, [], k))
    decreases |v.members| - k
  {
    var t := v.members[k].trail;
    if k + 1 < |v.members| {
      CommaIsTail(cs, v, k + 1);
      var m, rest := v.members[k + 1], v.members[k + 2..];
      assert v.members[k + 1..][0] == m && v.members[k + 1..][1..] == rest;
      HeadStrings(m.lead, m.key, m.sep, Print(m.value), m.trail + CommaBefore(rest) + Ending(v));
      MiddleStrings(t, m.lead, PrintCore(m), m.trail, CommaBefore(rest), Ending(v));
    } else {
      assert t + "" + Ending(v) == t + Ending(v);
      LastStrings(t, v.tail);
    }
  }

  lemma MiddleStrings(t: string, l: string, c: string, u: string, b: string, e: string)
    ensures t + ("," + (l + c + u) + b) + e == t + ("," + (l + c + (u + b + e)))
  {
  }

  lemma OpenStrings(l: string, c: string, u: string, b: string, e: string)
    ensures "{" + ((l + c + u) + b) + e == "{" + (l + c + (u + b + e))
    ensures "{" + l + c + e == "{" + (l + c + e)
  {
  }

  lemma LeftIsText(cs: bool, v: Value, path: seq<string>)
    requires v.Object? && v.members != [] && KeepsMembers(path)
    ensures Left(cs, v, path) == "{" + TextFrom(cs, v, path, 0)
  {
    var m := v.members[0];
    if path == [] {
      CommaIsTail(cs, v, 0);
      PrintObject(v);
      HeadStrings(m.lead, m.key, m.sep, Print(m.value), m.trail + CommaBefore(v.members[1..]) + Ending(v));
      OpenStrings(m.lead, PrintCore(m), m.trail, CommaBefore(v.members[1..]), Ending(v));
    } else {
      RestIsTail(cs, v, path, 1);
      HeadStrings(m.lead, m.key, m.sep, Piece(cs, v, path, 0), Rest(cs, v, path, 1));
      OpenStrings(m.lead, NewCore(cs, v, path, 0), "", "", Rest(cs, v, path, 1));
    }
  }

  // Two texts that go on differently

  lemma LeftStarts(lex: Lexicon, cs: bool, v: Value, path: seq<string>, r: string)
    requires WellFormed(lex, v) && Reader(lex)
    ensures v.Leaf? ==> Left(cs, v, path) == v.text && lex.leaf(v.text) && v.text != "" && v.text[0] != '{'
    ensures v.Object? ==> Left(cs, v, path) != "" && Left(cs, v, path)[0] == '{'
    ensures StartsValue(lex, Left(cs, v, path) + r)
  {
  }

  lemma MemberIsProper(lex: Lexicon, v: Value, k: nat)
    requires WellFormed(lex, v) && v.Object? && k < |v.members|
    ensures IsHead(lex, v.members[k]) && lex.trivia(v.members[k].trail) && lex.trivia(v.tail)
        && WellFormed(lex, v.members[k].value)
  {
  }

  lemma TailIsProper(lex: Lexicon, cs: bool, v: Value, path: seq<string>, k: nat, r: string)
    requires WellFormed(lex, v) && Reader(lex) && v.Object? && k < |v.members| && KeepsMembers(path)
    ensures var t := TailOf(cs, v, path, k); lex.trivia(t.trivia) && IsMark(t.mark) && Follows(lex, Joined(t) + r)
  {
    MemberIsProper(lex, v, k);
    assert Joins(lex, v.members[k].trail, v.tail);
    var t := TailOf(cs, v, path, k);
    ThreeStrings(t.trivia, t.mark, t.rest, r);
    assert Delimits(lex, Joined(t) + r, t.trivia, t.mark, t.rest + r);
  }

  lemma ThreeStrings(a: string, b: string, c: string, d: string)
    ensures (a + (b + c)) + d == a + (b + (c + d))
    ensures a + b + (c + d) == a + (b + c) + d
  {
  }

  lemma DropFront(a: string, x: string, y: string)
    requires a + x == a + y
    ensures x == y
  {
    assert x == (a + x)[|a|..] && y == (a + y)[|a|..];
  }

  /** Equal tails: equal trivia, equal marks, and what comes after them is equal too. */
  lemma TailsAgree(lex: Lexicon, t: Tail3, r: string, u: Tail3, s: string)
    requires Reader(lex) && lex.trivia(t.trivia) && IsMark(t.mark) && lex.trivia(u.trivia) && IsMark(u.mark)
    requires Joined(t) + r == Joined(u) + s
    ensures t.trivia == u.trivia && t.mark == u.mark && t.rest + r == u.rest + s
  {
    ThreeStrings(t.trivia, t.mark, t.rest, r);
    ThreeStrings(u.trivia, u.mark, u.rest, s);
    assert SameTrail(lex, t.trivia, t.mark, t.rest + r, u.trivia, u.mark, u.rest + s);
    DropFront(t.trivia, t.mark + (t.rest + r), t.mark + (u.rest + s));
    DropFront(t.mark, t.rest + r, u.rest + s);
  }

  /** A member is not the end of an object. */
  lemma MemberIsNoEnd(lex: Lexicon, cs: bool, v: Value, path: seq<string>, k: nat, r: string, tail: string, s: string)
    requires WellFormed(lex, v) && Reader(lex) && v.Object? && k < |v.members| && KeepsMembers(path) && lex.trivia(tail)
    ensures TextFrom(cs, v, path, k) + r != (tail + "}") + s
  {
    MemberIsProper(lex, v, k);
    var m, x, t := v.members[k], Piece(cs, v, path, k), Joined(TailOf(cs, v, path, k));
    LeftStarts(lex, cs, m.value, SubPath(cs, v, path, k), t + r);
    assert HeadIsNoEnd(lex, m, x + (t + r), tail, "}", s);
    assert TextFrom(cs, v, path, k) + r == Head(m) + (x + (t + r));
    assert (tail + "}") + s == tail + ("}" + s);
  }

  lemma EndsAgree(lex: Lexicon, a: string, r: string, b: string, s: string)
    requires Reader(lex) && lex.trivia(a) && lex.trivia(b) && (a + "}") + r == (b + "}") + s
    ensures a == b && r == s
  {
    assert (a + "}") + r == a + ("}" + r) && (b + "}") + s == b + ("}" + s);
    assert SameTrail(lex, a, "}", r, b, "}", s);
    DropFront(a + "}", r, s);
  }

  /** What comes after a mark, in two objects whose texts agree up to there. */
  ghost predicate CleanFrom(cs: bool, v: Value, path: seq<string>, k: nat)
    requires v.Object? && KeepsMembers(path)
  {
    forall j :: k <= j < |v.members| ==> Clean(cs, v.members[j].value, SubPath(cs, v, path, j))
  }

  /** If one object ends after member `k`, so does the other, in the same way. */
  lemma LastMember(lex: Lexicon, cs: bool, v: Value, path: seq<string>, w: Value, k: nat, r: string, s: string)
    requires Reader(lex) && WellFormed(lex, v) && WellFormed(lex, w) && KeepsMembers(path)
    requires v.Object? && w.Object? && k < |v.members| && k < |w.members|
        && (k + 1 == |v.members| || k + 1 == |w.members|)
    requires var t, u := TailOf(cs, v, path, k), TailOf(cs, w, [], k);
      t.trivia == u.trivia && t.mark == u.mark && t.rest + r == u.rest + s
    ensures TailOf(cs, v, path, k) == TailOf(cs, w, [], k) && r == s && k + 1 == |v.members|
  {
    MemberIsProper(lex, v, k);
    MemberIsProper(lex, w, k);
    if k + 1 < |v.members| {
      if w.comma { MemberIsNoEnd(lex, cs, v, path, k + 1, r, w.tail, s); }
    } else if k + 1 < |w.members| {
      if v.comma { MemberIsNoEnd(lex, cs, w, [], k + 1, s, v.tail, r); }
    } else if v.comma && w.comma {
      EndsAgree(lex, v.tail, r, w.tail, s);
    } else {
      assert "" + r == r && "" + s == s;
    }
  }

  /** One member: its text up to the mark behind its value is the same in both objects. */
  lemma {:induction false} ReadMember(lex: Lexicon, cs: bool, v: Value, path: seq<string>, w: Value, k: nat, r: string,
      s: string)
    requires Reader(lex) && WellFormed(lex, v) && WellFormed(lex, w) && KeepsMembers(path)
    requires v.Object? && w.Object? && k < |v.members| && k < |w.members|
    requires TextFrom(cs, v, path, k) + r == TextFrom(cs, w, [], k) + s
    ensures Head(v.members[k]) == Head(w.members[k]) && Piece(cs, v, path, k) == Piece(cs, w, [], k)
    ensures Clean(cs, v.members[k].value, SubPath(cs, v, path, k))
    ensures var t, u := TailOf(cs, v, path, k), TailOf(cs, w, [], k);
      t.trivia == u.trivia && t.mark == u.mark && t.rest + r == u.rest + s
    decreases |path|, v, 0
  {
    var t, u := TailOf(cs, v, path, k), TailOf(cs, w, [], k);
    HeadsAgree(lex, cs, v, path, w, k, r, s);
    TailIsProper(lex, cs, v, path, k, r);
    TailIsProper(lex, cs, w, [], k, s);
    MemberIsProper(lex, v, k);
    MemberIsProper(lex, w, k);
    ReadValue(lex, cs, v.members[k].value, SubPath(cs, v, path, k), w.members[k].value, Joined(t) + r, Joined(u) + s);
    TailsAgree(lex, t, r, u, s);
  }

  /** Two objects with the same head, value and tail at member `k` have the same text from there. */
  lemma SameFrom(cs: bool, v: Value, path: seq<string>, w: Value, k: nat)
    requires v.Object? && w.Object? && k < |v.members| && k < |w.members| && KeepsMembers(path)
    requires Head(v.members[k]) == Head(w.members[k]) && Piece(cs, v, path, k) == Piece(cs, w, [], k)
    requires TailOf(cs, v, path, k) == TailOf(cs, w, [], k)
    ensures TextFrom(cs, v, path, k) == TextFrom(cs, w, [], k)
  {
  }

  lemma {:induction false} ReadMembers(lex: Lexicon, cs: bool, v: Value, path: seq<string>, w: Value, k: nat,
      r: string, s: string)
    requires Reader(lex) && WellFormed(lex, v) && WellFormed(lex, w) && KeepsMembers(path)
    requires v.Object? && w.Object? && k < |v.members| && k < |w.members|
    requires TextFrom(cs, v, path, k) + r == TextFrom(cs, w, [], k) + s
    ensures TextFrom(cs, v, path, k) == TextFrom(cs, w, [], k) && r == s && CleanFrom(cs, v, path, k)
    decreases |path|, v, 1, |v.members| - k
  {
    ReadMember(lex, cs, v, path, w, k, r, s);
    if k + 1 < |v.members| && k + 1 < |w.members| {
      ReadMembers(lex, cs, v, path, w, k + 1, r, s);
      SameTail(cs, v, path, w, k);
    } else {
      LastMember(lex, cs, v, path, w, k, r, s);
    }
    SameFrom(cs, v, path, w, k);
    CleanOneMore(cs, v, path, k);
  }

  lemma SameTail(cs: bool, v: Value, path: seq<string>, w: Value, k: nat)
    requires v.Object? && w.Object? && k + 1 < |v.members| && k + 1 < |w.members| && KeepsMembers(path)
    requires TailOf(cs, v, path, k).trivia == TailOf(cs, w, [], k).trivia
    requires TextFrom(cs, v, path, k + 1) == TextFrom(cs, w, [], k + 1)
    ensures TailOf(cs, v, path, k) == TailOf(cs, w, [], k)
  {
  }

  lemma CleanOneMore(cs: bool, v: Value, path: seq<string>, k: nat)
    requires v.Object? && k < |v.members| && KeepsMembers(path)
    requires Clean(cs, v.members[k].value, SubPath(cs, v, path, k))
    requires k + 1 == |v.members| || CleanFrom(cs, v, path, k + 1)
    ensures CleanFrom(cs, v, path, k)
  {
  }

  lemma FourStrings(h: string, x: string, t: string, r: string)
    ensures (h + (x + t)) + r == h + (x + (t + r))
  {
  }

  lemma HeadsAgree(lex: Lexicon, cs: bool, v: Value, path: seq<string>, w: Value, k: nat, r: string, s: string)
    requires Reader(lex) && WellFormed(lex, v) && WellFormed(lex, w) && KeepsMembers(path)
    requires v.Object? && w.Object? && k < |v.members| && k < |w.members|
    requires TextFrom(cs, v, path, k) + r == TextFrom(cs, w, [], k) + s
    ensures Head(v.members[k]) == Head(w.members[k])
    ensures Piece(cs, v, path, k) + (Joined(TailOf(cs, v, path, k)) + r)
        == Piece(cs, w, [], k) + (Joined(TailOf(cs, w, [], k)) + s)
  {
    MemberIsProper(lex, v, k);
    MemberIsProper(lex, w, k);
    var t, u := Joined(TailOf(cs, v, path, k)), Joined(TailOf(cs, w, [], k));
    LeftStarts(lex, cs, v.members[k].value, SubPath(cs, v, path, k), t + r);
    LeftStarts(lex, cs, w.members[k].value, [], u + s);
    FourStrings(Head(v.members[k]), Piece(cs, v, path, k), t, r);
    FourStrings(Head(w.members[k]), Piece(cs, w, [], k), u, s);
    PiecesAgree(lex, v.members[k], Piece(cs, v, path, k) + (t + r), w.members[k], Piece(cs, w, [], k) + (u + s));
  }

  lemma PiecesAgree(lex: Lexicon, m: Member, x: string, n: Member, y: string)
    requires Reader(lex) && IsHead(lex, m) && IsHead(lex, n) && StartsValue(lex, x) && StartsValue(lex, y)
    requires Head(m) + x == Head(n) + y
    ensures Head(m) == Head(n) && x == y
  {
    assert SameHead(lex, m, x, n, y);
    DropFront(Head(m), x, y);
  }

  // Values

  lemma EmptyText(lex: Lexicon, v: Value)
    requires WellFormed(lex, v) && v.Object? && v.members == []
    ensures Print(v) == "{" + (v.tail + "}") && lex.trivia(v.tail)
  {
    assert "{" + "" + "" + v.tail + "}" == "{" + (v.tail + "}");
  }

  lemma {:induction false} ReadObject(lex: Lexicon, cs: bool, v: Value, path: seq<string>, w: Value, r: string,
      s: string)
    requires Reader(lex) && WellFormed(lex, v) && WellFormed(lex, w) && v.Object? && w.Object? && KeepsMembers(path)
    requires Left(cs, v, path) + r == Print(w) + s
    ensures Left(cs, v, path) == Print(w) && r == s && Clean(cs, v, path)
    decreases |path|, v, 2
  {
    if v.members == [] { EmptyText(lex, v); } else { LeftIsText(cs, v, path); }
    if w.members == [] { EmptyText(lex, w); } else { LeftIsText(cs, w, []); }
    var x := if v.members == [] then v.tail + "}" else TextFrom(cs, v, path, 0);
    var y := if w.members == [] then w.tail + "}" else TextFrom(cs, w, [], 0);
    BehindBrace(x, r, y, s);
    if v.members == [] && w.members == [] {
      EndsAgree(lex, v.tail, r, w.tail, s);
    } else if w.members == [] {
      MemberIsNoEnd(lex, cs, v, path, 0, r, w.tail, s);
    } else if v.members == [] {
      MemberIsNoEnd(lex, cs, w, [], 0, s, v.tail, r);
    } else {
      ReadMembers(lex, cs, v, path, w, 0, r, s);
      assert |path| > 1 ==>
          forall k :: 0 <= k < |v.members| && Hit(cs, v, path, k) ==> SubPath(cs, v, path, k) == path[1..];
    }
  }

  lemma BehindBrace(x: string, r: string, y: string, s: string)
    requires ("{" + x) + r == ("{" + y) + s
    ensures x + r == y + s
  {
    assert ("{" + x) + r == "{" + (x + r) && ("{" + y) + s == "{" + (y + s);
    DropFront("{", x + r, y + s);
  }

  /** An object that starts badly starts with a comma, as no object does. */
  lemma BadStartReadsAsNothing(lex: Lexicon, cs: bool, v: Value, path: seq<string>, w: Value, r: string, s: string)
    requires Reader(lex) && WellFormed(lex, v) && WellFormed(lex, w) && v.Object? && w.Object?
    requires |path| == 1 && BadStart(cs, v, path)
    ensures Left(cs, v, path) + r != Print(w) + s
  {
    var t, x := BadStartText(lex, cs, v, path);
    ThreeStrings(t, ",", x, r);
    if w.members == [] {
      EmptyText(lex, w);
      ThreeStrings(w.tail, "}", "", s);
      assert SameTrail(lex, t, ",", x + r, w.tail, "}", "" + s);
      NotBehindBrace(t + ("," + x), r, w.tail + "}", s);
    } else {
      LeftIsText(cs, w, []);
      MemberIsNoComma(lex, cs, w, s, t, x + r);
      NotBehindBrace(t + ("," + x), r, TextFrom(cs, w, [], 0), s);
    }
  }

  lemma NotBehindBrace(x: string, r: string, y: string, s: string)
    requires x + r != y + s
    ensures ("{" + x) + r != ("{" + y) + s
  {
    if ("{" + x) + r == ("{" + y) + s { BehindBrace(x, r, y, s); }
  }

  lemma MemberIsNoComma(lex: Lexicon, cs: bool, w: Value, s: string, t: string, x: string)
    requires Reader(lex) && WellFormed(lex, w) && w.Object? && w.members != [] && lex.trivia(t)
    ensures TextFrom(cs, w, [], 0) + s != t + ("," + x)
  {
    MemberIsProper(lex, w, 0);
    var y, u := Piece(cs, w, [], 0), Joined(TailOf(cs, w, [], 0));
    LeftStarts(lex, cs, w.members[0].value, [], u + s);
    FourStrings(Head(w.members[0]), y, u, s);
    assert HeadIsNoEnd(lex, w.members[0], y + (u + s), t, ",", x);
  }

  /** Behind the brace of an object that starts badly come trivia and a comma. */
  lemma BadStartText(lex: Lexicon, cs: bool, v: Value, path: seq<string>) returns (t: string, x: string)
    requires Scans(lex) && WellFormed(lex, v) && v.Object? && |path| == 1 && BadStart(cs, v, path)
    ensures lex.trivia(t) && Left(cs, v, path) == "{" + (t + ("," + x))
  {
    var lead, after := v.members[0].lead, After(cs, v, path, 1);
    AfterReads(cs, v, path, 1);
    NoStraysBelow(cs, v, path, 1);
    AfterIsEmpty(cs, v, path, 1);
    AfterIsProper(lex, cs, v, path, 1);
    var rest := CommaBefore(after.rest) + Ending(v);
    assert rest != "" && rest[0] == ',';
    t, x := lead + after.trail, rest[1..];
    assert Joins(lex, lead, after.trail);
    CommaStarts(lead, after.trail, CommaBefore(after.rest), Ending(v), x);
  }

  lemma CommaStarts(lead: string, t: string, c: string, e: string, x: string)
    requires c + e == "," + x
    ensures "{" + lead + (t + c + e) == "{" + ((lead + t) + ("," + x))
  {
    assert t + c + e == t + (c + e);
  }

  /**
   If what is left of a value starts as a well-formed value does, it is that value's text, and nothing on the path
   started badly.
   */
  lemma {:induction false} ReadValue(lex: Lexicon, cs: bool, v: Value, path: seq<string>, w: Value, r: string,
      s: string)
    requires Reader(lex) && WellFormed(lex, v) && WellFormed(lex, w) && Follows(lex, r) && Follows(lex, s)
    requires Left(cs, v, path) + r == Print(w) + s
    ensures Left(cs, v, path) == Print(w) && r == s && Clean(cs, v, path)
    decreases |path|, v, 3
  {
    LeftStarts(lex, cs, v, path, r);
    LeftStarts(lex, cs, w, [], s);
    assert (Left(cs, v, path) + r)[0] == Left(cs, v, path)[0] && (Print(w) + s)[0] == Print(w)[0];
    if v.Leaf? {
      assert SameLeaf(lex, v.text, r, w.text, s);
      DropFront(v.text, r, s);
    } else if |path| != 1 {
      ReadObject(lex, cs, v, path, w, r, s);
    } else if BadStart(cs, v, path) {
      BadStartReadsAsNothing(lex, cs, v, path, w, r, s);
    } else {
      CutTextIsRightIff(cs, v, path);
      RemovedIsWellFormed(lex, cs, v, path);
      ReadObject(lex, cs, Removed(cs, v, path), [], w, r, s);
    }
  }

  /** What is left is the text of some well-formed value exactly if nothing on the path started badly. */
  lemma ReadableIff(lex: Lexicon, cs: bool, v: Value, path: seq<string>)
    requires Reader(lex) && WellFormed(lex, v)
    ensures (exists w :: WellFormed(lex, w) && Print(w) == Left(cs, v, path)) <==> Clean(cs, v, path)
  {
    if Clean(cs, v, path) {
      CutTextIsRightIff(cs, v, path);
      RemovedIsWellFormed(lex, cs, v, path);
    }
    forall w | WellFormed(lex, w) && Print(w) == Left(cs, v, path) ensures Clean(cs, v, path) {
      ReadValue(lex, cs, v, path, w, "", "");
    }
  }

  /** And no two well-formed values have the same text unless they print alike; in particular reading is unambiguous. */
  lemma ReadingIsUnambiguous(lex: Lexicon, v: Value, r: string, w: Value, s: string)
    requires Reader(lex) && WellFormed(lex, v) && WellFormed(lex, w) && Follows(lex, r) && Follows(lex, s)
    requires Print(v) + r == Print(w) + s
    ensures Print(v) == Print(w) && r == s
  {
    ReadValue(lex, true, v, [], w, r, s);
  }
}
