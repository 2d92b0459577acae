/**
 What removing a path does to the meaning of a JSONC document. The tree the cut text should be the text
 of is built member by member; its meaning is compared with plain removal on values without any
 layout, and the text is compared with its printed form.
 */
module UnsetPath {
  import opened Basics
  import opened Jsonc
  import opened UnsetText

  /** JSON without layout: objects are lists of fields, in order, names may repeat. */
  datatype Json = Atom(text: string) | Fields(fields: seq<Field>)
  datatype Field = Field(name: string, value: Json)

  function Meaning(v: Value): Json
    decreases v, 1
  {
    match v
    case Leaf(text) => Atom(text)
    case Object(members, _, _) => Fields(MeaningOf(members))
  }

  function MeaningOf(ms: seq<Member>): seq<Field>
    decreases ms, 2
  {
    if ms == [] then [] else [Field(ms[0].name, Meaning(ms[0].value))] + MeaningOf(ms[1..])
  }

  /** Every field a path leads to is dropped, all others stay where they are. */
  function Without(cs: bool, j: Json, path: seq<string>): Json
    decreases |path|, 1
  {
    if path == [] || j.Atom? then j else Fields(WithoutFields(cs, j.fields, path))
  }

  function WithoutFields(cs: bool, fields: seq<Field>, path: seq<string>): seq<Field>
    requires path != []
    decreases |path|, 0, |fields|
  {
    if fields == [] then [] else
    var f, rest := fields[0], WithoutFields(cs, fields[1..], path);
    if !Named(cs, f.name, path[0]) then [f] + rest
    else if |path| == 1 then rest
    else [f.(value := Without(cs, f.value, path[1..]))] + rest
  }

  ghost predicate Occurs(cs: bool, j: Json, path: seq<string>)
    decreases |path|
  {
    path == [] ||
    (j.Fields? && exists i ::
        0 <= i < |j.fields| && Named(cs, j.fields[i].name, path[0]) && Occurs(cs, j.fields[i].value, path[1..]))
  }

  // The tree that should be left

  function NewValue(cs: bool, v: Value, path: seq<string>, k: nat): Value
    requires v.Object? && path != [] && k < |v.members|
    decreases |path|, 0
  {
    if |path| > 1 && Hit(cs, v, path, k) then Removed(cs, v.members[k].value, path[1..]) else v.members[k].value
  }

  /** The trivia after a kept member, and the members that follow it. */
  datatype Tail = Tail(trail: string, rest: seq<Member>)

  function Kept(cs: bool, v: Value, path: seq<string>, k: nat, lead: string, after: Tail): Member
    requires v.Object? && path != [] && k < |v.members|
    decreases |path|, 1
  {
    v.members[k].(lead := lead, value := NewValue(cs, v, path, k), trail := after.trail)
  }

  /** What follows member `k - 1`. */
  function After(cs: bool, v: Value, path: seq<string>, k: nat): Tail
    requires v.Object? && path != [] && 0 < k <= |v.members|
    decreases |path|, 2, |v.members| - k
  {
    if k == |v.members| then Tail(v.members[k - 1].trail, [])
    else if !Goes(cs, v, path, k) then
      var after := After(cs, v, path, k + 1);
      Tail(v.members[k - 1].trail, [Kept(cs, v, path, k, v.members[k].lead, after)] + after.rest)
    else if k + 1 < |v.members| && !Goes(cs, v, path, k + 1) then
      var after := After(cs, v, path, k + 2);
      Tail("", [Kept(cs, v, path, k + 1, "", after)] + after.rest)
    else After(cs, v, path, k + 1)
  }

  function Removed(cs: bool, v: Value, path: seq<string>): Value
    decreases |path|, 3
  {
    if path == [] || v.Leaf? || v.members == [] then v
    else
      var lead := v.members[0].lead;
      if !Goes(cs, v, path, 0) then
        var after := After(cs, v, path, 1);
        v.(members := [Kept(cs, v, path, 0, lead, after)] + after.rest)
      else if 1 < |v.members| && !Goes(cs, v, path, 1) then
        var after := After(cs, v, path, 2);
        v.(members := [Kept(cs, v, path, 1, lead, after)] + after.rest)
      else
        var after := After(cs, v, path, 1);
        if after.rest == [] then Object([], false, lead + after.trail + v.tail)
        else v.(members := [after.rest[0].(lead := lead + after.trail + after.rest[0].lead)] + after.rest[1..])
  }

  // Its meaning

  lemma {:induction false} AfterMeans(cs: bool, v: Value, path: seq<string>, k: nat)
    requires v.Object? && path != [] && 0 < k <= |v.members|
    ensures MeaningOf(After(cs, v, path, k).rest) == WithoutFields(cs, MeaningOf(v.members[k..]), path)
    decreases |path|, 2, |v.members| - k
  {
    if k < |v.members| {
      FieldsFrom(v, k);
      if !Goes(cs, v, path, k) {
        AfterMeans(cs, v, path, k + 1);
        KeptMeans(cs, v, path, k);
        var rest := After(cs, v, path, k).rest;
        assert rest[1..] == After(cs, v, path, k + 1).rest;
      } else if k + 1 < |v.members| && !Goes(cs, v, path, k + 1) {
        AfterMeans(cs, v, path, k + 2);
        FieldsFrom(v, k + 1);
        KeptMeans(cs, v, path, k + 1);
        var rest := After(cs, v, path, k).rest;
        assert rest[1..] == After(cs, v, path, k + 2).rest;
      } else {
        AfterMeans(cs, v, path, k + 1);
      }
    }
  }

  lemma FieldsFrom(v: Value, k: nat)
    requires v.Object? && k < |v.members|
    ensures var fields := MeaningOf(v.members[k..]);
      && fields != [] && fields[0] == Field(v.members[k].name, Meaning(v.members[k].value))
      && fields[1..] == MeaningOf(v.members[k + 1..])
  {
    assert v.members[k..][0] == v.members[k] && v.members[k..][1..] == v.members[k + 1..];
  }

  lemma {:induction false} KeptMeans(cs: bool, v: Value, path: seq<string>, k: nat)
    requires v.Object? && path != [] && k < |v.members| && !Goes(cs, v, path, k)
    ensures Hit(cs, v, path, k) ==>
        Meaning(NewValue(cs, v, path, k)) == Without(cs, Meaning(v.members[k].value), path[1..])
    ensures !Hit(cs, v, path, k) ==> NewValue(cs, v, path, k) == v.members[k].value
    decreases |path|, 0
  {
    if Hit(cs, v, path, k) { RemovedMeans(cs, v.members[k].value, path[1..]); }
  }

  /** The tree left over means exactly the old value without every occurrence of the path. */
  lemma {:induction false} RemovedMeans(cs: bool, v: Value, path: seq<string>)
    ensures Meaning(Removed(cs, v, path)) == Without(cs, Meaning(v), path)
    decreases |path|, 3
  {
    if path != [] && v.Object? && v.members != [] {
      FieldsFrom(v, 0);
      assert v.members[0..] == v.members;
      var left := Removed(cs, v, path).members;
      if !Goes(cs, v, path, 0) {
        AfterMeans(cs, v, path, 1);
        KeptMeans(cs, v, path, 0);
        assert left[1..] == After(cs, v, path, 1).rest;
      } else if 1 < |v.members| && !Goes(cs, v, path, 1) {
        AfterMeans(cs, v, path, 2);
        FieldsFrom(v, 1);
        KeptMeans(cs, v, path, 1);
        assert WithoutFields(cs, MeaningOf(v.members), path) == WithoutFields(cs, MeaningOf(v.members[1..]), path);
        assert left[1..] == After(cs, v, path, 2).rest;
      } else {
        AfterMeans(cs, v, path, 1);
        var rest := After(cs, v, path, 1).rest;
        if rest != [] { assert left[1..] == rest[1..]; }
      }
    }
  }

  // What the cut text reads as

  /** How many commas too many the cut leaves in an object that loses members of its own. */
  predicate BadStart(cs: bool, v: Value, path: seq<string>)
    requires v.Object? && |path| == 1
  {
    && v.members != [] && Goes(cs, v, path, 0)
    && (1 < |v.members| ==> Goes(cs, v, path, 1))
    && (v.comma || exists k :: 0 <= k < |v.members| && !Goes(cs, v, path, k))
  }

  /**
   No object that the path leads to starts with two members of the name followed by another one, and
   none loses all its members but has a trailing comma.
   */
  ghost predicate Clean(cs: bool, v: Value, path: seq<string>)
    decreases |path|
  {
    v.Object? && path != [] ==>
      if |path| == 1 then !BadStart(cs, v, path)
      else forall k :: 0 <= k < |v.members| && Hit(cs, v, path, k) ==> Clean(cs, v.members[k].value, path[1..])
  }

  /** The number of stray commas. */
  function Strays(cs: bool, v: Value, path: seq<string>): nat
    decreases |path|, 2
  {
    if path == [] || v.Leaf? then 0
    else if |path| == 1 then if BadStart(cs, v, path) then 1 else 0
    else StraysFrom(cs, v, path, 0)
  }

  function StraysAt(cs: bool, v: Value, path: seq<string>, k: nat): nat
    requires v.Object? && path != [] && k < |v.members|
    decreases |path|, 0
  {
    if |path| > 1 && Hit(cs, v, path, k) then Strays(cs, v.members[k].value, path[1..]) else 0
  }

  function StraysFrom(cs: bool, v: Value, path: seq<string>, k: nat): nat
    requires v.Object? && path != [] && k <= |v.members|
    decreases |path|, 1, |v.members| - k
  {
    if k == |v.members| then 0 else StraysAt(cs, v, path, k) + StraysFrom(cs, v, path, k + 1)
  }

  lemma {:induction false} NoStraysBelow(cs: bool, v: Value, path: seq<string>, k: nat)
    requires v.Object? && |path| == 1 && k <= |v.members|
    ensures StraysFrom(cs, v, path, k) == 0
    decreases |v.members| - k
  {
    if k < |v.members| { NoStraysBelow(cs, v, path, k + 1); }
  }

  lemma {:induction false} CleanFrom(cs: bool, v: Value, path: seq<string>, k: nat)
    requires v.Object? && |path| > 1 && k <= |v.members|
    ensures StraysFrom(cs, v, path, k) == 0
       <==> forall i :: k <= i < |v.members| && Hit(cs, v, path, i) ==> Clean(cs, v.members[i].value, path[1..])
    decreases |path|, 0, |v.members| - k
  {
    if k < |v.members| {
      CleanFrom(cs, v, path, k + 1);
      CleanIsStrayless(cs, v.members[k].value, path[1..]);
    }
  }

  lemma {:induction false} CleanIsStrayless(cs: bool, v: Value, path: seq<string>)
    ensures Clean(cs, v, path) <==> Strays(cs, v, path) == 0
    decreases |path|, 1
  {
    if v.Object? && |path| > 1 { CleanFrom(cs, v, path, 0); }
  }

  /** `text` is `printed` with `strays` characters more. */
  predicate Reads(text: string, printed: string, strays: nat) {
    |text| == |printed| + strays && (strays == 0 ==> text == printed)
  }

  function TailText(v: Value, after: Tail): string
    requires v.Object?
  {
    after.trail + CommaBefore(after.rest) + Ending(v)
  }

  lemma {:induction false} CoreReads(cs: bool, v: Value, path: seq<string>, k: nat, lead: string, after: Tail)
    requires v.Object? && path != [] && k < |v.members| && !Goes(cs, v, path, k)
    ensures Reads(NewCore(cs, v, path, k), PrintCore(Kept(cs, v, path, k, lead, after)), StraysAt(cs, v, path, k))
    decreases |path|, 0
  {
    if Hit(cs, v, path, k) { RemovedReads(cs, v.members[k].value, path[1..]); }
  }

  lemma JoinReads(trail: string, lead: string, core: string, core': string, m: nat, rest: string, after: Tail,
      v: Value, n: nat)
    requires Reads(core, core', m) && v.Object? && Reads(rest, TailText(v, after), n)
    ensures Reads(trail + "," + lead + core + rest,
                  trail + ("," + (lead + core' + after.trail) + CommaBefore(after.rest)) + Ending(v), m + n)
    ensures Reads("{" + lead + core + rest, "{" + ((lead + core' + after.trail) + CommaBefore(after.rest)) + Ending(v),
        m + n)
  {
    JoinStrings(trail, lead, core', after.trail, CommaBefore(after.rest), Ending(v));
  }

  lemma JoinStrings(trail: string, lead: string, core: string, t: string, c: string, e: string)
    ensures trail + "," + lead + core + (t + c + e) == trail + ("," + (lead + core + t) + c) + e
    ensures "{" + lead + core + (t + c + e) == "{" + ((lead + core + t) + c) + e
  {
  }

  lemma FirstComma(m: Member, rest: seq<Member>)
    ensures CommaBefore([m] + rest) == "," + PrintMember(m) + CommaBefore(rest)
    ensures PrintMembers([m] + rest) == PrintMember(m) + CommaBefore(rest)
  {
    assert ([m] + rest)[1..] == rest;
  }

  lemma {:induction false} AfterReads(cs: bool, v: Value, path: seq<string>, k: nat)
    requires v.Object? && path != [] && 0 < k <= |v.members|
    ensures Reads(Rest(cs, v, path, k), TailText(v, After(cs, v, path, k)), StraysFrom(cs, v, path, k))
    decreases |path|, 2, |v.members| - k
  {
    if k == |v.members| {
      var t := v.members[k - 1].trail;
      assert t + "" + Ending(v) == t + Ending(v);
    } else if !Goes(cs, v, path, k) {
      AfterReads(cs, v, path, k + 1);
      KeptReads(cs, v, path, k, v.members[k - 1].trail, v.members[k].lead, After(cs, v, path, k + 1));
    } else if k + 1 < |v.members| && !Goes(cs, v, path, k + 1) {
      AfterReads(cs, v, path, k + 2);
      KeptReads(cs, v, path, k + 1, "", "", After(cs, v, path, k + 2));
      assert "" + "," + "" + NewCore(cs, v, path, k + 1) == "," + NewCore(cs, v, path, k + 1);
    } else {
      AfterReads(cs, v, path, k + 1);
    }
  }

  /** One kept member in front of a tail. */
  lemma {:induction false} KeptReads(cs: bool, v: Value, path: seq<string>, k: nat, trail: string, lead: string,
      after: Tail)
    requires v.Object? && path != [] && 0 < k < |v.members| && !Goes(cs, v, path, k)
    requires Reads(Rest(cs, v, path, k + 1), TailText(v, after), StraysFrom(cs, v, path, k + 1))
    ensures Reads(trail + "," + lead + NewCore(cs, v, path, k) + Rest(cs, v, path, k + 1),
                  TailText(v, Tail(trail, [Kept(cs, v, path, k, lead, after)] + after.rest)),
                  StraysFrom(cs, v, path, k))
    decreases |path|, 1
  {
    var kept := Kept(cs, v, path, k, lead, after);
    CoreReads(cs, v, path, k, lead, after);
    FirstComma(kept, after.rest);
    JoinReads(trail, lead, NewCore(cs, v, path, k), PrintCore(kept), StraysAt(cs, v, path, k),
              Rest(cs, v, path, k + 1), after, v, StraysFrom(cs, v, path, k + 1));
  }

  /** The first member that stays, behind the brace. */
  lemma {:induction false} FirstReads(cs: bool, v: Value, path: seq<string>, k: nat, after: Tail)
    requires v.Object? && path != [] && k < |v.members| && !Goes(cs, v, path, k)
    requires Reads(Rest(cs, v, path, k + 1), TailText(v, after), StraysFrom(cs, v, path, k + 1))
    ensures var lead := v.members[0].lead;
      Reads("{" + lead + NewCore(cs, v, path, k) + Rest(cs, v, path, k + 1),
            Print(v.(members := [Kept(cs, v, path, k, lead, after)] + after.rest)), StraysFrom(cs, v, path, k))
    decreases |path|, 1
  {
    var lead := v.members[0].lead;
    var kept := Kept(cs, v, path, k, lead, after);
    CoreReads(cs, v, path, k, lead, after);
    FirstComma(kept, after.rest);
    PrintObject(v.(members := [kept] + after.rest));
    JoinReads("", lead, NewCore(cs, v, path, k), PrintCore(kept), StraysAt(cs, v, path, k),
              Rest(cs, v, path, k + 1), after, v, StraysFrom(cs, v, path, k + 1));
  }

  lemma {:induction false} AfterIsEmpty(cs: bool, v: Value, path: seq<string>, k: nat)
    requires v.Object? && path != [] && 0 < k <= |v.members|
    ensures After(cs, v, path, k).rest == [] <==> forall i :: k <= i < |v.members| ==> Goes(cs, v, path, i)
    decreases |v.members| - k
  {
    if k < |v.members| && Goes(cs, v, path, k) { AfterIsEmpty(cs, v, path, k + 1); }
  }

  /** The object starts with members that go, up to its end or to one that goes as well. */
  lemma GoneReads(cs: bool, v: Value, path: seq<string>)
    requires v.Object? && |path| == 1 && v.members != [] && Goes(cs, v, path, 0)
    requires 1 < |v.members| ==> Goes(cs, v, path, 1)
    requires Rest(cs, v, path, 1) == TailText(v, After(cs, v, path, 1))
    ensures Reads(Left(cs, v, path), Print(Removed(cs, v, path)), Strays(cs, v, path))
  {
    var lead, after := v.members[0].lead, After(cs, v, path, 1);
    AfterIsEmpty(cs, v, path, 1);
    assert Left(cs, v, path) == "{" + lead + TailText(v, after);
    if after.rest == [] {
      assert Print(Removed(cs, v, path)) == "{" + "" + "" + (lead + after.trail + v.tail) + "}";
      EmptyStrings(lead, after.trail, v.tail);
    } else {
      var first := after.rest[0].(lead := lead + after.trail + after.rest[0].lead);
      FirstComma(first, after.rest[1..]);
      FirstComma(after.rest[0], after.rest[1..]);
      assert [after.rest[0]] + after.rest[1..] == after.rest;
      PrintObject(v.(members := [first] + after.rest[1..]));
    }
  }

  lemma EmptyStrings(lead: string, t: string, tail: string)
    ensures "{" + lead + (t + "" + ("" + tail + "}")) == "{" + "" + "" + (lead + t + tail) + "}"
  {
  }

  /** The text left over is the printed tree with some commas too many. */
  lemma {:induction false} RemovedReads(cs: bool, v: Value, path: seq<string>)
    ensures Reads(Left(cs, v, path), Print(Removed(cs, v, path)), Strays(cs, v, path))
    decreases |path|, 3
  {
    if path != [] && v.Object? && v.members != [] {
      if !Goes(cs, v, path, 0) {
        AfterReads(cs, v, path, 1);
        FirstReads(cs, v, path, 0, After(cs, v, path, 1));
        if |path| == 1 { NoStraysBelow(cs, v, path, 0); }
      } else if 1 < |v.members| && !Goes(cs, v, path, 1) {
        AfterReads(cs, v, path, 2);
        FirstReads(cs, v, path, 1, After(cs, v, path, 2));
        NoStraysBelow(cs, v, path, 1);
      } else {
        AfterReads(cs, v, path, 1);
        NoStraysBelow(cs, v, path, 1);
        GoneReads(cs, v, path);
      }
    }
  }

  /** The cut text is the text of the tree left over exactly for inputs without a bad start. */
  lemma CutTextIsRightIff(cs: bool, v: Value, path: seq<string>)
    ensures Left(cs, v, path) == Print(Removed(cs, v, path)) <==> Clean(cs, v, path)
  {
    RemovedReads(cs, v, path);
    CleanIsStrayless(cs, v, path);
  }

  // Well-formed again

  ghost predicate Joins(lex: Lexicon, t: string, u: string) {
    lex.trivia(t) && lex.trivia(u) ==> lex.trivia(t + u)
  }

  /** Nothing is trivia, and trivia can be joined. */
  ghost predicate Scans(lex: Lexicon) {
    lex.trivia("") && forall t, u :: Joins(lex, t, u)
  }

  ghost predicate Proper(lex: Lexicon, m: Member) {
    lex.trivia(m.lead) && lex.trivia(m.trail) && lex.key(m.key, m.name) && lex.sep(m.sep) && WellFormed(lex, m.value)
  }

  ghost predicate AllProper(lex: Lexicon, ms: seq<Member>) {
    forall i :: 0 <= i < |ms| ==> Proper(lex, ms[i])
  }

  lemma MembersAreProper(lex: Lexicon, v: Value)
    requires v.Object?
    ensures WellFormed(lex, v) <==> (v.comma ==> v.members != []) && lex.trivia(v.tail) && AllProper(lex, v.members)
  {
  }

  lemma {:induction false} AfterIsProper(lex: Lexicon, cs: bool, v: Value, path: seq<string>, k: nat)
    requires v.Object? && path != [] && 0 < k <= |v.members| && WellFormed(lex, v) && Scans(lex)
    ensures lex.trivia(After(cs, v, path, k).trail) && AllProper(lex, After(cs, v, path, k).rest)
    decreases |path|, 1, |v.members| - k
  {
    if k < |v.members| {
      if !Goes(cs, v, path, k) {
        AfterIsProper(lex, cs, v, path, k + 1);
        KeptIsProper(lex, cs, v, path, k, v.members[k].lead, After(cs, v, path, k + 1));
      } else if k + 1 < |v.members| && !Goes(cs, v, path, k + 1) {
        AfterIsProper(lex, cs, v, path, k + 2);
        KeptIsProper(lex, cs, v, path, k + 1, "", After(cs, v, path, k + 2));
      } else {
        AfterIsProper(lex, cs, v, path, k + 1);
      }
    }
  }

  lemma {:induction false} KeptIsProper(lex: Lexicon, cs: bool, v: Value, path: seq<string>, k: nat, lead: string,
      after: Tail)
    requires v.Object? && path != [] && k < |v.members| && WellFormed(lex, v) && Scans(lex)
    requires lex.trivia(lead) && lex.trivia(after.trail)
    ensures Proper(lex, Kept(cs, v, path, k, lead, after))
    decreases |path|, 0
  {
    if |path| > 1 && Hit(cs, v, path, k) { RemovedIsWellFormed(lex, cs, v.members[k].value, path[1..]); }
  }

  lemma {:induction false} RemovedIsWellFormed(lex: Lexicon, cs: bool, v: Value, path: seq<string>)
    requires WellFormed(lex, v) && Scans(lex)
    ensures WellFormed(lex, Removed(cs, v, path))
    decreases |path|, 2
  {
    if path != [] && v.Object? && v.members != [] {
      var lead := v.members[0].lead;
      if !Goes(cs, v, path, 0) {
        AfterIsProper(lex, cs, v, path, 1);
        KeptIsProper(lex, cs, v, path, 0, lead, After(cs, v, path, 1));
      } else if 1 < |v.members| && !Goes(cs, v, path, 1) {
        AfterIsProper(lex, cs, v, path, 2);
        KeptIsProper(lex, cs, v, path, 1, lead, After(cs, v, path, 2));
      } else {
        AfterIsProper(lex, cs, v, path, 1);
        GoneIsWellFormed(lex, cs, v, path);
      }
      MembersAreProper(lex, Removed(cs, v, path));
    }
  }

  lemma GoneIsWellFormed(lex: Lexicon, cs: bool, v: Value, path: seq<string>)
    requires WellFormed(lex, v) && Scans(lex) && path != [] && v.Object? && v.members != [] && Goes(cs, v, path, 0)
    requires 1 < |v.members| ==> Goes(cs, v, path, 1)
    requires lex.trivia(After(cs, v, path, 1).trail) && AllProper(lex, After(cs, v, path, 1).rest)
    ensures WellFormed(lex, Removed(cs, v, path))
  {
    var lead, after := v.members[0].lead, After(cs, v, path, 1);
    assert Joins(lex, lead, after.trail);
    if after.rest == [] {
      assert Joins(lex, lead + after.trail, v.tail);
    } else {
      assert Joins(lex, lead + after.trail, after.rest[0].lead);
      assert Proper(lex, after.rest[0]);
    }
    MembersAreProper(lex, Removed(cs, v, path));
  }

  // Which paths occur

  lemma {:induction false} MeaningAt(ms: seq<Member>, i: nat)
    requires i < |ms|
    ensures |MeaningOf(ms)| == |ms| && MeaningOf(ms)[i] == Field(ms[i].name, Meaning(ms[i].value))
  {
    if |ms| > 1 { MeaningAt(ms[1..], if i > 0 then i - 1 else 0); }
  }

  lemma OccursIff(cs: bool, v: Value, path: seq<string>)
    requires v.Object? && path != []
    ensures Occurs(cs, Meaning(v), path)
       <==> exists k ::
              0 <= k < |v.members| && Hit(cs, v, path, k) && Occurs(cs, Meaning(v.members[k].value), path[1..])
  {
    var fields := MeaningOf(v.members);
    if v.members != [] { MeaningAt(v.members, 0); }
    assert |fields| == |v.members|;
    forall k | 0 <= k < |v.members| ensures fields[k] == Field(v.members[k].name, Meaning(v.members[k].value)) {
      MeaningAt(v.members, k);
    }
    if Occurs(cs, Meaning(v), path) {
      var k :| 0 <= k < |fields| && Named(cs, fields[k].name, path[0]) && Occurs(cs, fields[k].value, path[1..]);
      assert Hit(cs, v, path, k);
    }
    forall k | 0 <= k < |v.members| && Hit(cs, v, path, k) && Occurs(cs, Meaning(v.members[k].value), path[1..])
      ensures Occurs(cs, Meaning(v), path)
    {
      assert Named(cs, fields[k].name, path[0]);
    }
  }

  lemma {:induction false} RangesFromIff(cs: bool, v: Value, at: nat, path: seq<string>, k: nat)
    requires v.Object? && path != [] && k <= |v.members|
    ensures RangesFrom(cs, v, at, path, k) != []
       <==> exists i ::
              k <= i < |v.members| && Hit(cs, v, path, i) && Occurs(cs, Meaning(v.members[i].value), path[1..])
    decreases |path|, 0, |v.members| - k
  {
    if k < |v.members| {
      RangesFromIff(cs, v, at, path, k + 1);
      if |path| > 1 { RangesIff(cs, v.members[k].value, at + |FrontOf(v, k)|, path[1..]); }
      var here := Hit(cs, v, path, k) && Occurs(cs, Meaning(v.members[k].value), path[1..]);
      assert MemberRanges(cs, v, at, path, k) != [] <==> here;
    }
  }

  /** There is something to cut exactly when the path occurs. */
  lemma {:induction false} RangesIff(cs: bool, v: Value, at: nat, path: seq<string>)
    ensures Ranges(cs, v, at, path) != [] <==> path != [] && Occurs(cs, Meaning(v), path)
    decreases |path|, 1
  {
    if path != [] && v.Object? {
      RangesFromIff(cs, v, at, path, 0);
      OccursIff(cs, v, path);
    }
  }

  lemma {:induction false} NoneLeft(cs: bool, fields: seq<Field>, path: seq<string>, i: nat)
    requires path != [] && i < |WithoutFields(cs, fields, path)|
    ensures
      var f := WithoutFields(cs, fields, path)[i];
      Named(cs, f.name, path[0]) ==> !Occurs(cs, f.value, path[1..])
    decreases |path|, 0, |fields|
  {
    var f := fields[0];
    var gone := Named(cs, f.name, path[0]) && |path| == 1;
    if !gone && i == 0 {
      if |path| > 1 { WithoutLeavesNone(cs, f.value, path[1..]); }
    } else {
      NoneLeft(cs, fields[1..], path, if gone then i else i - 1);
    }
  }

  /** After the removal the path does not occur any more. */
  lemma {:induction false} WithoutLeavesNone(cs: bool, j: Json, path: seq<string>)
    requires path != []
    ensures !Occurs(cs, Without(cs, j, path), path)
    decreases |path|, 1
  {
    if j.Fields? {
      var fields := WithoutFields(cs, j.fields, path);
      forall i | 0 <= i < |fields| && Named(cs, fields[i].name, path[0])
        ensures !Occurs(cs, fields[i].value, path[1..])
      {
        NoneLeft(cs, j.fields, path, i);
      }
    }
  }

  // What is left, name by name

  /** The values of all fields of a name, in order. */
  function ValuesOf(fields: seq<Field>, name: string): seq<Json> {
    if fields == [] then []
    else (if fields[0].name == name then [fields[0].value] else []) + ValuesOf(fields[1..], name)
  }

  function AllWithout(cs: bool, values: seq<Json>, path: seq<string>): seq<Json> {
    seq(|values|, i requires 0 <= i < |values| => Without(cs, values[i], path))
  }

  /**
   Removal seen name by name: fields of another name keep their values; those of the wanted name are all gone if the
   path ends there, and otherwise lose the rest of the path.
   */
  lemma {:induction false} RemovalByName(cs: bool, fields: seq<Field>, path: seq<string>, name: string)
    requires path != []
    ensures ValuesOf(WithoutFields(cs, fields, path), name)
         == if !Named(cs, name, path[0]) then ValuesOf(fields, name)
            else if |path| == 1 then []
            else AllWithout(cs, ValuesOf(fields, name), path[1..])
    decreases |fields|
  {
    if fields != [] {
      var f, rest := fields[0], WithoutFields(cs, fields[1..], path);
      RemovalByName(cs, fields[1..], path, name);
      assert fields == [f] + fields[1..];
      FirstValue(f, fields[1..], name);
      if !Named(cs, f.name, path[0]) {
        FirstValue(f, rest, name);
      } else if |path| > 1 {
        FirstValue(f.(value := Without(cs, f.value, path[1..])), rest, name);
        FirstWithout(cs, f.value, ValuesOf(fields[1..], name), path[1..]);
      }
    }
  }

  lemma FirstWithout(cs: bool, value: Json, rest: seq<Json>, path: seq<string>)
    ensures AllWithout(cs, [value] + rest, path) == [Without(cs, value, path)] + AllWithout(cs, rest, path)
  {
  }

  lemma FirstValue(f: Field, rest: seq<Field>, name: string)
    ensures ValuesOf([f] + rest, name) == (if f.name == name then [f.value] else []) + ValuesOf(rest, name)
  {
    assert ([f] + rest)[1..] == rest;
  }

  /** The two paths are the same but for the case of ASCII letters. */
  ghost predicate SamePath(path: seq<string>, other: seq<string>) {
    |path| == |other| && forall i :: 0 <= i < |path| ==> Named(false, path[i], other[i])
  }

  lemma NamedByBoth(name: string, a: string, b: string)
    requires Named(false, a, b)
    ensures Named(false, name, a) <==> Named(false, name, b)
  {
    if |name| == |a| {
      assert forall i :: 0 <= i < |name| ==> a[i] == b[i] || IsCapitalOf(a[i], b[i]) || IsCapitalOf(b[i], a[i]);
    }
  }

  /** When case does not count, another spelling of the path cuts the same ranges. */
  lemma {:induction false} SpellingDoesNotCount(v: Value, at: nat, path: seq<string>, other: seq<string>)
    requires SamePath(path, other)
    ensures Ranges(false, v, at, path) == Ranges(false, v, at, other)
    decreases |path|, 1
  {
    if path != [] && v.Object? { SpellingDoesNotCountFrom(v, at, path, other, 0); }
  }

  lemma {:induction false} SpellingDoesNotCountFrom(v: Value, at: nat, path: seq<string>, other: seq<string>, k: nat)
    requires v.Object? && path != [] && SamePath(path, other) && k <= |v.members|
    ensures RangesFrom(false, v, at, path, k) == RangesFrom(false, v, at, other, k)
    decreases |path|, 0, |v.members| - k
  {
    if k < |v.members| {
      SpellingDoesNotCountFrom(v, at, path, other, k + 1);
      NamedByBoth(v.members[k].name, path[0], other[0]);
      if |path| > 1 { SpellingDoesNotCount(v.members[k].value, at + |FrontOf(v, k)|, path[1..], other[1..]); }
    }
  }

  /** {"experimentalspaces":{"id":1}} */
  function OtherSpelling(): Value {
    var inner := Object([Plain("id", "1")], false, "");
    Object([Member("", Quoted("experimentalspaces"), "experimentalspaces", ":", inner, "")], false, "")
  }

  /** When case counts, another spelling is left alone; when it does not, it is found. */
  lemma SpellingExample(at: nat)
    ensures Ranges(true, OtherSpelling(), at, ["experimentalSpaces", "id"]) == []
    ensures Ranges(false, OtherSpelling(), at, ["experimentalSpaces", "id"]) != []
  {
    var v, path := OtherSpelling(), ["experimentalSpaces", "id"];
    var inner := v.members[0].value;
    assert "experimentalspaces"[12] != "experimentalSpaces"[12];
    assert !Hit(true, v, path, 0) && Hit(false, v, path, 0);
    assert RangesFrom(true, v, at, path, 1) == [];
    assert path[1..] == ["id"] && Hit(false, inner, ["id"], 0);
    var there := at + |FrontOf(v, 0)|;
    assert MemberRanges(false, inner, there, ["id"], 0) == [RangeOf(inner, there, 0)];
    assert Ranges(false, inner, there, ["id"]) != [];
  }

  /**
   The operation as a whole: it answers nothing exactly when the path does not occur; otherwise, for
   clean inputs, the answer is the text of a document that means the old one without the path, and a
   second call finds nothing. The text around the root is never touched.
   */
  lemma UnsetPathMeans(doc: Document, path: seq<string>, cs: bool)
    ensures Ranges(cs, doc.root, |doc.before|, path) == [] <==> path == [] || !Occurs(cs, Meaning(doc.root), path)
    ensures var after := doc.(root := Removed(cs, doc.root, path));
      && Meaning(after.root) == Without(cs, Meaning(doc.root), path)
      && (Clean(cs, doc.root, path) <==> doc.before + Left(cs, doc.root, path) + doc.after == Text(after))
      && (path != [] ==> Ranges(cs, after.root, |doc.before|, path) == [])
  {
    var after := doc.(root := Removed(cs, doc.root, path));
    RangesIff(cs, doc.root, |doc.before|, path);
    RangesIff(cs, after.root, |doc.before|, path);
    RemovedMeans(cs, doc.root, path);
    RemovedReads(cs, doc.root, path);
    CleanIsStrayless(cs, doc.root, path);
    if path != [] { WithoutLeavesNone(cs, Meaning(doc.root), path); }
  }

  function Plain(name: string, value: string): Member {
    Member("", Quoted(name), name, ":", Leaf(value), "")
  }

  /** {"A":1,"a":2,"b":3} */
  function Spelled(): Value {
    Object([Plain("A", "1"), Plain("a", "2"), Plain("b", "3")], false, "")
  }

  /** Two spellings of the name at the start of an object leave a comma behind the brace. */
  lemma StrayCommaExample()
    ensures Left(false, Spelled(), ["a"]) == "{,\"b\":3}" && !Clean(false, Spelled(), ["a"])
  {
    var v := Spelled();
    assert Lower("a"[0]) != Lower("b"[0]);
    assert Hit(false, v, ["a"], 0) && Hit(false, v, ["a"], 1) && !Hit(false, v, ["a"], 2);
    assert Rest(false, v, ["a"], 3) == "}";
    assert Rest(false, v, ["a"], 1) == "," + NewCore(false, v, ["a"], 2) + Rest(false, v, ["a"], 3);
  }
}
