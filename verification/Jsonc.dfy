/**
 JSONC documents as trees that remember their text: every object keeps the whitespace and comments
 around its members, so printing a tree gives back the document it was parsed from, and the printed
 lengths give the ranges a parser reports.
 */
module Jsonc {
  import opened Basics

  /** Arrays, strings, numbers and keywords are opaque to the rewriter; only objects have structure. */
  datatype Value =
    | Leaf(text: string)
    | Object(members: seq<Member>, comma: bool, tail: string)

  /** `key` is the property name as written, `name` what it denotes; `sep` holds the colon. */
  datatype Member = Member(lead: string, key: string, name: string, sep: string, value: Value, trail: string)

  datatype Document = Document(before: string, root: Value, after: string)

  function Print(v: Value): string
    decreases v, 1
  {
    match v
    case Leaf(text) => text
    case Object(members, comma, tail) => "{" + PrintMembers(members) + (if comma then "," else "") + tail + "}"
  }

  /** From the property name to the end of the value: the range of a member. */
  function PrintCore(m: Member): string
    decreases m, 0
  {
    m.key + m.sep + Print(m.value)
  }

  function PrintMember(m: Member): string
    decreases m, 1
  {
    m.lead + PrintCore(m) + m.trail
  }

  /** Every member with a comma in front of it. */
  function CommaBefore(ms: seq<Member>): string
    decreases ms, 2
  {
    if ms == [] then "" else "," + PrintMember(ms[0]) + CommaBefore(ms[1..])
  }

  function PrintMembers(ms: seq<Member>): string
    decreases ms, 2
  {
    if ms == [] then "" else PrintMember(ms[0]) + CommaBefore(ms[1..])
  }

  /** Every member followed by a comma: the text in front of the next member. */
  function Commaed(ms: seq<Member>): string {
    if ms == [] then "" else Commaed(ms[..|ms| - 1]) + PrintMember(ms[|ms| - 1]) + ","
  }

  function Text(d: Document): string {
    d.before + Print(d.root) + d.after
  }

  // What a document means

  /** The last member with the name counts, as the receiver of duplicate names is free to decide. */
  function LastNamed(ms: seq<Member>, name: string): (r: Option<nat>)
    ensures match r
      case Some(k) => k < |ms| && ms[k].name == name && forall j :: k < j < |ms| ==> ms[j].name != name
      case None => forall j :: 0 <= j < |ms| ==> ms[j].name != name
  {
    if ms == [] then None
    else if ms[|ms| - 1].name == name then Some(|ms| - 1)
    else LastNamed(ms[..|ms| - 1], name)
  }

  function Lookup(v: Value, path: seq<string>): Option<Value>
    decreases |path|
  {
    if path == [] then Some(v)
    else if v.Leaf? then None
    else
      match LastNamed(v.members, path[0])
      case None => None
      case Some(k) => Lookup(v.members[k].value, path[1..])
  }

  // Well-formed text

  /**
   What the pieces of a document may look like is left to the parser: which strings are trivia, which
   written keys denote which names, which strings separate them and which strings are plain values.
   */
  datatype Lexicon = Lexicon(trivia: string -> bool, key: (string, string) -> bool, sep: string -> bool,
      leaf: string -> bool)

  predicate NeedsNoEscape(name: string) {
    forall i :: 0 <= i < |name| ==> name[i] != '\"' && name[i] != '\\' && ' ' <= name[i]
  }

  function Quoted(name: string): string {
    "\"" + name + "\""
  }

  /** Nothing at all is trivia, a bare colon separates, a quoted name that needs no escape denotes itself. */
  ghost predicate Sound(lex: Lexicon) {
    lex.trivia("") && lex.sep(":") && forall name {:trigger Quoted(name)} :: NeedsNoEscape(name) ==>
        lex.key(Quoted(name), name)
  }

  /** A trailing comma needs a member in front of it. */
  ghost predicate WellFormed(lex: Lexicon, v: Value)
    decreases v
  {
    match v
    case Leaf(text) => lex.leaf(text)
    case Object(members, comma, tail) =>
      && (comma ==> members != [])
      && lex.trivia(tail)
      && forall i :: 0 <= i < |members| ==>
           var m := members[i];
           lex.trivia(m.lead) && lex.trivia(m.trail) && lex.key(m.key, m.name) && lex.sep(m.sep)
               && WellFormed(lex, m.value)
  }

  // Splicing text

  /** Replace the characters from `start` to `end`. */
  function Splice(text: string, start: nat, end: nat, with: string): string
    requires start <= end <= |text|
  {
    text[..start] + with + text[end..]
  }

  lemma SpliceMiddle(a: string, m: string, b: string, with: string)
    ensures Splice(a + m + b, |a|, |a| + |m|, with) == a + with + b
  {
    var text := a + m + b;
    assert text[..|a|] == a;
    assert text[|a| + |m|..] == b;
  }

  // Members in the middle

  lemma {:induction false} MembersAround(ms: seq<Member>, k: nat)
    requires k < |ms|
    ensures PrintMembers(ms) == Commaed(ms[..k]) + PrintMember(ms[k]) + CommaBefore(ms[k + 1..])
  {
    if k > 0 {
      MembersAround(ms, k - 1);
      assert ms[..k][..k - 1] == ms[..k - 1];
      assert ms[k..][0] == ms[k] && ms[k..][1..] == ms[k + 1..];
      Associate(Commaed(ms[..k - 1]) + PrintMember(ms[k - 1]), PrintMember(ms[k]), CommaBefore(ms[k + 1..]));
    }
  }

  lemma Associate(a: string, b: string, c: string)
    ensures a + ("," + b + c) == a + "," + b + c
  {
  }

  /** An object's text up to the value of member `k`, and from there on. */
  function FrontOf(v: Value, k: nat): string
    requires v.Object? && k < |v.members|
  {
    "{" + Commaed(v.members[..k]) + v.members[k].lead + v.members[k].key + v.members[k].sep
  }

  function BackOf(v: Value, k: nat): string
    requires v.Object? && k < |v.members|
  {
    v.members[k].trail + CommaBefore(v.members[k + 1..]) + Ending(v)
  }

  function Ending(v: Value): string
    requires v.Object?
  {
    (if v.comma then "," else "") + v.tail + "}"
  }

  lemma PrintObject(v: Value)
    requires v.Object?
    ensures Print(v) == "{" + PrintMembers(v.members) + Ending(v)
  {
  }

  lemma ObjectAround(v: Value, k: nat)
    requires v.Object? && k < |v.members|
    ensures Print(v) == FrontOf(v, k) + Print(v.members[k].value) + BackOf(v, k)
  {
    MembersAround(v.members, k);
    PrintObject(v);
    var m := v.members[k];
    Around(Commaed(v.members[..k]), m.lead, m.key, m.sep, Print(m.value), m.trail, CommaBefore(v.members[k + 1..]),
        Ending(v));
  }

  lemma Around(c: string, l: string, k: string, s: string, v: string, t: string, r: string, e: string)
    ensures "{" + (c + (l + (k + s + v) + t) + r) + e == ("{" + c + l + k + s) + v + (t + r + e)
  {
  }
}
