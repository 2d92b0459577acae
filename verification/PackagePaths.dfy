/**
 Mapping a changed file to the package that contains it. Packages are stored in a radix trie keyed
 by path strings; a lookup takes the longest key that is a string prefix of the file and then checks
 that it is a prefix by path components.
 */
module PackagePaths {
  import opened Basics

  /** The components of a path: the pieces between slashes. The empty path has none. */
  function Components(path: string): seq<string> {
    if path == "" then [] else Split(path)
  }

  function Split(path: string): (r: seq<string>)
    ensures |r| > 0
  {
    if path == "" then [""]
    else if path[0] == '/' then [""] + Split(path[1..])
    else var rest := Split(path[1..]); [[path[0]] + rest[0]] + rest[1..]
  }

  /** The package directory `package` contains `file`: its components begin the file's. */
  predicate Contains(package: string, file: string) {
    Components(package) <= Components(file)
  }

  /** Anchored system paths neither begin nor end with a slash. */
  predicate IsAnchored(path: string) {
    path == "" || (path[0] != '/' && path[|path| - 1] != '/')
  }

  /** `p` is the longest key that is a string prefix of `file`: the trie's `get_ancestor`. */
  ghost predicate IsLongestKey(keys: set<string>, file: string, p: string) {
    && p in keys && p <= file
    && forall q :: q in keys && q <= file ==> |q| <= |p|
  }

  /** The package found for a file: the longest key, if it contains the file by components. */
  ghost function Lookup(keys: set<string>, file: string): Option<string> {
    if exists p :: IsLongestKey(keys, file, p) && Contains(p, file)
    then var p :| IsLongestKey(keys, file, p) && Contains(p, file); Some(p)
    else None
  }

  /** The linear scan the trie replaces: the innermost of all packages that contain the file. */
  ghost predicate IsInnermost(keys: set<string>, file: string, p: string) {
    && p in keys && Contains(p, file)
    && forall q :: q in keys && Contains(q, file) ==> Contains(q, p)
  }

  ghost predicate AgreesWithScan(keys: set<string>, file: string) {
    match Lookup(keys, file)
    case Some(p) => IsInnermost(keys, file, p)
    case None => forall p :: p in keys ==> !Contains(p, file)
  }

  ghost predicate NoNestedPackages(keys: set<string>) {
    forall p, q :: p in keys && q in keys && Contains(p, q) ==> p == q
  }

  // Components against strings

  lemma {:induction false} SplitAppend(a: string, b: string)
    ensures Split(a + "/" + b) == Split(a) + Split(b)
  {
    if a == "" {
      assert a + "/" + b == "/" + b;
    } else {
      assert (a + "/" + b)[1..] == a[1..] + "/" + b;
      SplitAppend(a[1..], b);
    }
  }

  lemma {:induction false} SplitPrefix(a: string, b: string)
    requires Split(a) <= Split(b)
    ensures a == b || a + "/" <= b
  {
    assert Split(a)[0] == Split(b)[0];
    if a != "" && b != "" {
      var ra, rb := Split(a[1..]), Split(b[1..]);
      if a[0] == '/' == b[0] {
        assert Split(a)[1..] == ra && Split(b)[1..] == rb;
        SplitPrefix(a[1..], b[1..]);
      } else if a[0] != '/' && b[0] != '/' {
        assert Split(a)[0] == [a[0]] + ra[0] && Split(b)[0] == [b[0]] + rb[0];
        assert a[0] == Split(a)[0][0] == b[0];
        assert ra[0] == Split(a)[0][1..] == rb[0];
        assert Split(a)[1..] == ra[1..] && Split(b)[1..] == rb[1..];
        assert ra == [ra[0]] + ra[1..] && rb == [rb[0]] + rb[1..];
        SplitPrefix(a[1..], b[1..]);
      }
    }
  }

  /** On strings, containment is equality up to a slash. The root package contains every file. */
  lemma ContainsAsStrings(package: string, file: string)
    ensures Contains(package, file) <==> package == "" || package == file || package + "/" <= file
  {
    if package != "" {
      if package + "/" <= file {
        var rest := file[|package| + 1..];
        assert file == package + "/" + rest;
        SplitAppend(package, rest);
      }
      if Contains(package, file) && file != "" { SplitPrefix(package, file); }
    }
  }

  /** The package a lookup returns is a tracked one and really contains the file. */
  lemma LookupIsSound(keys: set<string>, file: string)
    ensures match Lookup(keys, file) case Some(p) => p in keys && Contains(p, file) case None => true
  {
  }

  lemma LongestKeyIsUnique(file: string, p: string, q: string)
    requires p <= file && q <= file && |p| == |q|
    ensures p == q
  {
    assert p == file[..|p|] && q == file[..|q|];
  }

  /** With flat packages, the longest key agrees with the scan for every file. */
  lemma FlatLookupAgrees(keys: set<string>, file: string)
    requires NoNestedPackages(keys)
    ensures AgreesWithScan(keys, file)
  {
    forall p | p in keys && Contains(p, file)
      ensures IsLongestKey(keys, file, p)
    {
      ContainsAsStrings(p, file);
      assert p <= file;
      forall q | q in keys && q <= file
        ensures |q| <= |p|
      {
        if |q| > |p| {
          assert p <= q;
          if p != "" { assert p + "/" <= q; }
          ContainsAsStrings(p, q);
          assert false;
        }
      }
    }
    if Lookup(keys, file).Some? {
      var p := Lookup(keys, file).value;
      forall q | q in keys && Contains(q, file)
        ensures Contains(q, p)
      {
        assert IsLongestKey(keys, file, q) && IsLongestKey(keys, file, p);
        LongestKeyIsUnique(file, p, q);
      }
    }
  }

  function Pad(n: nat): (r: string)
    ensures |r| == n && forall i :: 0 <= i < n ==> r[i] == '_'
  {
    if n == 0 then "" else "_" + Pad(n - 1)
  }

  lemma {:induction false} KeysAreBounded(keys: set<string>) returns (bound: nat)
    ensures forall k :: k in keys ==> |k| < bound
  {
    if keys == {} {
      bound := 0;
    } else {
      var k :| k in keys;
      var rest := KeysAreBounded(keys - {k});
      bound := if |k| < rest then rest else |k| + 1;
    }
  }

  /**
   A package nested in another hides its decoys from the outer one: for some file next to the inner
   package the lookup finds nothing although the outer package contains the file.
   */
  lemma NestedLookupDisagrees(keys: set<string>, outer: string, inner: string) returns (file: string)
    requires forall k :: k in keys ==> IsAnchored(k)
    requires outer in keys && inner in keys && outer != inner && Contains(outer, inner)
    ensures IsAnchored(file) && !AgreesWithScan(keys, file)
  {
    var bound := KeysAreBounded(keys);
    file := inner + Pad(bound + 1);
    ContainsAsStrings(outer, inner);
    ContainsAsStrings(outer, file);
    assert inner <= file;
    assert Contains(outer, file);
    forall p | IsLongestKey(keys, file, p)
      ensures !Contains(p, file)
    {
      ContainsAsStrings(p, file);
      assert |inner| <= |p| < bound;
      assert p != "";
      assert file[|p|] == Pad(bound + 1)[|p| - |inner|] == '_';
      assert (p + "/")[|p|] == '/';
    }
  }

  /** The trie lookup is right for every file exactly when no tracked package is nested in another. */
  lemma LookupIsRightIffFlat(keys: set<string>)
    requires forall k :: k in keys ==> IsAnchored(k)
    ensures (forall file :: IsAnchored(file) ==> AgreesWithScan(keys, file)) <==> NoNestedPackages(keys)
  {
    if NoNestedPackages(keys) {
      forall file | IsAnchored(file)
        ensures AgreesWithScan(keys, file)
      {
        FlatLookupAgrees(keys, file);
      }
    } else {
      var p, q :| p in keys && q in keys && Contains(p, q) && p != q;
      var file := NestedLookupDisagrees(keys, p, q);
    }
  }
}
