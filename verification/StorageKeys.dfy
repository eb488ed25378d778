/** Which file of the file system a key of the storage names, and what the guard says of it. */
module StorageKeys {
  import opened Text
  import opened Paths
  import opened Guard
  import opened Store
  import opened StoreEncoding
  import opened StoreLaws

  /** resolve: filepath.Join of an absolute root and a key that is not empty. */
  function FilePath(root: string, key: string): string { Clean(root + "/" + key) }

  /** An absolute path with these elements. */
  function Absolute(elements: seq<string>): string { "/" + Join(elements) }

  ghost predicate AllPlain(elements: seq<string>) {
    forall i :: 0 <= i < |elements| ==> Plain(elements[i]) && '/' !in elements[i]
  }

  // ----- Walking along a key -----

  /** One element further: `ups` times the place where the walk began was left, and `rest` is what it is below. */
  function WalkStep(ups: int, rest: seq<string>, last: string): (int, seq<string>) {
    if last == "" || last == "." then (ups, rest)
    else if last == ".." then if rest != [] then (ups, rest[..|rest| - 1]) else (ups + 1, rest)
    else (ups, rest + [last])
  }

  function Walk(segs: seq<string>): (int, seq<string>) {
    if segs == [] then (0, [])
    else
      var (ups, rest) := Walk(segs[..|segs| - 1]);
      WalkStep(ups, rest, segs[|segs| - 1])
  }

  /** What is left of a root that is left so often. */
  function Left(root: seq<string>, ups: int): seq<string> {
    if ups <= 0 then root else if ups >= |root| then [] else root[..|root| - ups]
  }

  lemma {:induction false} WalkIsPlain(segs: seq<string>)
    requires forall i :: 0 <= i < |segs| ==> '/' !in segs[i]
    ensures Walk(segs).0 >= 0 && AllPlain(Walk(segs).1)
  {
    if segs != [] {
      WalkIsPlain(segs[..|segs| - 1]);
    }
  }

  lemma WalkOn(segs: seq<string>, last: string)
    ensures Walk(segs + [last]) == WalkStep(Walk(segs).0, Walk(segs).1, last)
  {
    assert (segs + [last])[..|segs|] == segs;
  }

  /** One element further for path.Clean, from a root. */
  function ResolveStep(out: seq<string>, last: string): seq<string> {
    if last == "" || last == "." then out
    else if last == ".." then if out != [] && out[|out| - 1] != ".." then out[..|out| - 1] else out
    else out + [last]
  }

  lemma ResolveOn(segs: seq<string>, last: string)
    ensures Resolve(segs + [last], true) == ResolveStep(Resolve(segs, true), last)
  {
    assert (segs + [last])[..|segs|] == segs;
  }

  lemma PlainResolves(root: seq<string>)
    requires AllPlain(root)
    ensures Resolve(root, true) == root
    decreases |root|
  {
    if root != [] {
      var init, last := root[..|root| - 1], root[|root| - 1];
      PlainResolves(init);
      assert root == init + [last];
    }
  }

  lemma OneStep(root: seq<string>, ups: int, rest: seq<string>, last: string)
    requires AllPlain(root) && AllPlain(rest) && ups >= 0
    ensures var (more, below) := WalkStep(ups, rest, last);
            ResolveStep(Left(root, ups) + rest, last) == Left(root, more) + below
  {
    var out := Left(root, ups) + rest;
    if last == ".." && rest != [] {
      assert out[|out| - 1] == rest[|rest| - 1];
      assert out[..|out| - 1] == Left(root, ups) + rest[..|rest| - 1];
    } else if last == ".." {
      ConcatEmpty(Left(root, ups), rest);
      ConcatEmpty(Left(root, ups + 1), rest);
    } else if last != "" && last != "." {
      ConcatAssoc(Left(root, ups), rest, [last]);
    }
  }

  /** A key from a root: the part of the root that is not left, and what the walk ends below. */
  lemma {:induction false} ResolvesFrom(root: seq<string>, segs: seq<string>)
    requires AllPlain(root) && forall i :: 0 <= i < |segs| ==> '/' !in segs[i]
    ensures Resolve(root + segs, true) == Left(root, Walk(segs).0) + Walk(segs).1
  {
    if segs == [] {
      PlainResolves(root);
      ConcatEmpty(root, segs);
      ConcatEmpty(root, Walk(segs).1);
    } else {
      var init, last := segs[..|segs| - 1], segs[|segs| - 1];
      ResolvesFrom(root, init);
      WalkIsPlain(init);
      assert segs == init + [last];
      ConcatAssoc(root, init, [last]);
      ResolveOn(root + init, last);
      OneStep(root, Walk(init).0, Walk(init).1, last);
    }
  }

  // ----- Keys and files -----

  lemma SplitLast(a: string, last: string)
    requires '/' !in last
    ensures Split(a + "/" + last) == Split(a) + [last]
  {
    SplitBelow(a + "/", last);
    assert WithoutSlash(a + "/") == a;
  }

  lemma {:induction false} SplitAppend(a: string, b: string)
    ensures Split(a + "/" + b) == Split(a) + Split(b)
    decreases |b|
  {
    var k := LastIndexByte(b, '/');
    if k < 0 {
      SplitLast(a, b);
    } else {
      SplitAppend(a, b[..k]);
      assert b == b[..k] + "/" + b[k + 1..];
      SplitAppendOne(a, b[..k], b[k + 1..], b);
    }
  }

  lemma SplitAppendOne(a: string, init: string, last: string, b: string)
    requires b == init + "/" + last && '/' !in last && Split(a + "/" + init) == Split(a) + Split(init)
    ensures Split(a + "/" + b) == Split(a) + Split(b)
  {
    Regrouped(a, init, last);
    SplitLast(a + "/" + init, last);
    SplitLast(init, last);
    ConcatAssoc(Split(a), Split(init), [last]);
  }

  lemma Regrouped(a: string, b: string, c: string)
    ensures a + "/" + (b + "/" + c) == a + "/" + b + "/" + c
    ensures b + "/" + c == b + ("/" + c)
  {
  }

  lemma {:induction false} SplitJoin(segs: seq<string>)
    requires segs != [] && forall i :: 0 <= i < |segs| ==> '/' !in segs[i]
    ensures Split(Join(segs)) == segs
  {
    var init, last := segs[..|segs| - 1], segs[|segs| - 1];
    assert segs == init + [last];
    if init != [] {
      SplitJoin(init);
      SplitAppend(Join(init), last);
    }
  }

  lemma {:induction false} LeadingEmpty(segs: seq<string>)
    ensures Resolve([""] + segs, true) == Resolve(segs, true)
  {
    if segs == [] {
      ConcatEmpty([""], segs);
      SingleEmptyResolves();
    } else {
      var init, last := segs[..|segs| - 1], segs[|segs| - 1];
      LeadingEmpty(init);
      assert segs == init + [last];
      ConcatAssoc([""], init, [last]);
      ResolveOn([""] + init, last);
      ResolveOn(init, last);
    }
  }

  lemma RootElements(root: seq<string>, key: string)
    requires AllPlain(root)
    ensures Resolve(Split(Absolute(root) + "/" + key), true) == Resolve(root + Split(key), true)
  {
    SplitAppend(Absolute(root), key);
    SplitAppend("", Join(root));
    EmptyConcat("", "/" + Join(root));
    assert "" + "/" + Join(root) == Absolute(root);
    assert Split("") == [""];
    if root == [] {
      ConcatAssoc([""], [""], Split(key));
      LeadingEmpty([""] + Split(key));
      LeadingEmpty(Split(key));
      EmptyConcat(root, Split(key));
    } else {
      SplitJoin(root);
      ConcatAssoc([""], root, Split(key));
      LeadingEmpty(root + Split(key));
    }
  }

  /** The file that a key names. */
  lemma KeyNamesFile(root: seq<string>, key: string)
    requires AllPlain(root)
    ensures var (ups, rest) := Walk(Split(key)); FilePath(Absolute(root), key) == Absolute(Left(root, ups) + rest)
  {
    RootElements(root, key);
    ResolvesFrom(root, Split(key));
    assert (Absolute(root) + "/" + key)[0] == '/';
  }

  lemma PlainStep(rest: seq<string>, last: string)
    requires Plain(last)
    ensures WalkStep(0, rest, last) == (0, rest + [last])
  {
  }

  lemma WalksOn(segs: seq<string>, rest: seq<string>, last: string)
    requires Plain(last) && Walk(segs) == (0, rest)
    ensures Walk(segs + [last]) == (0, rest + [last])
  {
    WalkOn(segs, last);
    PlainStep(rest, last);
  }

  lemma Snoc(segs: seq<string>)
    requires segs != []
    ensures segs == segs[..|segs| - 1] + [segs[|segs| - 1]]
  {
  }

  lemma PlainParts(segs: seq<string>)
    requires AllPlain(segs) && segs != []
    ensures AllPlain(segs[..|segs| - 1]) && Plain(segs[|segs| - 1])
  {
  }

  lemma {:induction false} PlainWalks(segs: seq<string>)
    requires AllPlain(segs)
    ensures Walk(segs) == (0, segs)
  {
    if segs != [] {
      PlainParts(segs);
      PlainWalks(segs[..|segs| - 1]);
      WalksOn(segs[..|segs| - 1], segs[..|segs| - 1], segs[|segs| - 1]);
      Snoc(segs);
    }
  }

  lemma CleanedIsPlain(p: string)
    requires Cleaned(p) && !IsContainerPath(p)
    ensures AllPlain(Split(p)) && Split(p) != []
  {
    SplitCleaned(p, true);
    KeptElements(p);
  }

  /** A cleaned key names the file at its place below the root. */
  lemma CleanedNamesFile(root: seq<string>, p: string)
    requires AllPlain(root) && Cleaned(p) && !IsContainerPath(p)
    ensures FilePath(Absolute(root), p) == Absolute(root + Split(p))
  {
    KeyNamesFile(root, p);
    CleanedIsPlain(p);
    PlainWalks(Split(p));
  }

  /** No two cleaned keys name one file. */
  lemma CleanedKeysAreApart(root: seq<string>, p: string, q: string)
    requires AllPlain(root) && Cleaned(p) && !IsContainerPath(p) && Cleaned(q) && !IsContainerPath(q)
    ensures FilePath(Absolute(root), p) == FilePath(Absolute(root), q) ==> p == q
  {
    CleanedNamesFile(root, p);
    CleanedNamesFile(root, q);
    CleanedIsPlain(p);
    CleanedIsPlain(q);
    if Absolute(root + Split(p)) == Absolute(root + Split(q)) {
      SplitJoin(root + Split(p));
      SplitJoin(root + Split(q));
      assert Absolute(root + Split(p))[1..] == Absolute(root + Split(q))[1..];
      assert (root + Split(p))[|root|..] == (root + Split(q))[|root|..];
      SplitCleaned(p, true);
      SplitCleaned(q, true);
    }
  }

  lemma StoreKeys(p: string)
    requires Storable(p)
    ensures Cleaned(DataPath(p)) && !IsContainerPath(DataPath(p))
    ensures Cleaned(MetaPath(p)) && !IsContainerPath(MetaPath(p))
  {
    DataPathIs(p);
    MetaPathIs(p);
    assert '/' !in ".container" && '/' !in ".meta.json" && '/' !in ".root";
    if p == "" {
      EmptyConcat(p, ".meta.json");
      EmptyConcat(p, ".root");
      CleanedBelow(p, ".meta.json");
      CleanedBelow(p, ".root");
    } else if IsContainerPath(p) {
      CleanedBelow(p, ".container");
      CleanedBelow(p, ".meta.json");
    } else {
      PathParts(p);
      ConcatAssoc(Parent(p), Name(p), ".meta.json");
      CleanedBelow(Parent(p), Name(p) + ".meta.json");
    }
  }

  /** The keys of coherent files stand for as many files of the file system: one map is as good as the other. */
  lemma FlatMapIsFaithful(root: seq<string>, fs: Files, etagOf: string -> string, j: string, k: string)
    requires AllPlain(root) && Coherent(fs, etagOf) && j in fs && k in fs
    ensures FilePath(Absolute(root), j) == FilePath(Absolute(root), k) <==> j == k
  {
    FileHasOwner(fs, etagOf, j);
    FileHasOwner(fs, etagOf, k);
    StoreKeys(Owner(j));
    StoreKeys(Owner(k));
    CleanedKeysAreApart(root, j, k);
  }

  // ----- What the guard says of a file -----

  /** The file at this place below the root is the server's own. */
  predicate IsInternal(elements: seq<string>) {
    && elements != []
    && (ReservedName(elements[0]) || Hidden(elements[|elements| - 1]))
  }

  predicate ReservedName(seg: string) {
    Lower(seg) == ".openid" || seg == ".root" || seg == ".meta.json" || seg == ".container"
  }

  lemma {:induction false} FirstElement(segs: seq<string>)
    requires segs != [] && forall i :: 0 <= i < |segs| ==> '/' !in segs[i]
    ensures var p := Join(segs);
            var i := IndexByte(p, '/');
            && (i < 0 <==> |segs| == 1) && (if i >= 0 then p[..i] else p) == segs[0]
  {
    if |segs| > 1 {
      var init, last := segs[..|segs| - 1], segs[|segs| - 1];
      FirstElement(init);
      FirstStays(Join(init), last);
    }
  }

  lemma FirstStays(a: string, last: string)
    ensures var i, j := IndexByte(a, '/'), IndexByte(a + "/" + last, '/');
            j == (if i >= 0 then i else |a|) && (a + "/" + last)[..j] == if i >= 0 then a[..i] else a
  {
    FirstIs(a + "/" + last, if IndexByte(a, '/') >= 0 then IndexByte(a, '/') else |a|);
  }

  lemma {:induction false} FirstIs(s: string, i: nat)
    requires i < |s| && s[i] == '/' && '/' !in s[..i]
    ensures IndexByte(s, '/') == i
  {
    if i > 0 {
      assert s[0] in s[..i] && s[1..][..i - 1] == s[..i][1..];
      FirstIs(s[1..], i - 1);
    }
  }

  lemma LastElement(segs: seq<string>)
    requires |segs| > 1 && '/' !in segs[|segs| - 1]
    ensures var p := Join(segs); p[LastIndexByte(p, '/') + 1..] == segs[|segs| - 1]
  {
    LastSlash(Join(segs[..|segs| - 1]) + "/", segs[|segs| - 1]);
  }

  lemma GuardedEnds(path: string, p: string, first: string, last: string)
    requires CleanResourcePath(path) == p && p != ""
    requires var i := IndexByte(p, '/');
             && first == (if i >= 0 then p[..i] else p)
             && last == if i >= 0 then p[LastIndexByte(p, '/') + 1..] else first
    ensures IsInternalServerPath(path) <==> ReservedName(first) || Hidden(last)
  {
  }

  lemma GuardedElements(path: string, segs: seq<string>)
    requires AllPlain(segs) && CleanResourcePath(path) == Join(segs)
    ensures IsInternalServerPath(path) <==> IsInternal(segs)
  {
    if segs != [] {
      FirstElement(segs);
      JoinCleaned(segs);
      if |segs| > 1 {
        LastElement(segs);
      }
      GuardedEnds(path, Join(segs), segs[0], segs[|segs| - 1]);
    }
  }

  lemma KeyElements(key: string)
    ensures Resolve(Split(Rooted(key)), true) == Walk(Split(key)).1
  {
    var none: seq<string> := [];
    ResolvesFrom(none, Split(key));
    EmptyConcat(none, Split(key));
    EmptyConcat(Left(none, Walk(Split(key)).0), Walk(Split(key)).1);
    if !HasPrefix(key, "/") {
      RootedSplits(key, "");
      LeadingEmpty(Split(key));
    }
  }

  lemma RootedSplits(key: string, empty: string)
    requires empty == ""
    ensures Split("/" + key) == [""] + Split(key)
  {
    SplitAppend(empty, key);
    EmptyConcat(empty, "/");
    SingleEmptyResolves();
  }

  lemma KeyIsCleaned(key: string)
    requires '\\' !in key && TrimSpace(key) == key && !EndsInSlash(key)
    ensures CleanResourcePath(key) == Join(Walk(Split(key)).1) && AllPlain(Walk(Split(key)).1)
  {
    WalkIsPlain(Split(key));
    RootedClean(key);
    KeyElements(key);
    JoinCleaned(Walk(Split(key)).1);
    CleanedStart(Join(Walk(Split(key)).1));
    Finishes(key, key, Join(Walk(Split(key)).1));
  }

  /** Asked about a key that never leads out of the root, the guard refuses exactly when the file that it names is
      internal. */
  lemma GuardSeesTheFile(root: seq<string>, key: string)
    requires AllPlain(root) && '\\' !in key && TrimSpace(key) == key && !EndsInSlash(key)
    requires Walk(Split(key)).0 == 0
    ensures var place := Walk(Split(key)).1;
            && FilePath(Absolute(root), key) == Absolute(root + place)
            && (IsInternalServerPath(key) <==> IsInternal(place))
  {
    KeyNamesFile(root, key);
    KeyIsCleaned(key);
    GuardedElements(key, Walk(Split(key)).1);
  }

  /** A slug that begins with "../" names a file beside the container that is posted to. */
  lemma SlugBeside(root: seq<string>, c: string, up: string, name: string)
    requires up == ".." && AllPlain(root) && Cleaned(c) && IsContainerPath(c) && c != ""
    requires Cleaned(name) && !IsContainerPath(name)
    ensures FilePath(Absolute(root), c + (up + "/" + name)) == FilePath(Absolute(root), Parent(c) + name)
  {
    var q := WithoutSlash(c);
    CleanedFile(c);
    CleanedIsPlain(q);
    CleanedIsPlain(name);
    UpSplits(c, q, up, name);
    WalksBack(Split(q), up, Split(name));
    KeyNamesFile(root, c + (up + "/" + name));
    ElementsBeside(q, name);
    KeyNamesFile(root, Parent(c) + name);
  }

  lemma UpSplits(c: string, q: string, up: string, name: string)
    requires c == q + "/" && '/' !in up
    ensures Split(c + (up + "/" + name)) == Split(q) + [up] + Split(name)
  {
    SplitLast(q, up);
    SplitAppend(q + "/" + up, name);
    Regrouped(q, up, name);
    ConcatAssoc(q, "/", up + "/" + name);
  }

  lemma ElementsBeside(q: string, name: string)
    requires Cleaned(q) && !IsContainerPath(q) && Cleaned(name) && !IsContainerPath(name)
    ensures var out := Split(q)[..|Split(q)| - 1] + Split(name);
            Split(Parent(q) + name) == out && Walk(out) == (0, out)
  {
    CleanedIsPlain(q);
    CleanedIsPlain(name);
    SplitBeside(q, name);
    PlainWalks(Split(q)[..|Split(q)| - 1] + Split(name));
  }

  lemma SplitBeside(q: string, name: string)
    requires !IsContainerPath(q)
    ensures Split(Parent(q) + name) == Split(q)[..|Split(q)| - 1] + Split(name)
  {
    PathParts(q);
    SplitBelow(Parent(q), Name(q));
    if Parent(q) == "" {
      EmptyConcat(Parent(q), name);
      EmptyConcat(Split(q)[..|Split(q)| - 1], Split(name));
    } else {
      var a := WithoutSlash(Parent(q));
      assert Parent(q) == a + "/";
      SplitAppend(a, name);
      assert (Split(a) + [Name(q)])[..|Split(a)|] == Split(a);
    }
  }

  lemma WalksBack(segs: seq<string>, up: string, more: seq<string>)
    requires AllPlain(segs) && segs != [] && AllPlain(more) && up == ".."
    ensures Walk(segs + [up] + more) == (0, segs[..|segs| - 1] + more)
    decreases |more|
  {
    if more == [] {
      ConcatEmpty(segs + [up], more);
      ConcatEmpty(segs[..|segs| - 1], more);
      WalksUp(segs, up);
    } else {
      var init, last := more[..|more| - 1], more[|more| - 1];
      PlainParts(more);
      WalksBack(segs, up, init);
      WalksOn(segs + [up] + init, segs[..|segs| - 1] + init, last);
      Snoc(more);
      ConcatAssoc(segs + [up], init, [last]);
      ConcatAssoc(segs[..|segs| - 1], init, [last]);
    }
  }

  lemma WalksUp(segs: seq<string>, up: string)
    requires AllPlain(segs) && segs != [] && up == ".."
    ensures Walk(segs + [up]) == (0, segs[..|segs| - 1])
  {
    PlainWalks(segs);
    WalkOn(segs, up);
  }
}
