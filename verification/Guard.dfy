/** What the guard in front of the store makes sure of. */
module Guard {
  import opened Text
  import opened Paths

  /** A path whose file names cannot be taken for those of another one. */
  predicate Encodable(p: string) {
    Normalize(p) == p && (IsContainerPath(p) || !Hidden(Name(p)))
  }

  lemma {:induction false} JoinCleaned(segs: seq<string>)
    requires forall i :: 0 <= i < |segs| ==> Plain(segs[i]) && '/' !in segs[i]
    ensures Cleaned(Join(segs))
    ensures segs != [] ==> !IsContainerPath(Join(segs))
  {
    if segs != [] {
      var init, name := segs[..|segs| - 1], segs[|segs| - 1];
      JoinCleaned(init);
      if init == [] {
        CleanedBelow("", name);
        EmptyConcat("", name);
      } else {
        ContainerCleaned(Join(init));
        CleanedBelow(Join(init) + "/", name);
      }
    }
  }

  lemma CleanedBelow(c: string, name: string)
    requires Cleaned(c) && IsContainerPath(c) && Plain(name) && '/' !in name
    ensures Cleaned(c + name) && !IsContainerPath(c + name)
  {
    Below(c, name);
  }

  lemma ContainerCleaned(p: string)
    requires Cleaned(p) && !IsContainerPath(p)
    ensures Cleaned(p + "/") && IsContainerPath(p + "/")
  {
    PathParts(p);
    Below(Parent(p), Name(p));
  }

  lemma {:induction false} JoinHas(segs: seq<string>, ch: char)
    requires ch != '/' && ch in Join(segs)
    ensures exists i :: 0 <= i < |segs| && ch in segs[i]
  {
    if |segs| > 1 && ch !in segs[|segs| - 1] {
      var init := segs[..|segs| - 1];
      JoinHas(init, ch);
      var i :| 0 <= i < |init| && ch in init[i];
      assert segs[i] == init[i];
    }
  }

  lemma {:induction false} SplitHas(s: string, ch: char, i: nat)
    requires i < |Split(s)| && ch in Split(s)[i]
    ensures ch in s
    decreases |s|
  {
    var k := LastIndexByte(s, '/');
    if k >= 0 && i < |Split(s)| - 1 {
      SplitHas(s[..k], ch, i);
    }
  }

  lemma KeptElements(p: string)
    ensures var out := Resolve(Split(p), true);
            forall i :: 0 <= i < |out| ==> Plain(out[i]) && '/' !in out[i] && ('\\' in out[i] ==> '\\' in p)
  {
  }

  /** What is kept of a path below the root. */
  lemma RootedKept(p: string)
    ensures var out := Resolve(Split(p), true);
            && Cleaned(Join(out))
            && ('\\' in Join(out) ==> '\\' in p)
  {
    KeptElements(p);
    var out := Resolve(Split(p), true);
    JoinCleaned(out);
    if '\\' in Join(out) {
      JoinHas(out, '\\');
    }
  }

  lemma RootedClean(p: string)
    ensures TrimPrefix(Clean(Rooted(p)), "/") == Join(Resolve(Split(Rooted(p)), true))
  {
  }

  lemma SlashedIsCleaned(q: string, trailing: bool)
    requires Cleaned(q) && '\\' !in q
    ensures var p := if q == "." then "" else if trailing && q != "" && !EndsInSlash(q) then q + "/" else q;
            Cleaned(p) && '\\' !in p
  {
  }

  /** Resource paths have no empty, "." or ".." elements, and no backslash. */
  lemma ResourcePathsAreCleaned(path: string)
    ensures Cleaned(CleanResourcePath(path)) && '\\' !in CleanResourcePath(path)
  {
    var p := ForwardSlashes(TrimSpace(path));
    RootedClean(p);
    RootedKept(Rooted(p));
    SlashedIsCleaned(Join(Resolve(Split(Rooted(p)), true)), EndsInSlash(p));
  }

  lemma HiddenIsSolid(name: string)
    requires Hidden(name)
    ensures Plain(name) && !IsSpace(name[|name| - 1])
  {
    assert name[|name| - 1] == 'n' || name[|name| - 1] == 'r' || name[|name| - 1] == 't';
  }

  lemma {:induction false} TrimLeftStops(a: string, b: string)
    requires a != "" && !IsSpace(a[|a| - 1])
    ensures TrimLeft(a + b) == TrimLeft(a) + b
    ensures TrimLeft(a) != "" && TrimLeft(a)[|TrimLeft(a)| - 1] == a[|a| - 1]
  {
    if IsSpace(a[0]) {
      assert (a + b)[1..] == a[1..] + b;
      TrimLeftStops(a[1..], b);
    }
  }

  lemma {:induction false} TrimLeftKeepsSuffix(s: string, suffix: string)
    requires HasSuffix(s, suffix) && suffix != "" && !IsSpace(suffix[0])
    ensures HasSuffix(TrimLeft(s), suffix)
    ensures forall ch :: ch in TrimLeft(s) ==> ch in s
  {
    if IsSpace(s[0]) {
      assert s[1..][|s| - 1 - |suffix|..] == s[|s| - |suffix|..];
      TrimLeftKeepsSuffix(s[1..], suffix);
    }
  }

  lemma HiddenTrimmed(name: string)
    requires Hidden(name) && '/' !in name
    ensures Hidden(TrimLeft(name)) && '/' !in TrimLeft(name)
  {
  }

  /** Trimming leaves a hidden name hidden, and in its place. */
  lemma TrimmedBelow(c: string, name: string) returns (d: string, n: string)
    requires IsContainerPath(c) && '/' !in name && Hidden(name)
    ensures TrimSpace(c + name) == d + n && IsContainerPath(d) && '/' !in n && Hidden(n)
    ensures '\\' !in c + name ==> '\\' !in d + n
  {
    HiddenIsSolid(name);
    if c == "" {
      d, n := "", TrimLeft(name);
      EmptyConcat(c, name);
      EmptyConcat(d, n);
      HiddenTrimmed(name);
      HiddenIsSolid(n);
      CharsTrimmed(name, '\\');
    } else {
      TrimLeftStops(c, name);
      d, n := TrimLeft(c), name;
      CharsTrimmed(c, '\\');
      assert (d + n)[|d + n| - 1] == n[|n| - 1];
    }
  }

  lemma {:induction false} CharsTrimmed(s: string, ch: char)
    ensures ch in TrimLeft(s) ==> ch in s
  {
    if s != "" && IsSpace(s[0]) {
      CharsTrimmed(s[1..], ch);
    }
  }

  /** The container of a last element that path.Clean keeps. */
  function KeptAbove(root: string): string {
    var out := Resolve(Split(WithoutSlash(root)), true);
    if out == [] then "" else Join(out) + "/"
  }

  lemma KeptBelow(root: string, n: string)
    requires root != "" && IsContainerPath(root) && '/' !in n && Plain(n)
    ensures Join(Resolve(Split(root + n), true)) == KeptAbove(root) + n
  {
    SplitBelow(root, n);
    var segs := Split(WithoutSlash(root));
    ResolveBelow(segs, n, true);
    JoinBelow(Resolve(segs, true), n);
    EmptyConcat("", n);
  }

  lemma RootedBelow(d: string, n: string)
    requires IsContainerPath(d) && '/' !in n && n != ""
    ensures var root := if HasPrefix(d, "/") then d else "/" + d;
            Rooted(d + n) == root + n && IsContainerPath(root) && root != ""
    ensures !EndsInSlash(d + n) && d + n != ""
  {
    ConcatAssoc("/", d, n);
    if d == "" {
      EmptyConcat(d, n);
      assert n[0] in n;
    } else {
      assert (d + n)[0] == d[0];
    }
    assert (d + n)[|d + n| - 1] == n[|n| - 1] && n[|n| - 1] in n;
  }

  lemma NotTheDot(c: string, n: string)
    requires '/' !in n && Plain(n) && IsContainerPath(c)
    ensures c + n != "." && !EndsInSlash(c + n)
  {
  }

  lemma Finishes(path: string, p: string, q: string)
    requires ForwardSlashes(TrimSpace(path)) == p && TrimPrefix(Clean(Rooted(p)), "/") == q
    requires q != "." && !EndsInSlash(p)
    ensures CleanResourcePath(path) == q
  {
  }

  lemma CleanBelow(d: string, n: string)
    requires IsContainerPath(d) && '/' !in n && Plain(n)
    ensures var root := if HasPrefix(d, "/") then d else "/" + d;
            TrimPrefix(Clean(Rooted(d + n)), "/") == KeptAbove(root) + n
  {
    var root := if HasPrefix(d, "/") then d else "/" + d;
    RootedBelow(d, n);
    RootedClean(d + n);
    KeptBelow(root, n);
  }

  lemma KeptIsContainer(root: string)
    ensures IsContainerPath(KeptAbove(root))
  {
  }

  /** Cleaning keeps a plain last element last. */
  lemma ResourcePathBelow(path: string, d: string, n: string)
    requires TrimSpace(path) == d + n && '\\' !in d + n && IsContainerPath(d) && '/' !in n && Plain(n)
    ensures var root := if HasPrefix(d, "/") then d else "/" + d;
            IsContainerPath(KeptAbove(root)) && CleanResourcePath(path) == KeptAbove(root) + n
  {
    var root := if HasPrefix(d, "/") then d else "/" + d;
    KeptIsContainer(root);
    RootedBelow(d, n);
    CleanBelow(d, n);
    NotTheDot(KeptAbove(root), n);
    Finishes(path, d + n, KeptAbove(root) + n);
  }

  /** Every path that ends in a hidden name is refused. */
  lemma HiddenIsInternal(path: string)
    requires !IsContainerPath(path) && Hidden(Name(path)) && '\\' !in path
    ensures IsInternalServerPath(path)
  {
    PathParts(path);
    var d, n := TrimmedBelow(Parent(path), Name(path));
    HiddenIsSolid(n);
    ResourcePathBelow(path, d, n);
    var c := KeptAbove(if HasPrefix(d, "/") then d else "/" + d);
    LastSlash(c, n);
    InternalBelow(c, n, path);
  }

  lemma InternalBelow(c: string, n: string, path: string)
    requires CleanResourcePath(path) == c + n && IsContainerPath(c) && '/' !in n && Hidden(n)
    ensures IsInternalServerPath(path)
  {
    var p := c + n;
    LastSlash(c, n);
    assert p[|c|..] == n;
    if c != "" {
      assert p[|c| - 1] == '/';
    } else {
      EmptyConcat(c, n);
    }
  }

  /** What the guard lets through to the store: its file names are its own. */
  lemma GuardedPathsAreEncodable(url: string)
    ensures var p := CleanResourcePath(url);
            && Cleaned(p)
            && (!IsInternalServerPath(p) ==> Encodable(p))
  {
    var p := CleanResourcePath(url);
    ResourcePathsAreCleaned(url);
    CleanedIsNormal(p);
    if !IsContainerPath(p) && Hidden(Name(p)) {
      HiddenIsInternal(p);
    }
  }

  // ----- What the guard makes of a container -----

  lemma {:induction false} RootedElements(q: string)
    requires Cleaned(q) && !IsContainerPath(q)
    ensures Resolve(Split("/" + q), true) == Split(q)
    decreases |q|
  {
    var c, n := Parent(q), Name(q);
    PathParts(q);
    SplitBelow(c, n);
    ConcatAssoc("/", c, n);
    SplitBelow("/" + c, n);
    ResolveBelow(Split(WithoutSlash("/" + c)), n, true);
    RootedAbove(c);
    if c == "" {
      EmptyConcat(Resolve(Split(WithoutSlash("/" + c)), true), [n]);
    } else {
      CleanedFile(c);
      RootedElements(WithoutSlash(c));
    }
  }

  lemma RootedAbove(c: string)
    requires IsContainerPath(c)
    ensures if c == "" then Resolve(Split(WithoutSlash("/" + c)), true) == []
            else WithoutSlash("/" + c) == "/" + WithoutSlash(c)
  {
    if c == "" {
      ConcatEmpty("/", c);
      SingleEmptyResolves();
    }
  }

  lemma LastSlashResolves(q: string, p: string)
    requires p == q + "/"
    ensures Resolve(Split("/" + p), true) == Resolve(Split("/" + q), true)
  {
    SplitBelow("/" + p, "");
    ConcatEmpty("/" + p, "");
    assert WithoutSlash("/" + p) == "/" + q;
    EmptyResolves(Split("/" + q), true);
  }

  lemma ContainerElements(p: string)
    requires Cleaned(p) && IsContainerPath(p) && p != ""
    ensures Join(Resolve(Split("/" + p), true)) == WithoutSlash(p)
  {
    var q := WithoutSlash(p);
    CleanedFile(p);
    LastSlashResolves(q, p);
    RootedElements(q);
    SplitCleaned(q, true);
  }

  lemma NothingTrimmed(p: string)
    requires p != "" && !IsSpace(p[0]) && p[|p| - 1] == '/'
    ensures TrimSpace(p) == p
  {
  }

  lemma FinishesSlashed(path: string, p: string, q: string)
    requires ForwardSlashes(TrimSpace(path)) == p && TrimPrefix(Clean(Rooted(p)), "/") == q
    requires q != "." && q != "" && !EndsInSlash(q) && p == q + "/"
    ensures CleanResourcePath(path) == q + "/"
  {
  }

  /** Cleaning leaves the path of a container alone, when it neither holds a backslash nor begins
      with a space. */
  lemma ContainerPathStays(p: string)
    requires Cleaned(p) && IsContainerPath(p) && p != "" && '\\' !in p && !IsSpace(p[0])
    ensures CleanResourcePath(p) == p
  {
    var q := WithoutSlash(p);
    CleanedStart(p);
    CleanedFile(p);
    CleanedStart(q);
    ContainerElements(p);
    RootedClean(p);
    NothingTrimmed(p);
    FinishesSlashed(p, p, q);
  }

  /** The first element of a path that the guard keeps for the server. */
  predicate Reserved(p: string) {
    var i := IndexByte(p, '/');
    var seg := if i >= 0 then p[..i] else p;
    Lower(seg) == ".openid" || seg == ".root" || seg == ".meta.json" || seg == ".container"
  }

  lemma EndOfContainer(p: string)
    requires p != "" && IsContainerPath(p)
    ensures IndexByte(p, '/') >= 0 && LastIndexByte(p, '/') == |p| - 1
  {
  }

  lemma EmptyIsNotHidden(name: string)
    requires name == ""
    ensures !Hidden(name)
  {
  }

  lemma InternalContainer(path: string, p: string)
    requires CleanResourcePath(path) == p && p != "" && IsContainerPath(p)
    ensures IsInternalServerPath(path) <==> Reserved(p)
  {
    EndOfContainer(p);
    EmptyIsNotHidden(p[|p|..]);
  }

  /** Of a container's path the guard only looks at the first element. */
  lemma ContainerIsInternal(p: string)
    requires Cleaned(p) && IsContainerPath(p) && p != "" && '\\' !in p && !IsSpace(p[0])
    ensures CleanResourcePath(p) == p && (IsInternalServerPath(p) <==> Reserved(p))
  {
    ContainerPathStays(p);
    InternalContainer(p, p);
  }

  lemma RootIsNotInternal(p: string)
    requires p == ""
    ensures CleanResourcePath(p) == p && !IsInternalServerPath(p)
  {
    RootedClean(p);
    assert Rooted(p) == "/";
    SplitBelow("/", "");
    ConcatEmpty("/", "");
    assert WithoutSlash("/") == "";
    SingleEmptyResolves();
  }

  lemma SingleEmptyResolves()
    ensures Split("") == [""] && Resolve([""], true) == [] && Resolve([""] + [""], true) == []
  {
    assert [""][..0] == [];
    EmptyResolves([""], true);
  }
}
