/** Slash-separated paths: the parts of Go's path functions that the store relies on,
    and the guard in front of it. */
module Paths {
  import opened Text

  // ----- path and strings functions -----

  /** strings.HasSuffix for "/" */
  predicate EndsInSlash(p: string) { p != "" && p[|p| - 1] == '/' }

  /** strings.TrimSuffix for "/" */
  function WithoutSlash(p: string): string { if EndsInSlash(p) then p[..|p| - 1] else p }

  /** strings.Split at each '/' */
  function Split(s: string): (segs: seq<string>)
    ensures |segs| > 0
    ensures forall i :: 0 <= i < |segs| ==> '/' !in segs[i]
  {
    var i := LastIndexByte(s, '/');
    if i < 0 then [s] else Split(s[..i]) + [s[i + 1..]]
  }

  function Join(segs: seq<string>): string {
    if segs == [] then ""
    else if |segs| == 1 then segs[0]
    else Join(segs[..|segs| - 1]) + "/" + segs[|segs| - 1]
  }

  /** The elements that path.Clean keeps. */
  function Resolve(segs: seq<string>, rooted: bool): (out: seq<string>)
    ensures rooted ==> forall i :: 0 <= i < |out| ==> Plain(out[i]) && out[i] in segs
  {
    if segs == [] then []
    else
      var out, last := Resolve(segs[..|segs| - 1], rooted), segs[|segs| - 1];
      if last == "" || last == "." then out
      else if last == ".." then
        if out != [] && out[|out| - 1] != ".." then out[..|out| - 1] else if rooted then out else out + [".."]
      else out + [last]
  }

  /** path.Clean and filepath.Clean */
  function Clean(p: string): string {
    if p == "" then "."
    else
      var rooted := p[0] == '/';
      var out := Resolve(Split(p), rooted);
      if rooted then "/" + Join(out) else if out == [] then "." else Join(out)
  }

  /** filepath.Dir */
  function Dir(p: string): string { Clean(p[..LastIndexByte(p, '/') + 1]) }

  function TrimRightSlashes(s: string): string {
    if s != "" && s[|s| - 1] == '/' then TrimRightSlashes(s[..|s| - 1]) else s
  }

  function TrimSlashes(s: string): string {
    if s != "" && s[0] == '/' then TrimSlashes(s[1..]) else TrimRightSlashes(s)
  }

  function AfterLast(s: string): (name: string)
    ensures '/' !in name
  {
    var i := LastIndexByte(s, '/');
    if i < 0 then s else s[i + 1..]
  }

  /** filepath.Base */
  function Base(p: string): string {
    var s := TrimRightSlashes(p);
    if p == "" then "." else if s == "" then "/" else AfterLast(s)
  }

  function ForwardSlashes(s: string): (r: string)
    ensures '\\' !in r
    ensures '\\' !in s ==> r == s
  {
    if s == "" then "" else ForwardSlashes(s[..|s| - 1]) + [if s[|s| - 1] == '\\' then '/' else s[|s| - 1]]
  }

  /** The store's own normalization, which takes cleaned paths for granted. */
  function Normalize(path: string): string {
    var p := TrimPrefix(path, "/");
    if p == "." then "" else p
  }

  // ----- The guard -----

  function Rooted(p: string): string { if HasPrefix(p, "/") then p else "/" + p }

  function CleanResourcePath(path: string): string {
    var p := ForwardSlashes(TrimSpace(path));
    var q := TrimPrefix(Clean(Rooted(p)), "/");
    if q == "." then "" else if EndsInSlash(p) && q != "" && !EndsInSlash(q) then q + "/" else q
  }

  predicate Hidden(name: string) {
    name == ".meta.json" || name == ".container" || name == ".root" || HasSuffix(name, ".meta.json")
  }

  function Lower(s: string): string {
    seq(|s|, i requires 0 <= i < |s| => if 'A' <= s[i] <= 'Z' then s[i] - 'A' + 'a' else s[i])
  }

  predicate IsInternalServerPath(path: string) {
    var p := CleanResourcePath(path);
    var i := IndexByte(p, '/');
    var seg := if i >= 0 then p[..i] else p;
    p != ""
    && (|| Lower(seg) == ".openid" || seg == ".root" || seg == ".meta.json" || seg == ".container"
        || Hidden(if i >= 0 then p[LastIndexByte(p, '/') + 1..] else seg))
  }

  // ----- Cleaned paths -----

  predicate Plain(name: string) { name != "" && name != "." && name != ".." }

  predicate IsContainerPath(p: string) { p == "" || EndsInSlash(p) }

  /** The container that a path is directly in; "" is its own. */
  function Parent(p: string): (c: string)
    ensures |c| <= |p|
    ensures p != "" ==> |c| < |p|
    ensures IsContainerPath(c)
  {
    var q := WithoutSlash(p);
    q[..LastIndexByte(q, '/') + 1]
  }

  /** The last element of a path. */
  function Name(p: string): (name: string)
    ensures '/' !in name
  {
    AfterLast(WithoutSlash(p))
  }

  lemma PathParts(p: string)
    ensures Parent(p) + Name(p) == WithoutSlash(p)
    ensures p == if p != "" && IsContainerPath(p) then Parent(p) + Name(p) + "/" else Parent(p) + Name(p)
  {
  }

  ghost predicate Cleaned(p: string)
    decreases |p|
  {
    p == "" || (Plain(Name(p)) && Cleaned(Parent(p)))
  }

  /** A name put below a container. */
  lemma Below(c: string, name: string)
    requires IsContainerPath(c) && '/' !in name && name != ""
    ensures Parent(c + name) == c && Name(c + name) == name && !IsContainerPath(c + name)
    ensures Parent(c + name + "/") == c && Name(c + name + "/") == name && IsContainerPath(c + name + "/")
    ensures LastIndexByte(c + name, '/') == |c| - 1
  {
    var p := c + name;
    assert p[|p| - 1] == name[|name| - 1];
    LastSlash(c, name);
    assert WithoutSlash(p) == p && WithoutSlash(p + "/") == p;
  }

  lemma LastSlash(c: string, name: string)
    requires IsContainerPath(c) && '/' !in name
    ensures LastIndexByte(c + name, '/') == |c| - 1
  {
    assert (c + name)[|c|..] == name;
    LastIndexIs(c + name, '/', |c| - 1);
  }

  lemma LastSlashAfter(s: string, i: nat)
    requires i < |s| && s[i] == '/'
    ensures i <= LastIndexByte(s, '/')
    decreases |s|
  {
  }

  lemma LastIndexIs(s: string, ch: char, i: int)
    requires -1 <= i < |s| && (i >= 0 ==> s[i] == ch) && ch !in s[i + 1..]
    ensures LastIndexByte(s, ch) == i
    decreases |s|
  {
  }

  lemma CleanedStart(p: string)
    requires Cleaned(p)
    ensures p != "" ==> p[0] != '/'
    ensures p != "."
    decreases |p|
  {
  }

  lemma CleanedIsNormal(p: string)
    requires Cleaned(p)
    ensures Normalize(p) == p
  {
    CleanedStart(p);
  }

  lemma SplitBelow(c: string, name: string)
    requires IsContainerPath(c) && '/' !in name
    ensures Split(c + name) == if c == "" then [name] else Split(WithoutSlash(c)) + [name]
  {
    LastSlash(c, name);
    if c == "" {
      EmptyConcat(c, name);
    } else {
      assert (c + name)[..|c| - 1] == WithoutSlash(c);
      assert (c + name)[|c|..] == name;
    }
  }

  lemma ResolveBelow(segs: seq<string>, name: string, rooted: bool)
    requires Plain(name)
    ensures Resolve(segs + [name], rooted) == Resolve(segs, rooted) + [name]
  {
    assert (segs + [name])[..|segs|] == segs;
  }

  lemma JoinBelow(segs: seq<string>, name: string)
    ensures Join(segs + [name]) == if segs == [] then name else Join(segs) + "/" + name
  {
    assert (segs + [name])[..|segs|] == segs;
  }

  /** Cleaning leaves a cleaned path alone. */
  lemma {:induction false} SplitCleaned(p: string, rooted: bool)
    requires Cleaned(p) && !IsContainerPath(p)
    ensures Resolve(Split(p), rooted) == Split(p) && Join(Split(p)) == p
    decreases |p|
  {
    var c, name := Parent(p), Name(p);
    SplitBelow(c, name);
    PathParts(p);
    if c == "" {
      SingleResolves(name, rooted);
      EmptyConcat(c, name);
    } else {
      var q := WithoutSlash(c);
      CleanedFile(c);
      SplitCleaned(q, rooted);
      ResolveBelow(Split(q), name, rooted);
      JoinBelow(Split(q), name);
    }
  }

  lemma SingleResolves(name: string, rooted: bool)
    requires Plain(name)
    ensures Resolve([name], rooted) == [name]
  {
    assert [name][..0] == [];
  }

  lemma CleanedFile(c: string)
    requires Cleaned(c) && c != "" && IsContainerPath(c)
    ensures Cleaned(WithoutSlash(c)) && !IsContainerPath(WithoutSlash(c)) && WithoutSlash(c) != ""
    ensures Parent(WithoutSlash(c)) == Parent(c) && WithoutSlash(c) + "/" == c
  {
    PathParts(c);
    Below(Parent(c), Name(c));
  }

  /** What cleaning makes of the path of a document's container. */
  lemma DirOfDocument(p: string)
    requires Cleaned(p) && !IsContainerPath(p)
    ensures Dir(p) == if Parent(p) == "" then "." else WithoutSlash(Parent(p))
  {
    var c := Parent(p);
    PathParts(p);
    LastSlash(c, Name(p));
    assert p[..LastIndexByte(p, '/') + 1] == c;
    if c != "" {
      CleanedStart(c);
      CleanedFile(c);
      var q := WithoutSlash(c);
      SplitBelow(c, "");
      ConcatEmpty(c, "");
      SplitCleaned(q, false);
      EmptyResolves(Split(q), false);
    }
  }

  lemma EmptyResolves(segs: seq<string>, rooted: bool)
    ensures Resolve(segs + [""], rooted) == Resolve(segs, rooted)
  {
    assert (segs + [""])[..|segs|] == segs;
  }

  /** The containers that the loop over the parts of a path passes through, as one path. */
  function Squeeze(segs: seq<string>): string {
    if segs == [] then ""
    else Squeeze(segs[..|segs| - 1]) + if segs[|segs| - 1] == "" then "" else segs[|segs| - 1] + "/"
  }

  lemma SqueezeBelow(segs: seq<string>, name: string)
    ensures Squeeze(segs + [name]) == if name == "" then Squeeze(segs) else Squeeze(segs) + (name + "/")
  {
    assert (segs + [name])[..|segs|] == segs;
    ConcatEmpty(Squeeze(segs), "");
  }

  lemma {:induction false} SqueezeCleaned(c: string)
    requires Cleaned(c) && IsContainerPath(c)
    ensures Squeeze(Split(WithoutSlash(c))) == c
    decreases |c|
  {
    if c == "" {
      assert Split("") == [""] && [""][..0] == [];
    } else {
      var above, name := Parent(c), Name(c);
      PathParts(c);
      CleanedFile(c);
      SplitBelow(above, name);
      ConcatAssoc(above, name, "/");
      if above == "" {
        SingleSqueezes(name);
        EmptyConcat(above, name);
      } else {
        SqueezeCleaned(above);
        SqueezeBelow(Split(WithoutSlash(above)), name);
      }
    }
  }

  lemma SingleSqueezes(name: string)
    requires name != ""
    ensures Squeeze([name]) == name + "/"
  {
    assert [name][..0] == [];
    EmptyConcat("", name + "/");
  }

  lemma TrimSlashesCleaned(p: string)
    requires Cleaned(p)
    ensures TrimSlashes(p) == WithoutSlash(p)
  {
    if p != "" {
      CleanedStart(p);
      if IsContainerPath(p) {
        CleanedFile(p);
      }
    }
  }

  lemma WithoutSlashBelow(c: string, n: string)
    requires n != "" && n[0] != '/'
    ensures WithoutSlash(c + n) == c + WithoutSlash(n)
  {
    assert (c + n)[|c + n| - 1] == n[|n| - 1];
  }

  /** A relative path put below a container. */
  lemma PathBelow(c: string, n: string)
    requires IsContainerPath(c) && n != "" && n[0] != '/'
    ensures Parent(c + n) == c + Parent(n) && Name(c + n) == Name(n)
    ensures Parent(n) != "" ==> Parent(n)[0] != '/'
  {
    WithoutSlashBelow(c, n);
    PathParts(n);
    ConcatAssoc(c, Parent(n), Name(n));
    LastPart(c + WithoutSlash(n), c + Parent(n), Name(n));
  }

  lemma LastPart(q: string, c: string, name: string)
    requires q == c + name && IsContainerPath(c) && '/' !in name
    ensures q[..LastIndexByte(q, '/') + 1] == c && AfterLast(q) == name
  {
    LastSlash(c, name);
    assert q[|c|..] == name;
  }

  lemma {:induction false} CleanedPathBelow(c: string, n: string)
    requires IsContainerPath(c) && Cleaned(c) && n != "" && n[0] != '/'
    ensures Cleaned(c + n) <==> Cleaned(n)
    decreases |n|
  {
    PathBelow(c, n);
    if Parent(n) == "" {
      ConcatEmpty(c, Parent(n));
    } else {
      CleanedPathBelow(c, Parent(n));
    }
  }

  lemma {:induction false} TrimRightSlashesEnds(s: string)
    ensures var r := TrimRightSlashes(s); r <= s && (r != "" ==> r[|r| - 1] != '/')
  {
    if s != "" && s[|s| - 1] == '/' {
      TrimRightSlashesEnds(s[..|s| - 1]);
    }
  }

  lemma {:induction false} TrimSlashesEnds(s: string)
    ensures var r := TrimSlashes(s); r != "" ==> r[0] != '/' && r[|r| - 1] != '/'
  {
    if s != "" && s[0] == '/' {
      TrimSlashesEnds(s[1..]);
    } else {
      TrimRightSlashesEnds(s);
    }
  }
}
