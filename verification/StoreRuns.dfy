/** What holds of the store after any sequence of operations. */
module StoreRuns {
  import opened Text
  import opened Paths
  import opened Guard
  import opened Store
  import opened StoreEncoding

  // ----- Operations -----

  datatype Op =
    | Put(path: string, contentType: string, body: string, ifMatch: string, ifNoneMatch: string, now: int)
    | PutContainer(path: string, now: int)
    | Post(container: string, slug: string, contentType: string, body: string, asContainer: bool, now: int,
           stamp: string, again: string)
    | EnsureContainer(path: string, now: int)
    | Delete(path: string, ifMatch: string)

  function Apply(fs: Files, etagOf: string -> string, op: Op): Files {
    match op
    case Put(path, ct, body, ifMatch, ifNoneMatch, now) =>
      PutFiles(fs, etagOf, path, ct, body, ifMatch, ifNoneMatch, now).0
    case PutContainer(path, now) => PutContainerFiles(fs, etagOf, path, now)
    case Post(container, slug, ct, body, asContainer, now, stamp, again) =>
      PostFiles(fs, etagOf, container, slug, ct, body, asContainer, now, stamp, again).0
    case EnsureContainer(path, now) => Ensured(fs, etagOf, path, now)
    case Delete(path, ifMatch) => DeleteFiles(fs, path, ifMatch).0
  }

  function Run(fs: Files, etagOf: string -> string, ops: seq<Op>): Files {
    if ops == [] then fs else Apply(Run(fs, etagOf, ops[..|ops| - 1]), etagOf, ops[|ops| - 1])
  }

  function SlugName(slug: string, stamp: string): string {
    TrimSlashes(if slug == "" then "resource-" + stamp else slug)
  }

  /** What the handlers make sure of: paths are cleaned, and the guard has seen that of a document. A
      Slug header is passed on as it is; the second reading of the clock is a number. */
  ghost predicate OpGuarded(op: Op) {
    match op
    case Put(path, _, _, _, _, _) => Storable(path)
    case PutContainer(path, _) => Cleaned(path)
    case Post(container, _, _, _, _, _, _, again) => Cleaned(container) && IsNumber(again)
    case EnsureContainer(path, _) => Cleaned(path)
    case Delete(path, _) => Cleaned(path)
  }

  predicate IsNumber(s: string) { s != "" && forall i :: 0 <= i < |s| ==> '0' <= s[i] <= '9' }

  /** The slugs that name a resource: cleaned, and for a document not ending in a bookkeeping name. */
  ghost predicate SlugFits(container: string, slug: string, asContainer: bool, stamp: string) {
    var name := SlugName(slug, stamp);
    if name == "" then asContainer ==> container == ""
    else Cleaned(name) && (asContainer || !Hidden(Name(name)))
  }

  function RootTag(fs: Files, etagOf: string -> string): string {
    var root := ReadMeta(fs, "");
    if root.Done? then root.value.etag else etagOf(CONTAINER_BODY)
  }

  /** What the handlers leave open: the slug, and a Put to the root that its headers do not stop. */
  ghost predicate Fits(fs: Files, etagOf: string -> string, op: Op) {
    match op
    case Put(path, _, _, ifMatch, ifNoneMatch, _) =>
      path == "" ==> ifNoneMatch == "*" || (ifMatch != "" && ifMatch != "*" && ifMatch != RootTag(fs, etagOf))
    case Post(container, slug, _, _, asContainer, _, stamp, _) => SlugFits(container, slug, asContainer, stamp)
    case _ => true
  }

  // ----- Containers on the way -----

  lemma CleanedContainer(p: string)
    requires Cleaned(p)
    ensures Cleaned(AsContainer(p)) && IsContainerPath(AsContainer(p)) && Storable(AsContainer(p))
    ensures Normalize(p) == p
    ensures IsContainerPath(p) ==> AsContainer(p) == p
  {
    CleanedIsNormal(p);
    if p != "" {
      if !IsContainerPath(p) {
        ContainerCleaned(p);
      }
    }
    CleanedIsNormal(AsContainer(p));
  }

  /** Adding resources: those known stay as they are. */
  lemma GrowsFurther(a: Files, b: Files, c: Files)
    requires Grows(a, b) && Grows(b, c)
    ensures Grows(a, c)
  {
    forall q ensures Keeps(a, c, q) {
      assert Keeps(a, b, q) && Keeps(b, c, q);
    }
  }

  lemma GrowsFromOne(fs: Files, fs': Files, p: string)
    requires SameButFor(fs, fs', p) && !Has(fs, p)
    ensures Grows(fs, fs')
  {
    forall q ensures Keeps(fs, fs', q) {
    }
  }

  lemma HasIsKnown(fs: Files, etagOf: string -> string, p: string)
    requires Coherent(fs, etagOf)
    ensures Known(fs, p) <==> Has(fs, p)
  {
    assert Sound(fs, etagOf, p);
  }

  /** The containers of a path: what is in the files beside those of another state. */
  ghost predicate AddsOnly(fs: Files, fs': Files, c: string) {
    forall q :: Has(fs', q) && !Has(fs, q) ==> q == c || Above(q, c)
  }

  /** `q` is a container that `c` is in. */
  predicate Above(q: string, c: string)
    decreases |c|
  {
    c != "" && (q == Parent(c) || Above(q, Parent(c)))
  }

  lemma WithContainerAdds(fs: Files, etagOf: string -> string, c: string, now: int)
    requires Coherent(fs, etagOf) && Cleaned(c) && IsContainerPath(c)
    ensures var fs' := WithContainer(fs, etagOf, c, now);
            Coherent(fs', etagOf) && Grows(fs, fs') && Has(fs', c) && SameButFor(fs, fs', c)
  {
    CleanedContainer(c);
    HasIsKnown(fs, etagOf, c);
    var m, body := ContainerIsWritten(fs, etagOf, c, now);
    if !Has(fs, c) {
      WriteIsCoherent(fs, etagOf, c, m, body);
      GrowsFromOne(fs, Write(fs, c, m, body), c);
    }
  }

  lemma ContainerIsWritten(fs: Files, etagOf: string -> string, c: string, now: int) returns (m: Meta, body: string)
    requires Normalize(c) == c && AsContainer(c) == c
    ensures m.etag == etagOf(body) && m.isContainer
    ensures WithContainer(fs, etagOf, c, now) == if Known(fs, c) then fs else Write(fs, c, m, body)
  {
    m, body := ContainerMeta(etagOf, now), CONTAINER_BODY;
  }

  lemma {:induction false} WithAncestorsAdds(fs: Files, etagOf: string -> string, c: string, now: int)
    requires Coherent(fs, etagOf) && Cleaned(c) && IsContainerPath(c)
    ensures var fs' := WithAncestors(fs, etagOf, c, now);
            Coherent(fs', etagOf) && Grows(fs, fs') && (c != "" ==> Has(fs', c)) && AddsOnly(fs, fs', c)
    decreases |c|
  {
    if c != "" {
      var above := WithAncestors(fs, etagOf, Parent(c), now);
      WithAncestorsAdds(fs, etagOf, Parent(c), now);
      WithContainerAdds(above, etagOf, c, now);
      GrowsFurther(fs, above, WithContainer(above, etagOf, c, now));
    }
  }

  lemma EnsuredParts(p: string)
    requires Cleaned(p) && IsContainerPath(p)
    ensures Squeeze(Split(TrimSlashes(p))) == p && p != "/"
  {
    TrimSlashesCleaned(p);
    SqueezeCleaned(p);
    if p != "" {
      CleanedStart(p);
    }
  }

  lemma EnsuredIs(fs: Files, etagOf: string -> string, c: string, now: int)
    requires Cleaned(c) && c != ""
    ensures Ensured(fs, etagOf, c, now) == WithAncestors(fs, etagOf, AsContainer(c), now)
  {
    CleanedContainer(c);
    EnsuredParts(AsContainer(c));
  }

  lemma EnsuredRoot(fs: Files, etagOf: string -> string, c: string, now: int)
    requires c == ""
    ensures Ensured(fs, etagOf, c, now) == WithContainer(fs, etagOf, c, now)
  {
  }

  lemma EnsuredAdds(fs: Files, etagOf: string -> string, c: string, now: int)
    requires Coherent(fs, etagOf) && Cleaned(c)
    ensures var fs' := Ensured(fs, etagOf, c, now);
            Coherent(fs', etagOf) && Grows(fs, fs') && Has(fs', AsContainer(c)) && AddsOnly(fs, fs', AsContainer(c))
  {
    CleanedContainer(c);
    if c == "" {
      EnsuredRoot(fs, etagOf, c, now);
      WithContainerAdds(fs, etagOf, c, now);
    } else {
      EnsuredIs(fs, etagOf, c, now);
      WithAncestorsAdds(fs, etagOf, AsContainer(c), now);
    }
  }

  /** A path and all the containers it is in are known. */
  ghost predicate Complete(fs: Files, c: string) {
    forall q :: q != "" && (q == c || Above(q, c)) ==> Has(fs, q)
  }

  lemma CompleteFurther(fs: Files, fs': Files, c: string)
    requires Complete(fs, c) && Grows(fs, fs')
    ensures Complete(fs', c)
  {
    forall q | q != "" && (q == c || Above(q, c)) ensures Has(fs', q) {
      assert Has(fs, q) && Keeps(fs, fs', q);
    }
  }

  lemma CompleteBelow(fs: Files, c: string)
    requires c != "" && Complete(fs, Parent(c)) && Has(fs, c)
    ensures Complete(fs, c)
  {
  }

  lemma {:induction false} WithAncestorsComplete(fs: Files, etagOf: string -> string, c: string, now: int)
    requires Coherent(fs, etagOf) && Cleaned(c) && IsContainerPath(c)
    ensures Complete(WithAncestors(fs, etagOf, c, now), c)
    decreases |c|
  {
    if c != "" {
      var above := WithAncestors(fs, etagOf, Parent(c), now);
      WithAncestorsAdds(fs, etagOf, Parent(c), now);
      WithAncestorsComplete(fs, etagOf, Parent(c), now);
      WithContainerAdds(above, etagOf, c, now);
      CompleteFurther(above, WithContainer(above, etagOf, c, now), Parent(c));
      CompleteBelow(WithContainer(above, etagOf, c, now), c);
    }
  }

  /** What an operation that creates does: `mid` has the containers, and the rest happens to `p`. */
  ghost predicate Prepared(fs: Files, etagOf: string -> string, mid: Files, c: string) {
    Coherent(mid, etagOf) && Grows(fs, mid) && AddsOnly(fs, mid, c) && Complete(mid, c)
  }

  lemma EnsuredPrepares(fs: Files, etagOf: string -> string, c: string, now: int)
    requires Coherent(fs, etagOf) && Cleaned(c)
    ensures Prepared(fs, etagOf, Ensured(fs, etagOf, c, now), AsContainer(c))
  {
    EnsuredAdds(fs, etagOf, c, now);
    CleanedContainer(c);
    if c != "" {
      EnsuredIs(fs, etagOf, c, now);
      WithAncestorsComplete(fs, etagOf, AsContainer(c), now);
    }
  }

  lemma ParentDir(p: string)
    requires Cleaned(p) && !IsContainerPath(p)
    ensures HasParentDir(Dir(p)) <==> Parent(p) != ""
    ensures Parent(p) != "" ==> Dir(p) + "/" == Parent(p)
  {
    DirOfDocument(p);
    var c := Parent(p);
    if c != "" {
      CleanedFile(c);
      CleanedStart(WithoutSlash(c));
    }
  }

  lemma ParentsPrepared(fs: Files, etagOf: string -> string, p: string, now: int)
    requires Coherent(fs, etagOf) && Cleaned(p) && !IsContainerPath(p)
    ensures Prepared(fs, etagOf, WithParents(fs, etagOf, p, now), Parent(p))
  {
    ParentDir(p);
    var c := Parent(p);
    CleanedContainer(c);
    if c == "" {
      WithContainerAdds(fs, etagOf, c, now);
    } else {
      EnsuredPrepares(fs, etagOf, c, now);
    }
  }

  // ----- The effect of each operation -----

  /** `p` and its containers are there, and what else there was is as it was. */
  ghost predicate Created(fs: Files, etagOf: string -> string, fs': Files, p: string) {
    Coherent(fs', etagOf) && (forall q :: q != p ==> Keeps(fs, fs', q)) && AddsOnly(fs, fs', p) && Complete(fs', p)
  }

  lemma {:induction false} AboveIsContainer(q: string, c: string)
    requires Above(q, c)
    ensures IsContainerPath(q) && |q| < |c|
    decreases |c|
  {
    if q != Parent(c) {
      AboveIsContainer(q, Parent(c));
    }
  }

  lemma WrittenCreates(fs: Files, etagOf: string -> string, mid: Files, p: string, m: Meta, body: string)
    requires Prepared(fs, etagOf, mid, Parent(p)) && Storable(p) && p != ""
    requires m.etag == etagOf(body) && (m.isContainer <==> IsContainerPath(p))
    ensures Created(fs, etagOf, Write(mid, p, m, body), p)
  {
    var fs' := Write(mid, p, m, body);
    WriteIsCoherent(mid, etagOf, p, m, body);
    forall q | q != p ensures Keeps(fs, fs', q) {
      assert Keeps(fs, mid, q) && Keeps(mid, fs', q);
    }
    forall q | Has(fs', q) && !Has(fs, q) ensures q == p || Above(q, p) {
      if q != p {
        assert Has(mid, q);
      }
    }
    forall q | q != "" && (q == p || Above(q, p)) ensures Has(fs', q) {
      if q != p {
        assert Has(mid, q) && Keeps(mid, fs', q);
      }
    }
  }

  /** A new document is not among the containers on the way to it. */
  lemma PreparedForDocument(fs: Files, etagOf: string -> string, mid: Files, p: string)
    requires Prepared(fs, etagOf, mid, Parent(p)) && !IsContainerPath(p)
    ensures ReadMeta(mid, p) == ReadMeta(fs, p) && (Has(mid, p) <==> Has(fs, p))
  {
    assert Keeps(fs, mid, p);
    if Has(mid, p) && !Has(fs, p) {
      if Above(p, Parent(p)) {
        AboveIsContainer(p, Parent(p));
      }
    }
  }

  function PutMeta(was: Option<Meta>, etagOf: string -> string, contentType: string, body: string, now: int): Meta {
    DocumentMeta(etagOf, contentType, body, now, if was.Some? then was.value.created else now)
  }

  /** What a read of a document gives right after it was written. */
  predicate Reads(fs: Files, p: string, m: Meta, body: string) {
    Read(fs, p) == Done(Resource(p, false, m.contentType, body, m.etag, m.modified, m.created))
  }

  lemma CheckedEffect(fs: Files, etagOf: string -> string, mid: Files, p: string, m: Meta, body: string)
    requires Prepared(fs, etagOf, mid, Parent(p)) && Storable(p) && !IsContainerPath(p)
    requires m.etag == etagOf(body) && !m.isContainer
    ensures Created(fs, etagOf, Write(mid, p, m, body), p) && Reads(Write(mid, p, m, body), p, m, body)
  {
    WrittenCreates(fs, etagOf, mid, p, m, body);
    WrittenIsSound(mid, etagOf, p, m, body);
  }

  lemma PutUnfolds(fs: Files, etagOf: string -> string, p: string, contentType: string, body: string,
                   ifMatch: string, ifNoneMatch: string, now: int)
    requires Cleaned(p) && !IsContainerPath(p)
    ensures PutFiles(fs, etagOf, p, contentType, body, ifMatch, ifNoneMatch, now)
         == PutChecked(WithParents(fs, etagOf, p, now), etagOf, p, contentType, body, ifMatch, ifNoneMatch, now)
  {
    CleanedIsNormal(p);
  }

  lemma CheckedUnfolds(mid: Files, etagOf: string -> string, p: string, contentType: string, body: string,
                       ifMatch: string, ifNoneMatch: string, now: int)
    requires ReadMeta(mid, p) != Fail(Unreadable)
    ensures var was := MetaOf(ReadMeta(mid, p));
            PutChecked(mid, etagOf, p, contentType, body, ifMatch, ifNoneMatch, now)
            == if CheckPreconditions(was, ifMatch, ifNoneMatch)
               then (Write(mid, p, PutMeta(was, etagOf, contentType, body, now), body), None)
               else (mid, Some(Precondition))
  {
  }

  /** A Put succeeds exactly when its conditions hold of the resource as it was, and then the document
      reads as it was put; otherwise nothing but containers may have been added. */
  lemma PutEffect(fs: Files, etagOf: string -> string, p: string, contentType: string, body: string,
                  ifMatch: string, ifNoneMatch: string, now: int)
    requires Coherent(fs, etagOf) && Storable(p) && !IsContainerPath(p)
    ensures var (fs', err) := PutFiles(fs, etagOf, p, contentType, body, ifMatch, ifNoneMatch, now);
            var was := MetaOf(ReadMeta(fs, p));
            if CheckPreconditions(was, ifMatch, ifNoneMatch) then
              && err.None? && Created(fs, etagOf, fs', p)
              && Reads(fs', p, PutMeta(was, etagOf, contentType, body, now), body)
            else err == Some(Precondition) && Prepared(fs, etagOf, fs', Parent(p))
  {
    var mid := WithParents(fs, etagOf, p, now);
    ParentsPrepared(fs, etagOf, p, now);
    PreparedForDocument(fs, etagOf, mid, p);
    assert Sound(fs, etagOf, p);
    PutUnfolds(fs, etagOf, p, contentType, body, ifMatch, ifNoneMatch, now);
    CheckedUnfolds(mid, etagOf, p, contentType, body, ifMatch, ifNoneMatch, now);
    var was := MetaOf(ReadMeta(fs, p));
    CheckedEffect(fs, etagOf, mid, p, PutMeta(was, etagOf, contentType, body, now), body);
  }

  lemma RootIsTagged(fs: Files, etagOf: string -> string, p: string, now: int)
    requires Coherent(fs, etagOf) && p == ""
    ensures var mid := WithContainer(fs, etagOf, p, now);
            Prepared(fs, etagOf, mid, p) && Known(mid, p) && ReadMeta(mid, p).value.etag == RootTag(fs, etagOf)
  {
    WithContainerAdds(fs, etagOf, p, now);
    var mid := WithContainer(fs, etagOf, p, now);
    HasIsKnown(mid, etagOf, p);
    assert AsContainer(Normalize(p)) == p;
    RootMeta(fs, etagOf, p, now);
  }

  lemma RootMeta(fs: Files, etagOf: string -> string, p: string, now: int)
    requires AsContainer(Normalize(p)) == p == ""
    ensures var m := ReadMeta(WithContainer(fs, etagOf, p, now), p); m.Done? && m.value.etag == RootTag(fs, etagOf)
  {
    if !Known(fs, p) {
      FileNamesDiffer(p);
      assert ContainerMeta(etagOf, now).etag == etagOf(CONTAINER_BODY);
    }
  }

  /** A Put to the root writes a document over the root container, unless its conditions keep it from that. */
  lemma PutRootEffect(fs: Files, etagOf: string -> string, p: string, contentType: string, body: string,
                      ifMatch: string, ifNoneMatch: string, now: int)
    requires Coherent(fs, etagOf) && p == ""
    ensures var (fs', err) := PutFiles(fs, etagOf, p, contentType, body, ifMatch, ifNoneMatch, now);
            var stopped := ifNoneMatch == "*" || (ifMatch != "" && ifMatch != "*" && ifMatch != RootTag(fs, etagOf));
            && (Coherent(fs', etagOf) <==> stopped)
            && (err.None? <==> !stopped)
            && (stopped ==> Prepared(fs, etagOf, fs', p) && err == Some(Precondition))
  {
    RootIsTagged(fs, etagOf, p, now);
    var mid := WithContainer(fs, etagOf, p, now);
    PutRootUnfolds(fs, etagOf, p, contentType, body, ifMatch, ifNoneMatch, now);
    CheckedUnfolds(mid, etagOf, p, contentType, body, ifMatch, ifNoneMatch, now);
    RootIsNoDocument(mid, etagOf, p, PutMeta(MetaOf(ReadMeta(mid, p)), etagOf, contentType, body, now), body);
  }

  lemma PutRootUnfolds(fs: Files, etagOf: string -> string, p: string, contentType: string, body: string,
                       ifMatch: string, ifNoneMatch: string, now: int)
    requires p == ""
    ensures PutFiles(fs, etagOf, p, contentType, body, ifMatch, ifNoneMatch, now)
         == PutChecked(WithContainer(fs, etagOf, p, now), etagOf, p, contentType, body, ifMatch, ifNoneMatch, now)
  {
    assert Normalize(p) == p && Dir(p) == ".";
  }

  lemma RootIsNoDocument(mid: Files, etagOf: string -> string, p: string, m: Meta, body: string)
    requires p == "" && !m.isContainer
    ensures !Coherent(Write(mid, p, m, body), etagOf)
  {
    FileNamesDiffer(p);
    assert !Sound(Write(mid, p, m, body), etagOf, p);
  }

  lemma ContainerCreates(fs: Files, etagOf: string -> string, mid: Files, c: string, now: int)
    requires Prepared(fs, etagOf, mid, Parent(c)) && Cleaned(c) && IsContainerPath(c)
    ensures var fs' := WithContainer(mid, etagOf, c, now); Created(fs, etagOf, fs', c) && Grows(fs, fs')
  {
    var fs' := WithContainer(mid, etagOf, c, now);
    WithContainerAdds(mid, etagOf, c, now);
    GrowsFurther(fs, mid, fs');
    CompleteFurther(mid, fs', Parent(c));
    if c != "" {
      CompleteBelow(fs', c);
    }
    forall q | Has(fs', q) && !Has(fs, q) ensures q == c || Above(q, c) {
      if q != c {
        assert Has(mid, q);
      }
    }
  }

  lemma PutContainerUnfolds(fs: Files, etagOf: string -> string, path: string, c: string, now: int)
    requires Cleaned(path) && c == AsContainer(path)
    ensures PutContainerFiles(fs, etagOf, path, now)
         == WithContainer(if Parent(c) == "" then fs else Ensured(fs, etagOf, Parent(c), now), etagOf, c, now)
  {
    CleanedContainer(path);
    ContainerDir(c);
  }

  lemma PutContainerEffect(fs: Files, etagOf: string -> string, path: string, now: int)
    requires Coherent(fs, etagOf) && Cleaned(path)
    ensures var fs' := PutContainerFiles(fs, etagOf, path, now);
            Created(fs, etagOf, fs', AsContainer(path)) && Grows(fs, fs')
  {
    CleanedContainer(path);
    var c := AsContainer(path);
    PutContainerUnfolds(fs, etagOf, path, c, now);
    if Parent(c) == "" {
      ContainerCreates(fs, etagOf, fs, c, now);
    } else {
      CleanedContainer(Parent(c));
      EnsuredPrepares(fs, etagOf, Parent(c), now);
      ContainerCreates(fs, etagOf, Ensured(fs, etagOf, Parent(c), now), c, now);
    }
  }

  lemma ContainerDir(c: string)
    requires Cleaned(c) && IsContainerPath(c)
    ensures var dir := Dir(WithoutSlash(c));
            (HasParentDir(dir) <==> Parent(c) != "") && (Parent(c) != "" ==> dir + "/" == Parent(c))
  {
    if c != "" {
      CleanedFile(c);
      ParentDir(WithoutSlash(c));
    } else {
      assert WithoutSlash(c) == "" && Dir("") == ".";
    }
  }

  lemma StorableBelow(c: string, name: string)
    requires Cleaned(c) && IsContainerPath(c) && '/' !in name && Plain(name)
    ensures Cleaned(c + name) && Parent(c + name) == c && !IsContainerPath(c + name)
    ensures !Hidden(name) ==> Storable(c + name)
    ensures Cleaned(c + name + "/") && IsContainerPath(c + name + "/") && Parent(c + name + "/") == c
  {
    Below(c, name);
    CleanedIsNormal(c + name);
  }

  /** A name that ends in digits is no hidden one. */
  lemma StampedName(name: string, again: string)
    requires '/' !in name && IsNumber(again)
    ensures var n := name + "-" + again; '/' !in n && Plain(n) && !Hidden(n)
  {
    var n := name + "-" + again;
    assert n[|n| - 1] == again[|again| - 1];
    if Hidden(n) {
      HiddenEnds(n);
    }
  }

  lemma HiddenEnds(n: string)
    requires Hidden(n)
    ensures n != "" && !('0' <= n[|n| - 1] <= '9')
  {
    assert n[|n| - 1] == 'n' || n[|n| - 1] == 'r' || n[|n| - 1] == 't';
  }

  lemma PostUnfolds(fs: Files, container: string, slug: string, asContainer: bool, stamp: string, again: string)
    requires Cleaned(container)
    ensures var c, name := AsContainer(container), SlugName(slug, stamp);
            PostPath(fs, container, slug, asContainer, stamp, again)
            == if asContainer then c + name + "/"
               else if Known(fs, c + name) then c + (name + "-" + again) else c + name
  {
    CleanedIsNormal(container);
    var c, name := AsContainer(container), SlugName(slug, stamp);
    assert c + name + "-" + again == c + (name + "-" + again);
  }

  /** A path that a slug names: when it can be stored, and where it is. */
  lemma SlugPath(c: string, name: string)
    requires Cleaned(c) && IsContainerPath(c) && name != "" && name[0] != '/' && name[|name| - 1] != '/'
    ensures !IsContainerPath(c + name) && Parent(c + name) == c + Parent(name) && Name(c + name) == Name(name)
    ensures Storable(c + name) <==> Cleaned(name) && !Hidden(Name(name))
  {
    PathBelow(c, name);
    CleanedPathBelow(c, name);
    assert (c + name)[|c + name| - 1] == name[|name| - 1];
    if Cleaned(c + name) {
      CleanedIsNormal(c + name);
    }
  }

  lemma SlashedName(name: string)
    requires name != "" && name[|name| - 1] != '/'
    ensures Parent(name + "/") == Parent(name) && Name(name + "/") == Name(name)
    ensures Cleaned(name + "/") <==> Cleaned(name)
  {
    assert WithoutSlash(name + "/") == name && WithoutSlash(name) == name;
  }

  lemma SlugContainer(c: string, name: string)
    requires Cleaned(c) && IsContainerPath(c) && name != "" && name[0] != '/' && name[|name| - 1] != '/'
    ensures var p := c + name + "/";
            && p != "" && IsContainerPath(p) && Parent(p) == c + Parent(name)
            && Normalize(p) == p && AsContainer(p) == p
            && (Cleaned(p) <==> Cleaned(name))
  {
    SlugPath(c, name);
    CleanedPathBelow(c, name);
    assert (c + name)[|c + name| - 1] == name[|name| - 1];
    SlashedName(c + name);
    FirstOfSlugPath(c, name);
    NormalContainer(c + name + "/");
  }

  lemma FirstOfSlugPath(c: string, name: string)
    requires Cleaned(c) && name != "" && name[0] != '/'
    ensures (c + name)[0] != '/' && (c + name + "/")[0] != '/'
  {
    CleanedStart(c);
    assert (c + name)[0] == if c == "" then name[0] else c[0];
  }

  lemma NormalContainer(p: string)
    requires p != "" && p[0] != '/' && p[|p| - 1] == '/'
    ensures Normalize(p) == p && AsContainer(p) == p
  {
    assert p[0] != p[|p| - 1];
  }

  /** The path with the time behind it, which a Post takes when the first one is known. */
  lemma StampedBelow(c: string, n: string, again: string)
    requires Cleaned(c) && IsContainerPath(c) && '/' !in n && IsNumber(again)
    ensures var p := c + n + ("-" + again);
            Storable(p) && !IsContainerPath(p) && p != "" && Parent(p) == c
  {
    StampedName(n, again);
    var name := n + ("-" + again);
    assert name == n + "-" + again;
    ConcatAssoc(c, n, "-" + again);
    Below(c, name);
    CleanedIsNormal(c + name);
  }

  lemma StampedPath(q: string, again: string)
    requires Cleaned(q) && IsNumber(again)
    ensures var p := q + ("-" + again);
            && Storable(p) && !IsContainerPath(p) && p != ""
            && Parent(p) == if IsContainerPath(q) then q else Parent(q)
  {
    if IsContainerPath(q) {
      ConcatEmpty(q, "");
      StampedBelow(q, "", again);
    } else {
      PathParts(q);
      StampedBelow(Parent(q), Name(q), again);
    }
  }

  predicate Trimmed(name: string) { name != "" ==> name[0] != '/' && name[|name| - 1] != '/' }

  /** The place for a document with a name, or with the name and the time when it is taken. */
  lemma NamedPlace(mid: Files, etagOf: string -> string, c: string, name: string, again: string)
    requires Coherent(mid, etagOf) && Cleaned(c) && IsContainerPath(c) && IsNumber(again)
    requires name != "" && Trimmed(name)
    ensures var path := if Has(mid, c + name) then c + name + ("-" + again) else c + name;
            && !IsContainerPath(path) && Parent(path) == c + Parent(name)
            && (Storable(path) <==> Cleaned(name) && !Hidden(Name(name)))
  {
    SlugPath(c, name);
    if Has(mid, c + name) {
      assert Sound(mid, etagOf, c + name);
      StampedPath(c + name, again);
    }
  }

  lemma Place(mid: Files, etagOf: string -> string, c: string, name: string, again: string)
    requires Coherent(mid, etagOf) && Cleaned(c) && IsContainerPath(c) && Has(mid, c)
             && IsNumber(again) && Trimmed(name)
    ensures var path := if Has(mid, c + name) then c + (name + "-" + again) else c + name;
            && !IsContainerPath(path) && Parent(path) == c + Parent(name)
            && (Storable(path) <==> name == "" || (Cleaned(name) && !Hidden(Name(name))))
  {
    StampedIs(c, name, again);
    if name == "" {
      ConcatEmpty(c, name);
      StampedPath(c, again);
      ConcatEmpty(c, Parent(name));
    } else {
      NamedPlace(mid, etagOf, c, name, again);
    }
  }

  /** Where a Post puts a document, and when that is a place for one. */
  lemma PostedDocument(mid: Files, etagOf: string -> string, container: string, slug: string, stamp: string,
                       again: string)
    requires Coherent(mid, etagOf) && Cleaned(container) && Has(mid, AsContainer(container)) && IsNumber(again)
    ensures var c, name := AsContainer(container), SlugName(slug, stamp);
            var path := PostPath(mid, container, slug, false, stamp, again);
            && !IsContainerPath(path) && Parent(path) == c + Parent(name)
            && (Storable(path) <==> SlugFits(container, slug, false, stamp))
            && path == if Has(mid, c + name) then c + (name + "-" + again) else c + name
  {
    CleanedContainer(container);
    var c, name := AsContainer(container), SlugName(slug, stamp);
    PostUnfolds(mid, container, slug, false, stamp, again);
    HasIsKnown(mid, etagOf, c + name);
    SlugIsTrimmed(slug, stamp);
    Place(mid, etagOf, c, name, again);
  }

  lemma SlugIsTrimmed(slug: string, stamp: string)
    ensures Trimmed(SlugName(slug, stamp))
  {
    TrimSlashesEnds(if slug == "" then "resource-" + stamp else slug);
  }

  lemma StampedIs(c: string, name: string, again: string)
    ensures c + name + ("-" + again) == c + (name + "-" + again)
  {
    assert name + "-" + again == name + ("-" + again);
  }

  /** A document can be written exactly where one can be stored. */
  lemma DocumentWritten(mid: Files, etagOf: string -> string, p: string, m: Meta, body: string)
    requires Coherent(mid, etagOf) && !IsContainerPath(p) && m.etag == etagOf(body) && !m.isContainer
    ensures Coherent(Write(mid, p, m, body), etagOf) <==> Storable(p)
  {
    if Storable(p) {
      WriteIsCoherent(mid, etagOf, p, m, body);
    } else {
      assert Has(Write(mid, p, m, body), p);
      assert !Sound(Write(mid, p, m, body), etagOf, p);
    }
  }

  /** And a container exactly at a cleaned path. */
  lemma ContainerWritten(mid: Files, etagOf: string -> string, p: string, now: int)
    requires Coherent(mid, etagOf) && p != "" && IsContainerPath(p) && Normalize(p) == p && AsContainer(p) == p
    ensures Coherent(WithContainer(mid, etagOf, p, now), etagOf) <==> Cleaned(p)
  {
    if Cleaned(p) {
      WithContainerAdds(mid, etagOf, p, now);
    } else {
      assert Sound(mid, etagOf, p);
      HasIsKnown(mid, etagOf, p);
      var m, body := ContainerIsWritten(mid, etagOf, p, now);
      assert Has(Write(mid, p, m, body), p);
      assert !Sound(Write(mid, p, m, body), etagOf, p);
    }
  }

  lemma DoubleSlash(c: string)
    requires Cleaned(c) && IsContainerPath(c) && c != ""
    ensures !Cleaned(c + "/") && Normalize(c + "/") == c + "/" && AsContainer(c + "/") == c + "/"
  {
    var p := c + "/";
    CleanedStart(c);
    NormalContainer(p);
    EmptyName(c, p);
  }

  lemma EmptyName(c: string, p: string)
    requires IsContainerPath(c) && c != "" && p == c + "/"
    ensures Name(p) == "" && p != ""
  {
    assert WithoutSlash(p) == c;
    LastSlashAfter(c, |c| - 1);
  }

  /** Where a Post puts a container; the root is there before. */
  lemma PostedContainer(mid: Files, etagOf: string -> string, container: string, slug: string,
                        now: int, stamp: string, again: string)
    requires Coherent(mid, etagOf) && Cleaned(container) && Has(mid, AsContainer(container))
    ensures var c, name := AsContainer(container), SlugName(slug, stamp);
            var path := PostPath(mid, container, slug, true, stamp, again);
            && (Coherent(WithContainer(mid, etagOf, path, now), etagOf) <==> SlugFits(container, slug, true, stamp))
            && (name != "" ==> path == c + name + "/" && Normalize(path) == path)
            && (name == "" && container == "" ==>
                  Normalize(path) == "" && WithContainer(mid, etagOf, path, now) == mid)
  {
    CleanedContainer(container);
    var c, name := AsContainer(container), SlugName(slug, stamp);
    SlugIsTrimmed(slug, stamp);
    PostUnfolds(mid, container, slug, true, stamp, again);
    var path := PostPath(mid, container, slug, true, stamp, again);
    if name != "" {
      SlugContainer(c, name);
      ContainerWritten(mid, etagOf, path, now);
    } else {
      ConcatEmpty(c, name);
      if c == "" {
        HasIsKnown(mid, etagOf, c);
        EmptyConcat(c, "/");
        SlashIsRoot(path);
      } else {
        DoubleSlash(c);
        ContainerWritten(mid, etagOf, path, now);
      }
    }
  }

  lemma SlashIsRoot(path: string)
    requires path == "/"
    ensures Normalize(path) == "" && AsContainer(Normalize(path)) == ""
  {
  }

  /** `q` is there, and `c` with all it is in; whatever else there was is as it was. */
  ghost predicate Posted(fs: Files, fs': Files, c: string, q: string) {
    && Has(fs', q) && Complete(fs', c) && (forall r :: r != q ==> Keeps(fs, fs', r))
    && (forall r :: Has(fs', r) && !Has(fs, r) ==> r == q || r == c || Above(r, c))
  }

  lemma PreparedPosts(fs: Files, etagOf: string -> string, mid: Files, fs': Files, c: string, q: string)
    requires Prepared(fs, etagOf, mid, c) && SameButFor(mid, fs', q) && Has(fs', q) && (q == c ==> Grows(mid, fs'))
    ensures Posted(fs, fs', c, q)
  {
    forall r | r != q ensures Keeps(fs, fs', r) {
      assert Keeps(fs, mid, r) && Keeps(mid, fs', r);
    }
    forall r | Has(fs', r) && !Has(fs, r) ensures r == q || r == c || Above(r, c) {
      assert r != q ==> Has(mid, r);
    }
    forall r | r != "" && (r == c || Above(r, c)) ensures Has(fs', r) {
      assert Has(mid, r);
      assert r != q ==> Keeps(mid, fs', r);
    }
  }

  lemma PreparedForPost(fs: Files, etagOf: string -> string, container: string, now: int)
    requires Coherent(fs, etagOf) && Cleaned(container)
    ensures var c := AsContainer(container);
            var mid := Ensured(fs, etagOf, AsContainer(Normalize(container)), now);
            Prepared(fs, etagOf, mid, c) && Has(mid, c) && Cleaned(c) && IsContainerPath(c)
  {
    CleanedContainer(container);
    CleanedContainer(AsContainer(container));
    EnsuredPrepares(fs, etagOf, AsContainer(container), now);
    EnsuredAdds(fs, etagOf, AsContainer(container), now);
  }

  /** A Post of a document: the files stay coherent exactly when the slug fits, and then the document is
      there and reads as it was posted; only a name made up with the time can be that of a known one. */
  lemma PostDocumentEffect(fs: Files, etagOf: string -> string, container: string, slug: string,
                           contentType: string, body: string, now: int, stamp: string, again: string)
    requires Coherent(fs, etagOf) && Cleaned(container) && IsNumber(again)
    ensures var (fs', path) := PostFiles(fs, etagOf, container, slug, contentType, body, false, now, stamp, again);
            var c, name := AsContainer(container), SlugName(slug, stamp);
            && (Coherent(fs', etagOf) <==> SlugFits(container, slug, false, stamp))
            && !IsContainerPath(path) && Parent(path) == c + Parent(name)
            && (Has(fs, path) ==> path == c + (name + "-" + again))
            && (SlugFits(container, slug, false, stamp) ==>
                  Storable(path) && Posted(fs, fs', c, path)
                  && Reads(fs', path, DocumentMeta(etagOf, contentType, body, now, now), body))
  {
    var c := AsContainer(container);
    var mid := Ensured(fs, etagOf, AsContainer(Normalize(container)), now);
    PreparedForPost(fs, etagOf, container, now);
    PostedDocument(mid, etagOf, container, slug, stamp, again);
    var path := PostPath(mid, container, slug, false, stamp, again);
    var m := DocumentMeta(etagOf, contentType, body, now, now);
    DocumentWritten(mid, etagOf, path, m, body);
    assert Keeps(fs, mid, path);
    if Storable(path) {
      WriteIsCoherent(mid, etagOf, path, m, body);
      WrittenIsSound(mid, etagOf, path, m, body);
      PreparedPosts(fs, etagOf, mid, Write(mid, path, m, body), c, path);
    }
  }

  lemma ContainerPosts(fs: Files, etagOf: string -> string, mid: Files, c: string, path: string, now: int)
    requires Prepared(fs, etagOf, mid, c) && Cleaned(path) && IsContainerPath(path)
    ensures var fs' := WithContainer(mid, etagOf, path, now); Posted(fs, fs', c, path) && Grows(fs, fs')
  {
    var fs' := WithContainer(mid, etagOf, path, now);
    WithContainerAdds(mid, etagOf, path, now);
    GrowsFurther(fs, mid, fs');
    PreparedPosts(fs, etagOf, mid, fs', c, path);
  }

  /** A Post of a container: the files stay coherent exactly when the slug fits, and then it is there. */
  lemma PostContainerEffect(fs: Files, etagOf: string -> string, container: string, slug: string,
                            contentType: string, body: string, now: int, stamp: string, again: string)
    requires Coherent(fs, etagOf) && Cleaned(container)
    ensures var (fs', path) := PostFiles(fs, etagOf, container, slug, contentType, body, true, now, stamp, again);
            var c, name, q := AsContainer(container), SlugName(slug, stamp), Normalize(path);
            && (Coherent(fs', etagOf) <==> SlugFits(container, slug, true, stamp))
            && (SlugFits(container, slug, true, stamp) ==>
                  && q == (if name == "" then "" else c + name + "/")
                  && IsContainerPath(q) && Parent(q) == c + Parent(name) && Posted(fs, fs', c, q)
                  && Grows(fs, fs'))
  {
    var c, name := AsContainer(container), SlugName(slug, stamp);
    var mid := Ensured(fs, etagOf, AsContainer(Normalize(container)), now);
    PreparedForPost(fs, etagOf, container, now);
    PostedContainer(mid, etagOf, container, slug, now, stamp, again);
    var path := PostPath(mid, container, slug, true, stamp, again);
    if SlugFits(container, slug, true, stamp) {
      if name == "" {
        PreparedPosts(fs, etagOf, mid, mid, c, Normalize(path));
        ConcatEmpty(c, Parent(name));
      } else {
        SlugIsTrimmed(slug, stamp);
        SlugContainer(c, name);
        ContainerPosts(fs, etagOf, mid, c, path, now);
      }
    }
  }

  lemma DeleteUnfolds(fs: Files, p: string, ifMatch: string)
    requires Cleaned(p)
    ensures DeleteFiles(fs, p, ifMatch)
         == match ReadMeta(fs, p)
            case Fail(e) => (fs, Some(e))
            case Done(m) =>
              var obstacle := if m.isContainer then Obstacle(fs, AsContainer(p)) else None;
              if ifMatch != "" && ifMatch != "*" && m.etag != ifMatch then (fs, Some(Precondition))
              else if obstacle.Some? then (fs, obstacle)
              else (fs - {DataPath(p), MetaPath(p)}, None)
  {
    CleanedIsNormal(p);
  }

  /** A Delete that goes through removes the resource and nothing else. */
  lemma DeleteEffect(fs: Files, etagOf: string -> string, p: string, ifMatch: string)
    requires Coherent(fs, etagOf) && Cleaned(p)
    ensures var (fs', err) := DeleteFiles(fs, p, ifMatch);
            && (err.None? <==> match ReadMeta(fs, p)
                               case Fail(_) => false
                               case Done(m) => (ifMatch == "" || ifMatch == "*" || m.etag == ifMatch)
                                               && (IsContainerPath(p) ==> Listed(fs, p) == {}))
            && (err.Some? ==> fs' == fs)
            && (err.None? ==> Coherent(fs', etagOf) && SameButFor(fs, fs', p) && !Has(fs', p))
  {
    CleanedContainer(p);
    DeleteUnfolds(fs, p, ifMatch);
    assert Sound(fs, etagOf, p);
    if Has(fs, p) {
      RemoveIsCoherent(fs, etagOf, p);
    }
  }
}
