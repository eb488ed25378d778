/** How operations on the store undo and exclude one another, and where its promises end. */
module StoreLaws {
  import opened Text
  import opened Paths
  import opened Guard
  import opened Store
  import opened StoreEncoding
  import opened StoreRuns
  import opened StoreTheorems

  // ----- Conditional requests -----

  /** Of two writers that read the same version, only the first gets through. */
  lemma NoLostUpdate(fs: Files, etagOf: string -> string, p: string, tag: string,
                     first: string, second: string, contentType: string, now: int, later: int)
    requires Coherent(fs, etagOf) && Storable(p) && !IsContainerPath(p)
    requires tag != "" && tag != "*" && etagOf(first) != tag
    requires PutFiles(fs, etagOf, p, contentType, first, tag, "", now).1.None?
    ensures Read(fs, p).Done? && Read(fs, p).value.etag == tag
    ensures var fs' := PutFiles(fs, etagOf, p, contentType, first, tag, "", now).0;
            var (fs2, err) := PutFiles(fs', etagOf, p, contentType, second, tag, "", later);
            err == Some(Precondition) && Read(fs2, p) == Read(fs', p)
            && Read(fs2, p).Done? && Read(fs2, p).value.body == first
  {
    assert Sound(fs, etagOf, p);
    PutEffect(fs, etagOf, p, contentType, first, tag, "", now);
    var fs' := PutFiles(fs, etagOf, p, contentType, first, tag, "", now).0;
    assert Sound(fs', etagOf, p);
    PutEffect(fs', etagOf, p, contentType, second, tag, "", later);
    assert Keeps(fs', PutFiles(fs', etagOf, p, contentType, second, tag, "", later).0, p);
  }

  /** A document is created under If-None-Match "*" only when it was not there. */
  lemma CreatesOnce(fs: Files, etagOf: string -> string, p: string, contentType: string, body: string, now: int)
    requires Coherent(fs, etagOf) && Storable(p) && !IsContainerPath(p)
    ensures PutFiles(fs, etagOf, p, contentType, body, "", "*", now).1.None? <==> !Has(fs, p)
  {
    assert Sound(fs, etagOf, p);
    PutEffect(fs, etagOf, p, contentType, body, "", "*", now);
  }

  // ----- Deleting undoes creating -----

  lemma {:induction false} AncestorsAlready(fs: Files, etagOf: string -> string, c: string, now: int)
    requires Coherent(fs, etagOf) && Cleaned(c) && IsContainerPath(c) && Complete(fs, c)
    ensures WithAncestors(fs, etagOf, c, now) == fs
    decreases |c|
  {
    if c != "" {
      forall q | q != "" && (q == Parent(c) || Above(q, Parent(c))) ensures Has(fs, q) {
        assert Above(q, c);
      }
      AncestorsAlready(fs, etagOf, Parent(c), now);
      CleanedContainer(c);
      HasIsKnown(fs, etagOf, c);
    }
  }

  lemma ParentsAlready(fs: Files, etagOf: string -> string, p: string, now: int)
    requires Coherent(fs, etagOf) && Cleaned(p) && !IsContainerPath(p)
    requires Complete(fs, Parent(p)) && Has(fs, Parent(p))
    ensures WithParents(fs, etagOf, p, now) == fs
  {
    var c := Parent(p);
    ParentDir(p);
    CleanedContainer(c);
    HasIsKnown(fs, etagOf, c);
    if c != "" {
      EnsuredIs(fs, etagOf, c, now);
      AncestorsAlready(fs, etagOf, c, now);
    }
  }

  lemma NewFiles(fs: Files, etagOf: string -> string, p: string)
    requires Coherent(fs, etagOf) && Storable(p) && !Has(fs, p)
    ensures DataPath(p) !in fs && MetaPath(p) !in fs
  {
    EncodingDecodes(p);
    assert Owned(fs, DataPath(p)) || DataPath(p) !in fs;
  }

  lemma RemoveWritten(fs: Files, p: string, m: Meta, body: string)
    requires DataPath(p) !in fs && MetaPath(p) !in fs
    ensures Write(fs, p, m, body) - {DataPath(p), MetaPath(p)} == fs
  {
  }

  /** Putting a new document into a known container and deleting it again leaves every file as it was. */
  lemma DeleteUndoesPut(fs: Files, etagOf: string -> string, p: string, contentType: string, body: string, now: int)
    requires Coherent(fs, etagOf) && Storable(p) && !IsContainerPath(p)
    requires !Has(fs, p) && Complete(fs, Parent(p)) && Has(fs, Parent(p))
    ensures DeleteFiles(PutFiles(fs, etagOf, p, contentType, body, "", "", now).0, p, "") == (fs, None)
  {
    ParentsAlready(fs, etagOf, p, now);
    NewFiles(fs, etagOf, p);
    PutUnfolds(fs, etagOf, p, contentType, body, "", "", now);
    CheckedUnfolds(fs, etagOf, p, contentType, body, "", "", now);
    var m := PutMeta(None, etagOf, contentType, body, now);
    var fs' := PutFiles(fs, etagOf, p, contentType, body, "", "", now).0;
    assert fs' == Write(fs, p, m, body);
    WrittenIsSound(fs, etagOf, p, m, body);
    DeleteUnfolds(fs', p, "");
    RemoveWritten(fs, p, m, body);
  }

  // ----- Where the promises end -----

  /** A container with a hidden name, like "a/x.meta.json/", is not listed: the container around it can be
      deleted, and it stays behind. Unless a first element is reserved, the guard lets both paths through. */
  lemma HiddenContainerStaysBehind(etagOf: string -> string, inner: string, ifMatch: string)
    requires Cleaned(inner) && IsContainerPath(inner) && Hidden(Name(inner)) && Parent(inner) != ""
    requires ifMatch == "" || ifMatch == "*"
    ensures var ops := [PutContainer(inner, 0), Delete(Parent(inner), ifMatch)];
            var fs := Run(map[], etagOf, ops);
            OpsGuarded(ops) && Has(fs, inner) && !Has(fs, Parent(inner)) && !Contained(fs)
    ensures '\\' !in inner && !IsSpace(inner[0]) ==> AsGuarded(inner) && AsGuarded(Parent(inner))
  {
    StaysBehind(etagOf, inner, Parent(inner), ifMatch);
    PutAndDelete(etagOf, inner, Parent(inner), ifMatch);
    BothAreOk(inner, Parent(inner), ifMatch);
    GuardOfContainers(inner);
  }

  lemma GuardOfContainers(p: string)
    requires Cleaned(p) && IsContainerPath(p) && Parent(p) != ""
    ensures '\\' !in p && !IsSpace(p[0]) ==> AsGuarded(p) && AsGuarded(Parent(p))
  {
    ParentStart(p);
    GuardOfContainer(p);
    GuardOfContainer(Parent(p));
  }

  lemma ParentStart(p: string)
    requires Parent(p) != ""
    ensures p != "" && Parent(p)[0] == p[0] && ('\\' !in p ==> '\\' !in Parent(p))
  {
    assert Parent(p) <= p;
  }

  lemma GuardOfContainer(p: string)
    requires Cleaned(p) && IsContainerPath(p) && p != ""
    ensures '\\' !in p && !IsSpace(p[0]) ==> AsGuarded(p)
  {
    if '\\' !in p && !IsSpace(p[0]) {
      ContainerIsInternal(p);
    }
  }

  /** The path reaches the store as it is, and is refused exactly when its first element is reserved. */
  predicate AsGuarded(p: string) { CleanResourcePath(p) == p && (IsInternalServerPath(p) <==> Reserved(p)) }

  lemma BothAreOk(p: string, q: string, ifMatch: string)
    requires Cleaned(p) && Cleaned(q)
    ensures OpsGuarded([PutContainer(p, 0), Delete(q, ifMatch)])
  {
  }

  lemma PutAndDelete(etagOf: string -> string, p: string, q: string, ifMatch: string)
    ensures var ops := [PutContainer(p, 0), Delete(q, ifMatch)];
            Run(map[], etagOf, ops) == DeleteFiles(PutContainerFiles(map[], etagOf, p, 0), q, ifMatch).0
  {
    RunTwo(etagOf, PutContainer(p, 0), Delete(q, ifMatch));
    ApplyPutContainer(map[], etagOf, p);
    ApplyDelete(PutContainerFiles(map[], etagOf, p, 0), etagOf, q, ifMatch);
  }

  lemma ApplyPutContainer(fs: Files, etagOf: string -> string, p: string)
    ensures Apply(fs, etagOf, PutContainer(p, 0)) == PutContainerFiles(fs, etagOf, p, 0)
  {
  }

  lemma ApplyDelete(fs: Files, etagOf: string -> string, p: string, ifMatch: string)
    ensures Apply(fs, etagOf, Delete(p, ifMatch)) == DeleteFiles(fs, p, ifMatch).0
  {
  }

  lemma StaysBehind(etagOf: string -> string, inner: string, outer: string, ifMatch: string)
    requires Cleaned(inner) && IsContainerPath(inner) && Hidden(Name(inner)) && Parent(inner) == outer != ""
    requires ifMatch == "" || ifMatch == "*"
    ensures var fs := DeleteFiles(PutContainerFiles(map[], etagOf, inner, 0), outer, ifMatch).0;
            Has(fs, inner) && !Has(fs, outer) && !Contained(fs)
  {
    var fs := ContainerAlone(etagOf, inner);
    DeletesUnlisted(fs, etagOf, outer, ifMatch);
    Orphaned(fs, DeleteFiles(fs, outer, ifMatch).0, inner);
  }

  lemma ContainerAlone(etagOf: string -> string, inner: string) returns (fs: Files)
    requires Cleaned(inner) && IsContainerPath(inner) && Hidden(Name(inner)) && Parent(inner) != ""
    ensures fs == PutContainerFiles(map[], etagOf, inner, 0) && Coherent(fs, etagOf)
    ensures Has(fs, inner) && Has(fs, Parent(inner)) && Listed(fs, Parent(inner)) == {}
  {
    CleanedContainer(inner);
    PutContainerEffect(map[], etagOf, inner, 0);
    fs := PutContainerFiles(map[], etagOf, inner, 0);
    AloneInside(fs, etagOf, inner);
  }

  lemma RunTwo(etagOf: string -> string, a: Op, b: Op)
    ensures Run(map[], etagOf, [a, b]) == Apply(Apply(map[], etagOf, a), etagOf, b)
  {
    RunOne(etagOf, a);
    assert [a, b][..1] == [a];
  }

  lemma RunOne(etagOf: string -> string, a: Op)
    ensures Run(map[], etagOf, [a]) == Apply(map[], etagOf, a)
  {
    assert [a][..0] == [];
  }

  lemma AloneInside(fs: Files, etagOf: string -> string, inner: string)
    requires Created(map[], etagOf, fs, inner) && Hidden(Name(inner)) && Parent(inner) != ""
    ensures Has(fs, inner) && Has(fs, Parent(inner)) && Listed(fs, Parent(inner)) == {}
  {
    var outer := Parent(inner);
    assert Above(outer, inner);
    forall q ensures q !in Listed(fs, outer) {
      ListedChildren(fs, etagOf, outer, q);
      if IsChild(fs, outer, q) && q != inner {
        NotAbove(q, outer);
        assert !Above(q, inner);
      }
    }
  }

  lemma NotAbove(q: string, c: string)
    requires q != "" && Parent(q) == c
    ensures q != c && !Above(q, c)
  {
    if Above(q, c) {
      AboveIsContainer(q, c);
    }
  }

  lemma DeletesUnlisted(fs: Files, etagOf: string -> string, c: string, ifMatch: string)
    requires Coherent(fs, etagOf) && Has(fs, c) && Listed(fs, c) == {} && Cleaned(c)
    requires ifMatch == "" || ifMatch == "*"
    ensures SameButFor(fs, DeleteFiles(fs, c, ifMatch).0, c) && !Has(DeleteFiles(fs, c, ifMatch).0, c)
  {
    assert Sound(fs, etagOf, c);
    DeleteEffect(fs, etagOf, c, ifMatch);
  }

  lemma Orphaned(fs: Files, fs': Files, inner: string)
    requires Has(fs, inner) && Parent(inner) != "" && SameButFor(fs, fs', Parent(inner)) && !Has(fs', Parent(inner))
    ensures Has(fs', inner) && !Contained(fs')
  {
    assert Keeps(fs, fs', inner);
    assert !ParentKnown(fs', inner);
  }

  lemma {:induction false} NoDoubleSlash(p: string, i: nat)
    requires Cleaned(p) && i + 1 < |p| && p[i] == '/'
    ensures p[i + 1] != '/'
    decreases |p|
  {
    var c, name := Parent(p), Name(p);
    PathParts(p);
    assert i + 1 < |c| + |name| by {
      assert p[|c| + |name| - 1] == name[|name| - 1] && name[|name| - 1] in name;
    }
    if i + 1 < |c| {
      NoDoubleSlash(c, i);
    } else {
      assert p[i + 1] == name[i + 1 - |c|];
    }
  }

  lemma MetaSlug(c: string, name: string)
    requires Cleaned(c + name) && Cleaned(c) && IsContainerPath(c)
    ensures var p := c + (name + ".meta.json");
            && TrimSlashes(name + ".meta.json") == name + ".meta.json"
            && MetaPath(c + name) == p && DataPath(p) == p && !Storable(p)
  {
    if name != "" {
      NameBelow(c, name);
    }
    MetaSlugTrimmed(name);
    ConcatAssoc(c, name, ".meta.json");
    MetaPathIs(c + name);
    MetaSlugData(c + name, c + name + ".meta.json");
  }

  lemma NameBelow(c: string, name: string)
    requires Cleaned(c + name) && IsContainerPath(c) && name != ""
    ensures name[0] != '/'
  {
    if c != "" {
      NoDoubleSlash(c + name, |c| - 1);
    } else {
      EmptyConcat(c, name);
      CleanedStart(name);
    }
  }

  lemma MetaSlugTrimmed(name: string)
    requires name == "" || name[0] != '/'
    ensures TrimSlashes(name + ".meta.json") == name + ".meta.json"
  {
    var slug := name + ".meta.json";
    assert slug[0] != '/' && slug[|slug| - 1] == 'n';
  }

  lemma MetaSlugData(q: string, p: string)
    requires Cleaned(q) && p == q + ".meta.json"
    ensures DataPath(p) == p && !Storable(p)
  {
    CleanedStart(q);
    assert p[0] != '/' && p[|p| - 1] == 'n';
    assert HasSuffix(p, ".meta.json") by {
      assert p[|q|..] == ".meta.json";
    }
    if Storable(p) {
      DataIsNoMeta(p);
    }
  }

  /** The Slug header is not guarded: a document posted under the name of another resource's metadata, like
      "x.meta.json" where "x" is known, is written over that metadata, which can no longer be read. */
  lemma SlugOverwritesMetadata(fs: Files, etagOf: string -> string, container: string, name: string,
                               contentType: string, body: string, now: int, stamp: string, again: string)
    requires Coherent(fs, etagOf) && Cleaned(container) && Has(fs, AsContainer(container) + name)
    ensures var q, slug := AsContainer(container) + name, name + ".meta.json";
            var fs' := PostFiles(fs, etagOf, container, slug, contentType, body, false, now, stamp, again).0;
            ReadMeta(fs, q).Done? && ReadMeta(fs', q) == Fail(Unreadable)
  {
    var c, slug := AsContainer(container), name + ".meta.json";
    var mid := Ensured(fs, etagOf, AsContainer(Normalize(container)), now);
    assert Sound(fs, etagOf, c + name);
    PreparedForPost(fs, etagOf, container, now);
    MetaSlug(c, name);
    assert Sound(mid, etagOf, c + slug);
    HasIsKnown(mid, etagOf, c + slug);
    PostUnfolds(mid, container, slug, false, stamp, again);
    WrittenOver(mid, c + name, c + slug, DocumentMeta(etagOf, contentType, body, now, now), body);
  }

  lemma WrittenOver(mid: Files, q: string, p: string, m: Meta, body: string)
    requires MetaPath(q) == p && DataPath(p) == p
    ensures ReadMeta(Write(mid, p, m, body), q) == Fail(Unreadable)
  {
    MetaPathIs(p);
  }

  // ----- What an unfit slug writes over -----

  /** Of the files that are written at a path that cannot be stored, only the first can be another resource's. */
  lemma OnlyTheOwner(fs: Files, etagOf: string -> string, p: string, r: string)
    requires Coherent(fs, etagOf) && Has(fs, r) && r != p
    ensures MetaPath(p) != MetaPath(r) && MetaPath(p) != DataPath(r)
    ensures DataPath(p) == MetaPath(r) || DataPath(p) == DataPath(r) ==> r == Owner(DataPath(p))
  {
    assert Sound(fs, etagOf, r);
    ResourceOfMetaPath(p);
    ResourceOfMetaPath(r);
    EncodingDecodes(r);
  }

  lemma OthersKept(fs: Files, etagOf: string -> string, p: string, m: Meta, body: string, r: string)
    requires Coherent(fs, etagOf) && r != p
    requires DataPath(p) != MetaPath(r) && DataPath(p) != DataPath(r)
    ensures Keeps(fs, Write(fs, p, m, body), r)
  {
    if Has(fs, r) {
      OnlyTheOwner(fs, etagOf, p, r);
      ReadDepends(fs, Write(fs, p, m, body), etagOf, r);
    }
  }

  /** The metadata of a resource can no longer be read, or another body stands beside its old entity tag. */
  ghost predicate Overwritten(fs: Files, fs': Files, q: string, file: string, body: string) {
    && Has(fs, q) && Read(fs, q).Done?
    && if file == MetaPath(q) then ReadMeta(fs', q) == Fail(Unreadable)
       else file == DataPath(q) && Read(fs', q) == Done(Read(fs, q).value.(body := body))
  }

  lemma FileIsOverwritten(fs: Files, p: string, m: Meta, body: string, q: string)
    requires Read(fs, q).Done? && Has(fs, q) && ReadMeta(fs, q).Done? && DataPath(q) in fs
    requires MetaPath(p) != MetaPath(q) && MetaPath(p) != DataPath(q) && MetaPath(p) != DataPath(p)
    requires DataPath(p) == MetaPath(q) || (DataPath(p) == DataPath(q) && DataPath(q) != MetaPath(q))
    ensures var fs' := Write(fs, p, m, body);
            if DataPath(p) == MetaPath(q) then ReadMeta(fs', q) == Fail(Unreadable)
            else Read(fs', q) == Done(Read(fs, q).value.(body := body))
  {
  }

  lemma KnownReads(fs: Files, etagOf: string -> string, q: string)
    requires Coherent(fs, etagOf) && Has(fs, q)
    ensures Read(fs, q).Done? && ReadMeta(fs, q).Done? && DataPath(q) in fs && DataPath(q) != MetaPath(q)
  {
    assert Sound(fs, etagOf, q);
    FileNamesDiffer(q);
  }

  lemma FileHasOwner(fs: Files, etagOf: string -> string, k: string)
    requires Coherent(fs, etagOf) && k in fs
    ensures var q := Owner(k); Has(fs, q) && Storable(q) && (k == DataPath(q) || k == MetaPath(q))
  {
    assert Owned(fs, k);
    assert Sound(fs, etagOf, Owner(k));
  }

  lemma OwnerIsOverwritten(fs: Files, etagOf: string -> string, mid: Files, p: string, m: Meta, body: string)
    requires Coherent(fs, etagOf) && Coherent(mid, etagOf) && Grows(fs, mid) && !Storable(p) && DataPath(p) in fs
    ensures Overwritten(fs, Write(mid, p, m, body), Owner(DataPath(p)), DataPath(p), body)
  {
    var q := Owner(DataPath(p));
    FileHasOwner(fs, etagOf, DataPath(p));
    assert Keeps(fs, mid, q);
    KnownReads(fs, etagOf, q);
    KnownReads(mid, etagOf, q);
    OnlyTheOwner(mid, etagOf, p, q);
    FileNamesDiffer(p);
    FileIsOverwritten(mid, p, m, body, q);
  }

  lemma OthersAreKept(fs: Files, etagOf: string -> string, mid: Files, p: string, m: Meta, body: string, r: string)
    requires Coherent(fs, etagOf) && Coherent(mid, etagOf) && Grows(fs, mid) && r != p
    requires r == Owner(DataPath(p)) ==> DataPath(p) !in fs
    ensures Keeps(fs, Write(mid, p, m, body), r)
  {
    assert Keeps(fs, mid, r);
    if Has(fs, r) {
      assert Sound(fs, etagOf, r);
      OnlyTheOwner(mid, etagOf, p, r);
      OthersKept(mid, etagOf, p, m, body, r);
    }
  }

  /** A document posted under a slug that does not fit: it writes over a resource exactly when the file that it is
      written to was there, and then over the one that the file belongs to; all others are kept. */
  lemma UnfitSlugWrites(fs: Files, etagOf: string -> string, container: string, slug: string, contentType: string,
                        body: string, now: int, stamp: string, again: string)
    requires Coherent(fs, etagOf) && Cleaned(container) && IsNumber(again) && !SlugFits(container, slug, false, stamp)
    ensures var (fs', path) := PostFiles(fs, etagOf, container, slug, contentType, body, false, now, stamp, again);
            var file := DataPath(path);
            && path == AsContainer(container) + SlugName(slug, stamp)
            && (file in fs ==> Overwritten(fs, fs', Owner(file), file, body))
            && (forall r :: r != path && (r == Owner(file) ==> file !in fs) ==> Keeps(fs, fs', r))
  {
    var mid := Ensured(fs, etagOf, AsContainer(Normalize(container)), now);
    PreparedForPost(fs, etagOf, container, now);
    PostedDocument(mid, etagOf, container, slug, stamp, again);
    PostDocumentEffect(fs, etagOf, container, slug, contentType, body, now, stamp, again);
    var path := PostPath(mid, container, slug, false, stamp, again);
    UnfitIsNamed(mid, etagOf, container, slug, stamp, again);
    var m := DocumentMeta(etagOf, contentType, body, now, now);
    if DataPath(path) in fs {
      OwnerIsOverwritten(fs, etagOf, mid, path, m, body);
    }
    forall r | r != path && (r == Owner(DataPath(path)) ==> DataPath(path) !in fs)
      ensures Keeps(fs, Write(mid, path, m, body), r)
    {
      OthersAreKept(fs, etagOf, mid, path, m, body, r);
    }
  }

  lemma UnfitIsNamed(mid: Files, etagOf: string -> string, container: string, slug: string, stamp: string,
                     again: string)
    requires Coherent(mid, etagOf) && Cleaned(container) && Has(mid, AsContainer(container)) && IsNumber(again)
    requires !SlugFits(container, slug, false, stamp)
    ensures var path := PostPath(mid, container, slug, false, stamp, again);
            path == AsContainer(container) + SlugName(slug, stamp) && !Storable(path)
  {
    PostedDocument(mid, etagOf, container, slug, stamp, again);
    var c, name := AsContainer(container), SlugName(slug, stamp);
    if Has(mid, c + name) {
      assert Sound(mid, etagOf, c + name);
      CleanedContainer(container);
      SlugIsTrimmed(slug, stamp);
      StampedPath(c + name, again);
      StampedIs(c, name, again);
    }
  }

  lemma ContainerFileIsItsOwn(p: string)
    requires p != "" && IsContainerPath(p) && Normalize(p) == p
    ensures Owner(DataPath(p)) == p
  {
    assert p == WithoutSlash(p) + "/";
    assert WithoutSlash(p) + "/.container" == p + ".container" by {
      assert "/.container" == "/" + ".container";
      ConcatAssoc(WithoutSlash(p), "/", ".container");
    }
    ContainerOwner(p);
    assert (p + ".container")[|p| + 9] == 'r' && ".meta.json"[9] == 'n';
    SuffixLast(p + ".container", ".meta.json");
  }

  lemma UnfitContainer(mid: Files, etagOf: string -> string, container: string, slug: string, now: int, stamp: string,
                       again: string)
    requires Coherent(mid, etagOf) && Cleaned(container) && Has(mid, AsContainer(container))
    requires !SlugFits(container, slug, true, stamp)
    ensures var path := PostPath(mid, container, slug, true, stamp, again);
            path != "" && IsContainerPath(path) && Normalize(path) == path && AsContainer(path) == path
  {
    CleanedContainer(container);
    var c, name := AsContainer(container), SlugName(slug, stamp);
    PostUnfolds(mid, container, slug, true, stamp, again);
    if name == "" {
      ConcatEmpty(c, name);
      DoubleSlash(c);
    } else {
      SlugIsTrimmed(slug, stamp);
      SlugContainer(c, name);
    }
  }

  /** A container posted under any slug writes over nothing. */
  lemma ContainerSlugSpares(fs: Files, etagOf: string -> string, container: string, slug: string, contentType: string,
                            body: string, now: int, stamp: string, again: string, r: string)
    requires Coherent(fs, etagOf) && Cleaned(container)
    ensures var (fs', path) := PostFiles(fs, etagOf, container, slug, contentType, body, true, now, stamp, again);
            r != path ==> Keeps(fs, fs', r)
  {
    PostContainerEffect(fs, etagOf, container, slug, contentType, body, now, stamp, again);
    var mid := Ensured(fs, etagOf, AsContainer(Normalize(container)), now);
    PreparedForPost(fs, etagOf, container, now);
    var path := PostPath(mid, container, slug, true, stamp, again);
    if !SlugFits(container, slug, true, stamp) && r != path {
      UnfitContainer(mid, etagOf, container, slug, now, stamp, again);
      ContainerFileIsItsOwn(path);
      assert Keeps(fs, mid, r);
      var m, content := ContainerIsWritten(mid, etagOf, path, now);
      OthersAreKept(fs, etagOf, mid, path, m, content, r);
    }
  }

  /** Nor does a Put to the root write over anything else. */
  lemma RootPutSpares(fs: Files, etagOf: string -> string, p: string, contentType: string, body: string,
                      ifMatch: string, ifNoneMatch: string, now: int, r: string)
    requires Coherent(fs, etagOf) && p == "" && r != p
    ensures Keeps(fs, PutFiles(fs, etagOf, p, contentType, body, ifMatch, ifNoneMatch, now).0, r)
  {
    var mid := WithContainer(fs, etagOf, p, now);
    RootIsTagged(fs, etagOf, p, now);
    PutRootUnfolds(fs, etagOf, p, contentType, body, ifMatch, ifNoneMatch, now);
    CheckedUnfolds(mid, etagOf, p, contentType, body, ifMatch, ifNoneMatch, now);
    assert Keeps(fs, mid, r) && Sound(mid, etagOf, r);
    assert Storable(p);
    WriteIsLocal(mid, etagOf, p, PutMeta(MetaOf(ReadMeta(mid, p)), etagOf, contentType, body, now), body, r);
  }

  /** The file that a document is posted to is another resource's. */
  ghost predicate Collides(fs: Files, etagOf: string -> string, op: Op) {
    && op.Post? && !op.asContainer && !Fits(fs, etagOf, op)
    && DataPath(Target(fs, etagOf, op)) in fs
  }

  /** An operation writes over a resource other than its target exactly when it collides, and then over the one
      that the file belongs to. */
  lemma StepSpares(fs: Files, etagOf: string -> string, op: Op, r: string)
    requires Coherent(fs, etagOf) && OpGuarded(op) && r != Target(fs, etagOf, op)
    ensures var file := DataPath(Target(fs, etagOf, op));
            if Collides(fs, etagOf, op) && r == Owner(file)
            then Overwritten(fs, Apply(fs, etagOf, op), r, file, op.body)
            else Keeps(fs, Apply(fs, etagOf, op), r)
  {
    StepIsLocal(fs, etagOf, op, r);
    if !Fits(fs, etagOf, op) {
      match op
      case Put(p, ct, body, ifMatch, ifNoneMatch, now) =>
        RootPutSpares(fs, etagOf, p, ct, body, ifMatch, ifNoneMatch, now, r);
      case Post(c, slug, ct, body, asContainer, now, stamp, again) =>
        if asContainer {
          ContainerSlugSpares(fs, etagOf, c, slug, ct, body, now, stamp, again, r);
        } else {
          UnfitSlugWrites(fs, etagOf, c, slug, ct, body, now, stamp, again);
        }
      case _ =>
    }
  }

  /** A slug with a slash in it, like "a/b", leads out of the known containers, unless it leads into one of them. */
  lemma SlugEscapes(fs: Files, etagOf: string -> string, container: string, slug: string,
                    contentType: string, body: string, asContainer: bool, now: int,
                    stamp: string, again: string)
    requires Coherent(fs, etagOf) && Contained(fs) && Cleaned(container) && IsNumber(again)
    requires SlugFits(container, slug, asContainer, stamp)
    ensures var above := Ensured(fs, etagOf, AsContainer(Normalize(container)), now);
            var (fs', path) := PostFiles(fs, etagOf, container, slug, contentType, body,
                                        asContainer, now, stamp, again);
            var name := SlugName(slug, stamp);
            && (Contained(fs') <==> ParentKnown(above, Normalize(path)))
            && (Contained(fs') <==> Parent(name) == "" || Has(fs, AsContainer(container) + Parent(name)))
  {
    var op := Post(container, slug, contentType, body, asContainer, now, stamp, again);
    PostStepIsContained(fs, etagOf, op);
    PostedWhere(fs, etagOf, op);
    PreparedForPost(fs, etagOf, container, now);
    var mid := Ensured(fs, etagOf, AsContainer(Normalize(container)), now);
    PreparedParent(fs, etagOf, mid, AsContainer(container), Normalize(Target(fs, etagOf, op)),
                   Parent(SlugName(slug, stamp)));
  }

  lemma PreparedParent(fs: Files, etagOf: string -> string, mid: Files, c: string, q: string, above: string)
    requires Prepared(fs, etagOf, mid, c) && Has(mid, c)
    requires (q != "" ==> Parent(q) == c + above) && (q == "" ==> above == "")
    ensures ParentKnown(mid, q) <==> above == "" || Has(fs, c + above)
  {
    var p := c + above;
    assert Keeps(fs, mid, p);
    if above == "" {
      ConcatEmpty(c, above);
    } else if Above(p, c) {
      AboveIsContainer(p, c);
    }
  }

  /** A Put to the root, which the guard lets through, turns it into a document, which lists nothing. */
  lemma RootBecomesDocument(fs: Files, etagOf: string -> string, p: string, contentType: string,
                            body: string, now: int)
    requires Coherent(fs, etagOf) && p == ""
    ensures CleanResourcePath(p) == p && !IsInternalServerPath(p)
    ensures var (fs', err) := PutFiles(fs, etagOf, p, contentType, body, "", "", now);
            err.None? && ReadMeta(fs', p).Done? && !ReadMeta(fs', p).value.isContainer
            && Obstacle(fs', p) == Some(NotContainer)
  {
    RootIsNotInternal(p);
    WithContainerAdds(fs, etagOf, p, now);
    var mid := WithContainer(fs, etagOf, p, now);
    assert Sound(mid, etagOf, p);
    assert Dir(p) == ".";
    FileNamesDiffer(p);
  }
}
