/** Different resources keep to different files, so that a write to one leaves the others alone. */
module StoreEncoding {
  import opened Text
  import opened Paths
  import opened Guard
  import opened Store

  /** The paths that the guard lets through. */
  ghost predicate Storable(p: string) { Cleaned(p) && Encodable(p) }

  /** The resource that a file belongs to. */
  function Owner(k: string): string {
    if HasSuffix(k, ".meta.json") then ResourceOf(k)
    else if k == ".root" then ""
    else if HasSuffix(k, "/.container") then TrimSuffix(k, ".container")
    else k
  }

  lemma DataPathIs(p: string)
    requires Storable(p)
    ensures DataPath(p) == if p == "" then ".root" else if IsContainerPath(p) then p + ".container" else p
  {
    if p != "" && IsContainerPath(p) {
      var x := p[..|p| - 1];
      assert p == x + "/";
      assert x + "/.container" == x + "/" + ".container";
    }
  }

  lemma SuffixLast(s: string, suffix: string)
    requires suffix != ""
    ensures HasSuffix(s, suffix) ==> s != "" && s[|s| - 1] == suffix[|suffix| - 1]
  {
  }

  lemma DataIsNoMeta(p: string)
    requires Storable(p)
    ensures !HasSuffix(DataPath(p), ".meta.json")
  {
    DataPathIs(p);
    SuffixLast(DataPath(p), ".meta.json");
    assert ".meta.json"[9] == 'n';
    if p == "" {
      assert ".root"[4] == 't';
    } else if IsContainerPath(p) {
      assert ".container"[9] == 'r';
      assert DataPath(p)[|p| + 9] == 'r';
    } else {
      PathParts(p);
      MetaSuffixOfName(Parent(p), Name(p));
    }
  }

  lemma ContainerSuffixOfName(c: string, name: string)
    requires IsContainerPath(c) && '/' !in name
    ensures HasSuffix(c + name, "/.container") ==> name == ".container"
  {
    var p := c + name;
    if HasSuffix(p, "/.container") {
      var q := p[..|p| - 11] + "/";
      SlashSplit(p, |p| - 11);
      LastSlash(c, name);
      LastSlash(q, ".container");
      assert p[|c|..] == name;
    }
  }

  lemma SlashSplit(p: string, k: nat)
    requires k <= |p| && p[k..] == "/.container"
    ensures p == p[..k] + "/" + ".container" && p[k + 1..] == ".container"
  {
    assert p == p[..k] + p[k..];
    assert p[k..] == "/" + ".container";
  }

  /** The name of a file determines its resource, and whether it holds metadata. */
  lemma EncodingDecodes(p: string)
    requires Storable(p)
    ensures Owner(DataPath(p)) == p && Owner(MetaPath(p)) == p
    ensures HasSuffix(MetaPath(p), ".meta.json") && !HasSuffix(DataPath(p), ".meta.json")
  {
    ResourceOfMetaPath(p);
    DataIsNoMeta(p);
    DataPathIs(p);
    var d := DataPath(p);
    if p != "" {
      PathParts(p);
      if IsContainerPath(p) {
        ContainerOwner(p);
      } else {
        DocumentOwner(Parent(p), Name(p));
      }
    }
  }

  lemma ContainerOwner(p: string)
    requires p != "" && p[|p| - 1] == '/'
    ensures var d := p + ".container"; d != ".root" && HasSuffix(d, "/.container") && TrimSuffix(d, ".container") == p
  {
  }

  lemma DocumentOwner(c: string, name: string)
    requires IsContainerPath(c) && '/' !in name && !Hidden(name)
    ensures c + name != ".root" && !HasSuffix(c + name, "/.container")
  {
    ContainerSuffixOfName(c, name);
    if c == "" {
      EmptyConcat(c, name);
    } else {
      assert (c + name)[|c| - 1] == '/';
      assert '/' !in ".root";
    }
  }

  /** No two resources share a file. */
  lemma FilesAreDisjoint(p: string, q: string)
    requires Storable(p) && Storable(q) && p != q
    ensures {DataPath(p), MetaPath(p)} !! {DataPath(q), MetaPath(q)}
  {
    EncodingDecodes(p);
    EncodingDecodes(q);
  }

  // ----- Coherent files -----

  predicate Has(fs: Files, p: string) { MetaPath(p) in fs }

  /** What is kept of a resource, if it is known: a body, and metadata that agree with it. */
  ghost predicate Sound(fs: Files, etagOf: string -> string, p: string) {
    Has(fs, p) ==>
      && Storable(p) && DataPath(p) in fs && fs[DataPath(p)].Data? && fs[MetaPath(p)].Info?
      && fs[MetaPath(p)].meta.etag == etagOf(fs[DataPath(p)].body)
      && (fs[MetaPath(p)].meta.isContainer <==> IsContainerPath(p))
  }

  ghost predicate Coherent(fs: Files, etagOf: string -> string) {
    (forall p :: Sound(fs, etagOf, p)) && NoOrphans(fs)
  }

  /** No file is left without its resource. */
  ghost predicate Owned(fs: Files, k: string) {
    Has(fs, Owner(k)) && (k == DataPath(Owner(k)) || k == MetaPath(Owner(k)))
  }

  /** The resources of one state are still there, unchanged, in another. */
  ghost predicate Keeps(fs: Files, fs': Files, q: string) {
    Has(fs, q) ==> Has(fs', q) && Read(fs', q) == Read(fs, q) && ReadMeta(fs', q) == ReadMeta(fs, q)
  }

  ghost predicate Grows(fs: Files, fs': Files) { forall q :: Keeps(fs, fs', q) }

  ghost predicate SameAt(fs: Files, fs': Files, k: string) {
    (k in fs <==> k in fs') && (k in fs ==> fs[k] == fs'[k])
  }

  lemma ReadDepends(fs: Files, fs': Files, etagOf: string -> string, q: string)
    requires SameAt(fs, fs', MetaPath(q)) && (Has(fs, q) ==> SameAt(fs, fs', DataPath(q)))
    ensures Keeps(fs, fs', q) && (Sound(fs, etagOf, q) ==> Sound(fs', etagOf, q))
  {
  }

  lemma OtherFiles(p: string, q: string)
    requires Storable(p) && q != p
    ensures MetaPath(q) !in {DataPath(p), MetaPath(p)}
    ensures Storable(q) ==> DataPath(q) !in {DataPath(p), MetaPath(p)}
  {
    ResourceOfMetaPath(q);
    EncodingDecodes(p);
    if Storable(q) {
      EncodingDecodes(q);
    }
  }

  /** Writing a resource leaves the others alone. */
  lemma WriteIsLocal(fs: Files, etagOf: string -> string, p: string, m: Meta, body: string, q: string)
    requires Storable(p) && Sound(fs, etagOf, q) && q != p
    ensures var fs' := Write(fs, p, m, body);
            Sound(fs', etagOf, q) && Keeps(fs, fs', q) && (Has(fs', q) <==> Has(fs, q))
  {
    OtherFiles(p, q);
    ReadDepends(fs, Write(fs, p, m, body), etagOf, q);
  }

  lemma RemoveIsLocal(fs: Files, etagOf: string -> string, p: string, q: string)
    requires Storable(p) && Sound(fs, etagOf, q) && q != p
    ensures var fs' := fs - {DataPath(p), MetaPath(p)};
            Sound(fs', etagOf, q) && Keeps(fs, fs', q) && (Has(fs', q) <==> Has(fs, q))
  {
    OtherFiles(p, q);
    ReadDepends(fs, fs - {DataPath(p), MetaPath(p)}, etagOf, q);
  }

  lemma WrittenIsSound(fs: Files, etagOf: string -> string, p: string, m: Meta, body: string)
    requires Storable(p) && m.etag == etagOf(body) && (m.isContainer <==> IsContainerPath(p))
    ensures var fs' := Write(fs, p, m, body);
            && Sound(fs', etagOf, p) && Owned(fs', DataPath(p)) && Owned(fs', MetaPath(p))
            && Read(fs', p) == Done(Resource(p, m.isContainer, m.contentType, body, m.etag, m.modified, m.created))
            && ReadMeta(fs', p) == Done(m)
  {
    FileNamesDiffer(p);
    EncodingDecodes(p);
  }

  /** `p` aside, the same resources are known in both. */
  ghost predicate SameButFor(fs: Files, fs': Files, p: string) {
    forall q :: q != p ==> Keeps(fs, fs', q) && (Has(fs', q) ==> Has(fs, q))
  }

  ghost predicate NoOrphans(fs: Files) { forall k {:trigger Owned(fs, k)} :: k in fs ==> Owned(fs, k) }

  lemma WriteLeavesNoOrphans(fs: Files, p: string, m: Meta, body: string)
    requires NoOrphans(fs) && Owned(Write(fs, p, m, body), DataPath(p)) && Owned(Write(fs, p, m, body), MetaPath(p))
    ensures NoOrphans(Write(fs, p, m, body))
  {
    var fs' := Write(fs, p, m, body);
    forall k | k in fs' ensures Owned(fs', k) {
      if k != DataPath(p) && k != MetaPath(p) {
        assert Owned(fs, k);
      }
    }
  }

  lemma WriteKeepsSound(fs: Files, etagOf: string -> string, p: string, m: Meta, body: string, q: string)
    requires Storable(p) && Sound(fs, etagOf, q)
    requires m.etag == etagOf(body) && (m.isContainer <==> IsContainerPath(p))
    ensures var fs' := Write(fs, p, m, body);
            Sound(fs', etagOf, q) && (q != p ==> Keeps(fs, fs', q) && (Has(fs', q) ==> Has(fs, q)))
  {
    if q == p {
      WrittenIsSound(fs, etagOf, p, m, body);
    } else {
      WriteIsLocal(fs, etagOf, p, m, body, q);
    }
  }

  /** Writing a resource keeps the files coherent and the other resources as they are. */
  lemma WriteIsCoherent(fs: Files, etagOf: string -> string, p: string, m: Meta, body: string)
    requires Coherent(fs, etagOf) && Storable(p)
    requires m.etag == etagOf(body) && (m.isContainer <==> IsContainerPath(p))
    ensures Coherent(Write(fs, p, m, body), etagOf) && SameButFor(fs, Write(fs, p, m, body), p)
  {
    forall q
      ensures Sound(Write(fs, p, m, body), etagOf, q)
      ensures q != p ==> Keeps(fs, Write(fs, p, m, body), q) && (Has(Write(fs, p, m, body), q) ==> Has(fs, q))
    {
      assert Sound(fs, etagOf, q);
      WriteKeepsSound(fs, etagOf, p, m, body, q);
    }
    assert NoOrphans(Write(fs, p, m, body)) by {
      WrittenIsSound(fs, etagOf, p, m, body);
      WriteLeavesNoOrphans(fs, p, m, body);
    }
  }

  lemma RemoveLeavesNoOrphans(fs: Files, p: string)
    requires NoOrphans(fs) && Storable(p)
    ensures NoOrphans(fs - {DataPath(p), MetaPath(p)})
  {
    var fs' := fs - {DataPath(p), MetaPath(p)};
    forall k | k in fs' ensures Owned(fs', k) {
      OwnedStays(fs, p, k);
    }
  }

  lemma OwnedStays(fs: Files, p: string, k: string)
    requires Owned(fs, k) && Storable(p) && k != DataPath(p) && k != MetaPath(p)
    ensures Owned(fs - {DataPath(p), MetaPath(p)}, k)
  {
    if Owner(k) != p {
      OtherFiles(p, Owner(k));
    }
  }

  /** So does removing one. */
  lemma RemoveIsCoherent(fs: Files, etagOf: string -> string, p: string)
    requires Coherent(fs, etagOf) && Has(fs, p)
    ensures var fs' := fs - {DataPath(p), MetaPath(p)};
            Coherent(fs', etagOf) && SameButFor(fs, fs', p) && !Has(fs', p)
  {
    var fs' := fs - {DataPath(p), MetaPath(p)};
    assert Sound(fs, etagOf, p);
    RemoveLeavesNoOrphans(fs, p);
    forall q ensures Sound(fs', etagOf, q) && (q != p ==> Keeps(fs, fs', q) && (Has(fs', q) ==> Has(fs, q))) {
      if q != p {
        assert Sound(fs, etagOf, q);
        RemoveIsLocal(fs, etagOf, p, q);
      }
    }
  }
}
