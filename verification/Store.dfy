/** The resource store: containers, documents and their metadata in one namespace of files. */
module Store {
  import opened Text
  import opened Paths

  datatype Meta = Meta(contentType: string, etag: string, modified: int, created: int, isContainer: bool)

  /** The content of a file: a body, or encoded metadata. */
  datatype Blob = Data(body: string) | Info(meta: Meta)

  type Files = map<string, Blob>

  datatype Error = NotFound | Unreadable | IsContainer | NotContainer | Precondition | NotEmpty

  datatype Reply<+T> = Done(value: T) | Fail(error: Error)

  datatype Resource = Resource(path: string, isContainer: bool, contentType: string, body: string, etag: string,
                               modified: int, created: int)

  // ----- File names -----

  function MetaPath(path: string): string {
    if path == "" then ".meta.json"
    else if EndsInSlash(path) then WithoutSlash(path) + "/.meta.json"
    else path + ".meta.json"
  }

  function DataPath(path: string): string {
    var p := Normalize(path);
    if p == "" then ".root"
    else if EndsInSlash(p) then WithoutSlash(p) + "/.container"
    else p
  }

  function AuxPath(resourcePath: string, suffix: string): string {
    var p := TrimPrefix(resourcePath, "/");
    if EndsInSlash(p) then WithoutSlash(p) + suffix else p + suffix
  }

  function AsContainer(path: string): string {
    if path != "" && !EndsInSlash(path) then path + "/" else path
  }

  // ----- What each operation does to the files -----

  function ReadMeta(fs: Files, path: string): Reply<Meta> {
    if MetaPath(path) !in fs then Fail(NotFound)
    else match fs[MetaPath(path)]
      case Info(m) => Done(m)
      case Data(_) => Fail(Unreadable)
  }

  predicate Known(fs: Files, path: string) { ReadMeta(fs, path).Done? }

  function BodyOf(fs: Files, path: string): Option<string> {
    if DataPath(path) in fs && fs[DataPath(path)].Data? then Some(fs[DataPath(path)].body) else None
  }

  function Read(fs: Files, path: string): Reply<Resource> {
    match ReadMeta(fs, path)
    case Fail(e) => Fail(e)
    case Done(m) =>
      match BodyOf(fs, path)
      case Some(body) => Done(Resource(path, m.isContainer, m.contentType, body, m.etag, m.modified, m.created))
      case None =>
        if m.isContainer then Done(Resource(path, true, m.contentType, "", m.etag, m.modified, m.created))
        else Fail(NotFound)
  }

  /** getLocked, which does not mind a missing body. */
  function ReadLocked(fs: Files, path: string): Reply<Resource> {
    match ReadMeta(fs, path)
    case Fail(e) => Fail(e)
    case Done(m) =>
      var body := BodyOf(fs, path);
      Done(Resource(path, m.isContainer, m.contentType, if body.Some? then body.value else "",
                    m.etag, m.modified, m.created))
  }

  function Write(fs: Files, path: string, m: Meta, body: string): Files {
    fs[DataPath(path) := Data(body)][MetaPath(path) := Info(m)]
  }

  const CONTAINER_BODY := "# container\n"

  function ContainerMeta(etagOf: string -> string, now: int): Meta {
    Meta("text/turtle", etagOf(CONTAINER_BODY), now, now, true)
  }

  /** putContainerLocked */
  function WithContainer(fs: Files, etagOf: string -> string, path: string, now: int): Files {
    var c := AsContainer(Normalize(path));
    if Known(fs, c) then fs else Write(fs, c, ContainerMeta(etagOf, now), CONTAINER_BODY)
  }

  /** A container and everything above it, save the root. */
  function WithAncestors(fs: Files, etagOf: string -> string, c: string, now: int): Files
    decreases |c|
  {
    if c == "" then fs else WithContainer(WithAncestors(fs, etagOf, Parent(c), now), etagOf, c, now)
  }

  /** ensureContainerLocked */
  function Ensured(fs: Files, etagOf: string -> string, path: string, now: int): Files {
    var p := AsContainer(Normalize(path));
    if p == "" || p == "/" then WithContainer(fs, etagOf, "", now)
    else WithAncestors(fs, etagOf, Squeeze(Split(TrimSlashes(p))), now)
  }

  /** The container named by filepath.Dir, which the root does not count as. */
  predicate HasParentDir(dir: string) { dir != "." && dir != "/" && dir != "" }

  function WithParents(fs: Files, etagOf: string -> string, path: string, now: int): Files {
    var dir := Dir(path);
    if HasParentDir(dir) then Ensured(fs, etagOf, dir + "/", now) else WithContainer(fs, etagOf, "", now)
  }

  function CheckPreconditions(existing: Option<Meta>, ifMatch: string, ifNoneMatch: string): (ok: bool)
    ensures ok <==> && (ifNoneMatch == "*" ==> existing.None?)
                    && (ifMatch != "" ==> existing.Some? && (ifMatch == "*" || existing.value.etag == ifMatch))
  {
    if ifNoneMatch == "*" && existing.Some? then false
    else if ifMatch != "" then
      if existing.None? then false else ifMatch == "*" || existing.value.etag == ifMatch
    else true
  }

  function DocumentMeta(etagOf: string -> string, contentType: string, body: string, now: int, created: int): Meta {
    Meta(if contentType == "" then "application/octet-stream" else contentType, etagOf(body), now, created, false)
  }

  /** What is left of a Put when the parents are there: the files, and the error if there is one. */
  function PutChecked(fs: Files, etagOf: string -> string, p: string, contentType: string, body: string,
                      ifMatch: string, ifNoneMatch: string, now: int): (Files, Option<Error>)
  {
    var existing := ReadMeta(fs, p);
    if existing == Fail(Unreadable) then (fs, Some(Unreadable))
    else if !CheckPreconditions(MetaOf(existing), ifMatch, ifNoneMatch) then (fs, Some(Precondition))
    else
      var created := if existing.Done? then existing.value.created else now;
      (Write(fs, p, DocumentMeta(etagOf, contentType, body, now, created), body), None)
  }

  function MetaOf(r: Reply<Meta>): Option<Meta> { if r.Done? then Some(r.value) else None }

  function PutFiles(fs: Files, etagOf: string -> string, path: string, contentType: string, body: string,
                    ifMatch: string, ifNoneMatch: string, now: int): (Files, Option<Error>)
  {
    var p := Normalize(path);
    if EndsInSlash(p) then (fs, Some(IsContainer))
    else PutChecked(WithParents(fs, etagOf, p, now), etagOf, p, contentType, body, ifMatch, ifNoneMatch, now)
  }

  function PutContainerFiles(fs: Files, etagOf: string -> string, path: string, now: int): Files {
    var p := AsContainer(Normalize(path));
    var dir := Dir(WithoutSlash(p));
    WithContainer(if HasParentDir(dir) then Ensured(fs, etagOf, dir + "/", now) else fs, etagOf, p, now)
  }

  /** The path that a Post makes up: `stamp` and `again` are two readings of the clock, in decimal digits. */
  function PostPath(fs: Files, container: string, slug: string, isContainer: bool, stamp: string,
                    again: string): string {
    var c := AsContainer(Normalize(container));
    var name := TrimSlashes(if slug == "" then "resource-" + stamp else slug);
    if isContainer then c + name + "/"
    else if Known(fs, c + name) then c + name + "-" + again
    else c + name
  }

  function PostFiles(fs: Files, etagOf: string -> string, container: string, slug: string, contentType: string,
                     body: string, isContainer: bool, now: int, stamp: string, again: string): (Files, string)
  {
    var above := Ensured(fs, etagOf, AsContainer(Normalize(container)), now);
    var path := PostPath(above, container, slug, isContainer, stamp, again);
    if isContainer then (WithContainer(above, etagOf, path, now), path)
    else (Write(above, path, DocumentMeta(etagOf, contentType, body, now, now), body), path)
  }

  /** The paths that listLocked finds in a container. */
  predicate Lists(fs: Files, c: string, q: string) {
    && q != "" && Parent(q) == c && Plain(Name(q)) && !Hidden(Name(q))
    && Known(fs, q) && (IsContainerPath(q) || q in fs)
  }

  function ResourceOf(metaPath: string): string { TrimSuffix(metaPath, ".meta.json") }

  function Listed(fs: Files, c: string): set<string> {
    set k | k in fs && HasSuffix(k, ".meta.json") && Lists(fs, c, ResourceOf(k)) :: ResourceOf(k)
  }

  /** What keeps a container from being deleted. */
  function Obstacle(fs: Files, c: string): Option<Error> {
    match ReadMeta(fs, c)
    case Fail(e) => Some(e)
    case Done(m) =>
      if !m.isContainer then Some(NotContainer) else if Listed(fs, c) != {} then Some(NotEmpty) else None
  }

  function DeleteFiles(fs: Files, path: string, ifMatch: string): (Files, Option<Error>) {
    var p := Normalize(path);
    match ReadMeta(fs, p)
    case Fail(e) => (fs, Some(e))
    case Done(m) =>
      var obstacle := if m.isContainer then Obstacle(fs, AsContainer(p)) else None;
      if ifMatch != "" && ifMatch != "*" && m.etag != ifMatch then (fs, Some(Precondition))
      else if obstacle.Some? then (fs, obstacle)
      else (fs - {DataPath(p), MetaPath(p)}, None)
  }

  // ----- Directory listings -----

  /** The entry that a file makes in the directory with this prefix. */
  function EntryOf(prefix: string, k: string): Option<string> {
    if !HasPrefix(k, prefix) then None
    else
      var rest := k[|prefix|..];
      var i := IndexByte(rest, '/');
      if i < 0 then if Plain(rest) then Some(prefix + rest) else None
      else if Plain(rest[..i]) then Some(prefix + rest[..i] + "/")
      else None
  }

  ghost predicate IsEntry(keys: set<string>, prefix: string, e: string) {
    exists k :: k in keys && EntryOf(prefix, k) == Some(e)
  }

  predicate Distinct(s: seq<string>) { forall i, j :: 0 <= i < j < |s| ==> s[i] != s[j] }

  /** storage.List */
  method ListDir(fs: Files, dir: string) returns (entries: seq<string>)
    ensures Distinct(entries)
    ensures forall e :: e in entries <==> IsEntry(fs.Keys, AsContainer(dir), e)
  {
    entries := [];
    var prefix := AsContainer(dir);
    var keys := fs.Keys;
    while keys != {}
      invariant keys <= fs.Keys
      invariant Distinct(entries)
      invariant forall e :: e in entries <==> IsEntry(fs.Keys - keys, prefix, e)
      decreases keys
    {
      var k :| k in keys;
      var e := EntryOf(prefix, k);
      if e.Some? && e.value !in entries {
        entries := entries + [e.value];
      }
      EntriesGrow(fs.Keys - keys, prefix, k);
      assert fs.Keys - (keys - {k}) == (fs.Keys - keys) + {k};
      keys := keys - {k};
    }
    assert fs.Keys - keys == fs.Keys;
  }

  lemma EntriesGrow(keys: set<string>, prefix: string, k: string)
    ensures forall e :: IsEntry(keys + {k}, prefix, e) <==> IsEntry(keys, prefix, e) || EntryOf(prefix, k) == Some(e)
  {
  }

  /** What the loop over the entries makes of one of them. */
  function Yield(fs: Files, e: string): Option<string> {
    var p := Normalize(e);
    if Hidden(Base(e)) then None
    else if EndsInSlash(p) then if Known(fs, p) then Some(p) else None
    else if Known(fs, p) then Some(p)
    else if Known(fs, p + "/") then Some(p + "/")
    else None
  }

  lemma TrimRightSlashesKeeps(s: string)
    requires s != "" && s[|s| - 1] != '/'
    ensures TrimRightSlashes(s) == s && TrimRightSlashes(s + "/") == s
  {
    assert (s + "/")[..|s|] == s;
  }

  lemma BaseBelow(c: string, name: string)
    requires IsContainerPath(c) && '/' !in name && name != ""
    ensures Base(c + name) == name && Base(c + name + "/") == name
  {
    Below(c, name);
    TrimRightSlashesKeeps(c + name);
    assert (c + name)[|c|..] == name;
  }

  /** The entry of a file, taken apart. */
  lemma EntryParts(c: string, k: string) returns (name: string)
    requires EntryOf(c, k).Some? && IsContainerPath(c) && Normalize(c) == c
    ensures var e := EntryOf(c, k).value;
            && (e == c + name || e == c + name + "/") && Plain(name) && '/' !in name
            && Base(e) == name && Normalize(e) == e
            && (e == c + name ==> e == k)
  {
    var rest := k[|c|..];
    var i := IndexByte(rest, '/');
    name := if i < 0 then rest else rest[..i];
    BaseBelow(c, name);
    NormalBelow(c, name);
    assert k == c + rest;
  }

  lemma NormalBelow(c: string, name: string)
    requires IsContainerPath(c) && Normalize(c) == c && Plain(name) && '/' !in name
    ensures Normalize(c + name) == c + name && Normalize(c + name + "/") == c + name + "/"
  {
    var p := c + name;
    if c == "" {
      EmptyConcat(c, name);
      assert name[0] in name;
    } else {
      assert p[0] == c[0] && p[|c| - 1] == '/';
    }
    assert (p + "/")[|p|] == '/';
  }

  lemma MetaPathIs(path: string)
    ensures MetaPath(path) == path + ".meta.json"
  {
  }

  lemma ResourceOfMetaPath(path: string)
    ensures HasSuffix(MetaPath(path), ".meta.json") && ResourceOf(MetaPath(path)) == path
  {
    MetaPathIs(path);
    var m := path + ".meta.json";
    assert m[|path|..] == ".meta.json";
    assert m[..|path|] == path;
  }

  lemma ListedIff(fs: Files, c: string, q: string)
    ensures q in Listed(fs, c) <==> Lists(fs, c, q)
  {
    ResourceOfMetaPath(q);
    if Lists(fs, c, q) {
      assert MetaPath(q) in fs;
    }
    if q in Listed(fs, c) {
      var k :| k in fs && HasSuffix(k, ".meta.json") && Lists(fs, c, ResourceOf(k)) && ResourceOf(k) == q;
    }
  }

  lemma EntryOfFile(c: string, name: string)
    requires Plain(name) && '/' !in name
    ensures EntryOf(c, c + name) == Some(c + name)
    ensures EntryOf(c, MetaPath(c + name + "/")) == Some(c + name + "/")
  {
    assert (c + name)[|c|..] == name;
    MetaPathIs(c + name + "/");
    var k := c + name + "/" + ".meta.json";
    var rest := name + "/" + ".meta.json";
    assert k == c + rest && k[|c|..] == rest;
    FirstSlash(name, ".meta.json");
    assert rest[..|name|] == name;
  }

  lemma {:induction false} FirstSlash(name: string, rest: string)
    requires '/' !in name
    ensures IndexByte(name + "/" + rest, '/') == |name|
  {
    var s := name + "/" + rest;
    if name == "" {
      assert s[0] == '/';
    } else {
      assert s[1..] == name[1..] + "/" + rest;
      FirstSlash(name[1..], rest);
    }
  }

  ghost predicate Yielded(fs: Files, c: string, q: string) {
    exists k :: k in fs && EntryOf(c, k).Some? && Yield(fs, EntryOf(c, k).value) == Some(q)
  }

  lemma ListedIsYielded(fs: Files, c: string, q: string)
    requires IsContainerPath(c) && Normalize(c) == c && Lists(fs, c, q)
    ensures Yielded(fs, c, q)
  {
    var name := Name(q);
    PathParts(q);
    EntryOfFile(c, name);
    BaseBelow(c, name);
    NormalBelow(c, name);
    var k := if IsContainerPath(q) then MetaPath(q) else q;
    assert EntryOf(c, k) == Some(q);
    assert Yield(fs, q) == Some(q);
  }

  lemma YieldsBelow(fs: Files, c: string, name: string, p: string, e: string)
    requires Parent(p) == c && Name(p) == name && !IsContainerPath(p)
    requires Parent(p + "/") == c && Name(p + "/") == name
    requires Plain(name) && Base(e) == name && Normalize(e) == e
    requires (e == p && p in fs) || e == p + "/"
    ensures Yield(fs, e).Some? ==> Lists(fs, c, Yield(fs, e).value)
  {
    if e == p {
      assert !EndsInSlash(e) by {
        assert e[|e| - 1] != '/';
      }
    } else {
      assert EndsInSlash(e);
    }
  }

  lemma YieldIsListed(fs: Files, c: string, k: string)
    requires IsContainerPath(c) && Normalize(c) == c && k in fs && EntryOf(c, k).Some?
    ensures Yield(fs, EntryOf(c, k).value).Some? ==> Lists(fs, c, Yield(fs, EntryOf(c, k).value).value)
  {
    var name := EntryParts(c, k);
    Below(c, name);
    YieldsBelow(fs, c, name, c + name, EntryOf(c, k).value);
  }

  /** What the entries of a directory amount to is what is listed. */
  lemma EntriesAreListed(fs: Files, c: string, q: string)
    requires IsContainerPath(c) && Normalize(c) == c
    ensures q in Listed(fs, c) <==> Yielded(fs, c, q)
  {
    ListedIff(fs, c, q);
    if Lists(fs, c, q) {
      ListedIsYielded(fs, c, q);
    }
    if Yielded(fs, c, q) {
      var k :| k in fs && EntryOf(c, k).Some? && Yield(fs, EntryOf(c, k).value) == Some(q);
      YieldIsListed(fs, c, k);
    }
  }

  // ----- The store -----

  class ResourceStore {
    var files: Files
    const etagOf: string -> string

    constructor (etagOf: string -> string)
      ensures files == map[] && this.etagOf == etagOf
    {
      files := map[];
      this.etagOf := etagOf;
    }

    method Get(path: string) returns (r: Reply<Resource>)
      ensures r == Read(files, Normalize(path))
    {
      var p := Normalize(path);
      var m := ReadMeta(files, p);
      if m.Fail? {
        return Fail(m.error);
      }
      var body := BodyOf(files, p);
      if body.None? && !m.value.isContainer {
        return Fail(NotFound);
      }
      var bytes := if body.None? then "" else body.value;
      return Done(Resource(p, m.value.isContainer, m.value.contentType, bytes,
                           m.value.etag, m.value.modified, m.value.created));
    }

    method PutContainerLocked(path: string, now: int)
      modifies this`files
      ensures files == WithContainer(old(files), etagOf, path, now)
    {
      var p := Normalize(path);
      if p != "" && !EndsInSlash(p) {
        p := p + "/";
      }
      if ReadMeta(files, p).Done? {
        return;
      }
      var body := CONTAINER_BODY;
      files := files[DataPath(p) := Data(body)];
      files := files[MetaPath(p) := Info(Meta("text/turtle", etagOf(body), now, now, true))];
    }

    method EnsureContainerLocked(path: string, now: int)
      modifies this`files
      ensures files == Ensured(old(files), etagOf, path, now)
    {
      var p := Normalize(path);
      if p != "" && !EndsInSlash(p) {
        p := p + "/";
      }
      if p == "" || p == "/" {
        PutContainerLocked("", now);
        return;
      }
      var parts := Split(TrimSlashes(p));
      var cur := "";
      for i := 0 to |parts|
        invariant cur == Squeeze(parts[..i]) && IsContainerPath(cur)
        invariant files == WithAncestors(old(files), etagOf, cur, now)
      {
        SqueezeStep(parts, i);
        if parts[i] == "" {
          continue;
        }
        if cur == "" {
          cur := parts[i] + "/";
        } else {
          cur := cur + parts[i] + "/";
        }
        PutContainerLocked(cur, now);
      }
      assert parts[..|parts|] == parts;
    }

    method EnsureContainer(path: string, now: int)
      modifies this`files
      ensures files == Ensured(old(files), etagOf, path, now)
    {
      EnsureContainerLocked(path, now);
    }

    /** The end of Put and of Post. */
    method WriteDocument(p: string, contentType: string, body: string, now: int, created: int) returns (res: Resource)
      modifies this`files
      ensures files == Write(old(files), p, DocumentMeta(etagOf, contentType, body, now, created), body)
      ensures Read(files, p) == Done(res)
    {
      var ct := if contentType == "" then "application/octet-stream" else contentType;
      var m := Meta(ct, etagOf(body), now, created, false);
      files := files[DataPath(p) := Data(body)];
      files := files[MetaPath(p) := Info(m)];
      FileNamesDiffer(p);
      res := Resource(p, false, ct, body, m.etag, now, created);
    }

    method Put(path: string, contentType: string, body: string, ifMatch: string, ifNoneMatch: string, now: int)
      returns (r: Reply<Resource>)
      modifies this`files
      ensures var (fs, err) := PutFiles(old(files), etagOf, path, contentType, body, ifMatch, ifNoneMatch, now);
              && files == fs
              && r == if err.Some? then Fail(err.value) else Read(files, Normalize(path))
    {
      var p := Normalize(path);
      if EndsInSlash(p) {
        return Fail(IsContainer);
      }
      var parent := Dir(p);
      if parent != "." && parent != "/" && parent != "" {
        EnsureContainerLocked(parent + "/", now);
      } else {
        PutContainerLocked("", now);
      }
      var existing := ReadMeta(files, p);
      if existing == Fail(Unreadable) {
        return Fail(Unreadable);
      }
      if !CheckPreconditions(MetaOf(existing), ifMatch, ifNoneMatch) {
        return Fail(Precondition);
      }
      var created := now;
      if existing.Done? {
        created := existing.value.created;
      }
      var res := WriteDocument(p, contentType, body, now, created);
      return Done(res);
    }

    method PutContainer(path: string, now: int) returns (r: Reply<Resource>)
      modifies this`files
      ensures files == PutContainerFiles(old(files), etagOf, path, now)
      ensures r == ReadLocked(files, AsContainer(Normalize(path)))
    {
      var p := Normalize(path);
      if p != "" && !EndsInSlash(p) {
        p := p + "/";
      }
      var parent := Dir(WithoutSlash(p));
      if parent != "." && parent != "/" && parent != "" {
        EnsureContainerLocked(parent + "/", now);
      }
      PutContainerLocked(p, now);
      return ReadLocked(files, p);
    }

    method Post(container: string, slug: string, contentType: string, body: string, isContainer: bool, now: int,
                stamp: string, again: string)
      returns (r: Reply<Resource>)
      modifies this`files
      ensures var (fs, path) := PostFiles(old(files), etagOf, container, slug, contentType,
                                          body, isContainer, now, stamp, again);
              files == fs && r == ReadLocked(files, path)
    {
      var c := Normalize(container);
      if c != "" && !EndsInSlash(c) {
        c := c + "/";
      }
      EnsureContainerLocked(c, now);
      var name := slug;
      if name == "" {
        name := "resource-" + stamp;
      }
      name := TrimSlashes(name);
      if isContainer {
        PutContainerLocked(c + name + "/", now);
        return ReadLocked(files, c + name + "/");
      }
      var path := c + name;
      if ReadMeta(files, path).Done? {
        path := c + name + "-" + again;
      }
      var res := WriteDocument(path, contentType, body, now, now);
      return Done(res);
    }

    /** A path that is not cleaned is an alias that the flat namespace does not know. */
    method ListLocked(path: string) returns (r: Reply<seq<string>>)
      requires Cleaned(AsContainer(Normalize(path)))
      ensures var c := AsContainer(Normalize(path));
              match ReadMeta(files, c)
              case Fail(e) => r == Fail(e)
              case Done(m) =>
                if !m.isContainer then r == Fail(NotContainer)
                else r.Done? && Distinct(r.value) && forall q :: q in r.value <==> q in Listed(files, c)
    {
      var c := Normalize(path);
      if c != "" && !EndsInSlash(c) {
        c := c + "/";
      }
      var m := ReadMeta(files, c);
      if m.Fail? {
        return Fail(m.error);
      }
      if !m.value.isContainer {
        return Fail(NotContainer);
      }
      CleanedIsNormal(c);
      CleanedDir(c);
      var entries := ListDir(files, WithoutSlash(c));
      var out := Collect(files, c, entries);
      forall q ensures q in out <==> q in Listed(files, c) {
        EntriesAreListed(files, c, q);
      }
      return Done(out);
    }

    method List(path: string) returns (r: Reply<seq<string>>)
      requires Cleaned(AsContainer(Normalize(path)))
      ensures var c := AsContainer(Normalize(path));
              match ReadMeta(files, c)
              case Fail(e) => r == Fail(e)
              case Done(m) =>
                if !m.isContainer then r == Fail(NotContainer)
                else r.Done? && Distinct(r.value) && forall q :: q in r.value <==> q in Listed(files, c)
    {
      r := ListLocked(path);
    }

    /** The part of Delete that looks at the children. */
    method FindObstacle(p: string) returns (err: Option<Error>)
      requires Normalize(p) == p && Cleaned(AsContainer(p))
      ensures err == Obstacle(files, AsContainer(p))
    {
      var children := ListLocked(p);
      if children.Fail? {
        return Some(children.error);
      }
      ListedAll(files, AsContainer(p), children.value);
      var kept := RealChildren(files, children.value);
      if |kept| > 0 {
        return Some(NotEmpty);
      }
      return None;
    }

    method Delete(path: string, ifMatch: string) returns (err: Option<Error>)
      requires Normalize(Normalize(path)) == Normalize(path) && Cleaned(AsContainer(Normalize(path)))
      modifies this`files
      ensures DeleteFiles(old(files), path, ifMatch) == (files, err)
    {
      var p := Normalize(path);
      var m := ReadMeta(files, p);
      if m.Fail? {
        return Some(m.error);
      }
      if ifMatch != "" && ifMatch != "*" && m.value.etag != ifMatch {
        return Some(Precondition);
      }
      if m.value.isContainer {
        var obstacle := FindObstacle(p);
        if obstacle.Some? {
          return obstacle;
        }
      }
      files := files - {DataPath(p)};
      files := files - {MetaPath(p)};
      assert files == old(files) - {DataPath(p), MetaPath(p)};
      return None;
    }
  }

  lemma SqueezeStep(parts: seq<string>, i: nat)
    requires i < |parts| && '/' !in parts[i] && IsContainerPath(Squeeze(parts[..i]))
    ensures var above, cur := Squeeze(parts[..i]), Squeeze(parts[..i + 1]);
            if parts[i] == "" then cur == above
            else cur == (if above == "" then parts[i] + "/" else above + parts[i] + "/")
                 && Parent(cur) == above && cur != "" && IsContainerPath(cur)
  {
    var above := Squeeze(parts[..i]);
    assert parts[..i + 1] == parts[..i] + [parts[i]];
    SqueezeBelow(parts[..i], parts[i]);
    if parts[i] != "" {
      Below(above, parts[i]);
      ConcatAssoc(above, parts[i], "/");
      EmptyConcat("", parts[i] + "/");
    }
  }

  lemma ListedAll(fs: Files, c: string, children: seq<string>)
    requires Cleaned(c) && forall q :: q in children <==> q in Listed(fs, c)
    ensures forall i :: 0 <= i < |children| ==> Counts(fs, children[i])
    ensures |children| > 0 <==> Listed(fs, c) != {}
  {
    CleanedIsNormal(c);
    forall i | 0 <= i < |children| ensures Counts(fs, children[i]) {
      assert children[i] in children;
      ListedIff(fs, c, children[i]);
      ListedCounts(fs, c, children[i]);
    }
    if |children| > 0 {
      assert children[0] in Listed(fs, c);
    }
    if q :| q in Listed(fs, c) {
      assert q in children;
    }
  }

  lemma CleanedDir(c: string)
    requires Cleaned(c) && IsContainerPath(c)
    ensures AsContainer(WithoutSlash(c)) == c
  {
    if c != "" {
      CleanedFile(c);
    }
  }

  /** The loop of listLocked over the entries of a directory. */
  method Collect(fs: Files, ghost c: string, entries: seq<string>) returns (out: seq<string>)
    requires Distinct(entries) && IsContainerPath(c) && Normalize(c) == c
    requires forall e :: e in entries <==> IsEntry(fs.Keys, c, e)
    ensures Distinct(out) && forall q :: q in out <==> Yielded(fs, c, q)
  {
    out := [];
    EntriesAreNormal(fs, c, entries);
    for i := 0 to |entries|
      invariant Distinct(out)
      invariant forall q :: q in out <==> YieldedBefore(fs, entries, i, q)
    {
      NotSeen(fs, entries, i);
      YieldedNext(fs, entries, i);
      out := CollectOne(fs, entries[i], out);
    }
    AllYielded(fs, c, entries);
  }

  ghost predicate YieldedBefore(fs: Files, entries: seq<string>, i: nat, q: string)
    requires i <= |entries|
  {
    exists j :: 0 <= j < i && Yield(fs, entries[j]) == Some(q)
  }

  lemma YieldedNext(fs: Files, entries: seq<string>, i: nat)
    requires i < |entries|
    ensures forall q :: YieldedBefore(fs, entries, i + 1, q)
                        <==> YieldedBefore(fs, entries, i, q) || Yield(fs, entries[i]) == Some(q)
  {
  }

  lemma AllYielded(fs: Files, c: string, entries: seq<string>)
    requires forall e :: e in entries <==> IsEntry(fs.Keys, c, e)
    ensures forall q :: YieldedBefore(fs, entries, |entries|, q) <==> Yielded(fs, c, q)
  {
    forall q ensures YieldedBefore(fs, entries, |entries|, q) <==> Yielded(fs, c, q) {
      if Yielded(fs, c, q) {
        var k :| k in fs && EntryOf(c, k).Some? && Yield(fs, EntryOf(c, k).value) == Some(q);
        assert IsEntry(fs.Keys, c, EntryOf(c, k).value);
        var j :| 0 <= j < |entries| && entries[j] == EntryOf(c, k).value;
      }
      if YieldedBefore(fs, entries, |entries|, q) {
        var j :| 0 <= j < |entries| && Yield(fs, entries[j]) == Some(q);
        assert IsEntry(fs.Keys, c, entries[j]);
        var k :| k in fs.Keys && EntryOf(c, k) == Some(entries[j]);
      }
    }
  }

  lemma EntriesAreNormal(fs: Files, c: string, entries: seq<string>)
    requires IsContainerPath(c) && Normalize(c) == c
    requires forall e :: e in entries <==> IsEntry(fs.Keys, c, e)
    ensures forall i :: 0 <= i < |entries| ==> Normalize(entries[i]) == entries[i]
  {
    forall i | 0 <= i < |entries| ensures Normalize(entries[i]) == entries[i] {
      assert IsEntry(fs.Keys, c, entries[i]);
      var k :| k in fs.Keys && EntryOf(c, k) == Some(entries[i]);
      var name := EntryParts(c, k);
    }
  }

  /** One round of it; what was seen is what is in the output. */
  method CollectOne(fs: Files, e: string, from: seq<string>) returns (out: seq<string>)
    requires Distinct(from)
    requires !EndsInSlash(Normalize(e)) ==> Normalize(e) !in from
    ensures Distinct(out)
    ensures forall q :: q in out <==> q in from || Yield(fs, e) == Some(q)
  {
    out := from;
    var base := Base(e);
    if base == ".meta.json" || base == ".container" || base == ".root" || HasSuffix(base, ".meta.json") {
      return;
    }
    var candidate := Normalize(e);
    if EndsInSlash(candidate) {
      if Known(fs, candidate) && candidate !in from {
        out := out + [candidate];
      }
      return;
    }
    if Known(fs, candidate) && candidate !in from {
      out := out + [candidate];
      return;
    }
    if Known(fs, candidate + "/") && candidate + "/" !in from {
      out := out + [candidate + "/"];
    }
  }

  /** A document is yielded by its own entry alone. */
  lemma NotSeen(fs: Files, entries: seq<string>, i: nat)
    requires i < |entries| && Distinct(entries)
    requires forall j :: 0 <= j < |entries| ==> Normalize(entries[j]) == entries[j]
    ensures !EndsInSlash(entries[i]) ==> !YieldedBefore(fs, entries, i, entries[i])
  {
  }

  /** The filter in Delete, which has nothing left to filter. */
  method RealChildren(fs: Files, children: seq<string>) returns (kept: seq<string>)
    requires forall i :: 0 <= i < |children| ==> Counts(fs, children[i])
    ensures kept == children
  {
    kept := [];
    for i := 0 to |children|
      invariant kept == children[..i]
    {
      if Counts(fs, children[i]) {
        kept := kept + [children[i]];
      }
    }
  }

  predicate Counts(fs: Files, q: string) {
    var base := Base(WithoutSlash(q));
    base != ".meta.json" && base != ".container" && !HasSuffix(q, ".meta.json") && Known(fs, Normalize(q))
  }

  lemma ListedCounts(fs: Files, c: string, q: string)
    requires Lists(fs, c, q) && Normalize(c) == c
    ensures Counts(fs, q)
  {
    var name := Name(q);
    PathParts(q);
    BaseBelow(c, name);
    NormalBelow(c, name);
    if IsContainerPath(q) {
      assert q[|q| - 1] == '/' && ".meta.json"[9] == 'n';
    } else {
      MetaSuffixOfName(c, name);
    }
  }

  lemma MetaSuffixOfName(c: string, name: string)
    requires IsContainerPath(c)
    ensures HasSuffix(c + name, ".meta.json") ==> HasSuffix(name, ".meta.json")
  {
    SuffixOfName(c, name, ".meta.json");
  }

  lemma SuffixOfName(c: string, name: string, suffix: string)
    requires IsContainerPath(c) && '/' !in suffix
    ensures HasSuffix(c + name, suffix) ==> HasSuffix(name, suffix)
  {
    var p := c + name;
    if HasSuffix(p, suffix) {
      var k := |p| - |suffix|;
      assert forall i :: k <= i < |p| ==> p[i] == suffix[i - k] && p[i] in suffix;
      assert c != "" ==> p[|c| - 1] == '/';
      assert name[k - |c|..] == p[k..];
    }
  }

  /** Whatever the path, a body and its metadata go to two files. */
  lemma FileNamesDiffer(p: string)
    ensures DataPath(p) != MetaPath(p)
  {
    MetaPathIs(p);
    var d, m := DataPath(p), p + ".meta.json";
    assert m[|m| - 1] == 'n';
    assert |d| < |m| || d[|d| - 1] == 't' || d[|d| - 1] == 'r';
  }
}
