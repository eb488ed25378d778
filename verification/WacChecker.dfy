/** Which stored ACL document governs a resource. */
module WacChecker {
  import opened Text
  import opened Turtle
  import opened TurtleRoundTrip
  import opened Wac
  import opened WacProofs
  import opened WacGrants
  import opened Paths
  import opened Guard
  import opened Store
  import opened StoreEncoding
  import opened StoreRuns

  // ----- Candidates -----

  /** The loop over the parents of a path. */
  function Walk(p: string): seq<string>
    decreases |p|
  {
    var i := LastIndexByte(p, '/');
    if i <= 0 then [".acl"] else [p[..i] + "/.acl"] + Walk(p[..i])
  }

  function RawCandidates(path: string): seq<string> {
    var p := TrimPrefix(path, "/");
    if p == "" then Walk(p) else [AuxPath(p, ".acl")] + Walk(WithoutSlash(p))
  }

  /** Each element at its first place. */
  function Unique(s: seq<string>): (u: seq<string>)
    ensures forall x :: x in u <==> x in s
  {
    if s == [] then []
    else
      var u := Unique(s[..|s| - 1]);
      assert s == s[..|s| - 1] + [s[|s| - 1]];
      if s[|s| - 1] in u then u else u + [s[|s| - 1]]
  }

  function Candidates(path: string): seq<string> { Unique(RawCandidates(path)) }

  method AclCandidates(path: string) returns (uniq: seq<string>)
    ensures uniq == Candidates(path)
  {
    var p := TrimPrefix(path, "/");
    var out: seq<string> := [];
    if p != "" {
      out := [AuxPath(p, ".acl")];
    }
    ghost var raw := RawCandidates(path);
    p := WithoutSlash(p);
    while true
      invariant out + Walk(p) == raw
      decreases |p|
    {
      var idx := LastIndexByte(p, '/');
      var dir := if idx >= 0 then p[..idx] else "";
      if dir == "" {
        out := out + [".acl"];
        break;
      }
      ConcatAssoc(out, [dir + "/.acl"], Walk(dir));
      out := out + [dir + "/.acl"];
      p := dir;
    }
    uniq := Dedupe(out);
  }

  /** The loop at its end. */
  method Dedupe(out: seq<string>) returns (uniq: seq<string>)
    ensures uniq == Unique(out)
  {
    uniq := [];
    for i := 0 to |out|
      invariant uniq == Unique(out[..i])
    {
      assert out[..i + 1][..i] == out[..i];
      if out[i] !in uniq {
        uniq := uniq + [out[i]];
      }
    }
    assert out[..|out|] == out;
  }

  // ----- Effective modes -----

  datatype Answer = Granted(mode: Mode) | Failed(error: Error) | Crashed

  /** What one candidate decides: nothing when it is missing or does not parse. */
  function Judged(fs: Files, candidate: string, path: string, agent: string): Option<Answer> {
    var p := Normalize(candidate);
    match ReadMeta(fs, p)
    case Fail(NotFound) => None
    case Fail(e) => Some(Failed(e))
    case Done(_) =>
      match Read(fs, p)
      case Fail(e) => Some(Failed(e))
      case Done(res) =>
        match Parse(res.body)
        case Ok(g) => Some(Granted(Evaluate(g, path, agent)))
        case Err => None
        case Panic => Some(Crashed)
  }

  /** What the loop over the candidates finds. */
  function FirstModes(fs: Files, candidates: seq<string>, path: string, agent: string): Option<Answer> {
    if candidates == [] then None
    else if Judged(fs, candidates[0], path, agent).Some? then Judged(fs, candidates[0], path, agent)
    else FirstModes(fs, candidates[1..], path, agent)
  }

  const READ_ONLY := Mode(true, false, false, false)

  function Effective(fs: Files, path: string, agent: string): Answer {
    var p := TrimPrefix(path, "/");
    match FirstModes(fs, Candidates(p), path, agent)
    case Some(answer) => answer
    case None =>
      if p == "" || p == "/" then Granted(READ_ONLY)
      else if agent != "" then Granted(EVERYTHING)
      else Granted(READ_ONLY)
  }

  method Judge(store: ResourceStore, candidate: string, path: string, agent: string) returns (r: Option<Answer>)
    ensures r == Judged(store.files, candidate, path, agent)
  {
    var known := ReadMeta(store.files, Normalize(candidate));
    if known == Fail(NotFound) {
      return None;
    }
    if known.Fail? {
      return Some(Failed(known.error));
    }
    var res := store.Get(candidate);
    if res.Fail? {
      return Some(Failed(res.error));
    }
    var parsed := ParseTurtle(res.value.body);
    if parsed.Err? {
      return None;
    }
    if parsed.Panic? {
      return Some(Crashed);
    }
    var mode := EvaluateACL(parsed.value, path, agent);
    return Some(Granted(mode));
  }

  method EffectiveModes(store: ResourceStore, path: string, agent: string) returns (r: Answer)
    ensures r == Effective(store.files, path, agent)
  {
    var p := TrimPrefix(path, "/");
    var candidates := AclCandidates(p);
    for i := 0 to |candidates|
      invariant FirstModes(store.files, candidates, path, agent)
                == FirstModes(store.files, candidates[i..], path, agent)
    {
      ghost var rest := candidates[i..];
      assert rest[0] == candidates[i] && rest[1..] == candidates[i + 1..];
      var answer := Judge(store, candidates[i], path, agent);
      if answer.Some? {
        return answer.value;
      }
    }
    if p == "" || p == "/" {
      return Granted(READ_ONLY);
    }
    if agent != "" {
      return Granted(EVERYTHING);
    }
    return Granted(READ_ONLY);
  }

  /** Whether the agent may do what is required: not when the modes cannot be found. */
  predicate Permitted(answer: Answer, required: Mode) { answer.Granted? && Allows(answer.mode, required) }

  method Allowed(store: ResourceStore, path: string, agent: string, required: Mode) returns (effective: Answer,
                 ok: bool)
    ensures effective == Effective(store.files, path, agent) && (ok <==> Permitted(effective, required))
  {
    effective := EffectiveModes(store, path, agent);
    if !effective.Granted? {
      return effective, false;
    }
    return effective, Allows(effective.mode, required);
  }

  // ----- The ACL of a container governs what is in it -----

  /** The ACL documents of the containers around a path, nearest first. */
  function AclsAbove(p: string): seq<string>
    decreases |p|
  {
    if Parent(p) == "" then [".acl"] else [Parent(p) + ".acl"] + AclsAbove(Parent(p))
  }

  lemma AclInside(q: string, c: string)
    requires q + "/" == c
    ensures q + "/.acl" == c + ".acl"
  {
    assert "/.acl" == "/" + ".acl";
    ConcatAssoc(q, "/", ".acl");
  }

  lemma WalkUp(p: string, c: string, name: string)
    requires WithoutSlash(p) == c + name && IsContainerPath(c) && '/' !in name && (c != "" ==> c[0] != '/')
    ensures Walk(WithoutSlash(p)) == if c == "" then [".acl"] else [c + ".acl"] + Walk(WithoutSlash(c))
  {
    LastSlash(c, name);
    if c != "" {
      assert (c + name)[..|c| - 1] == WithoutSlash(c);
      assert c == WithoutSlash(c) + "/";
      AclInside(WithoutSlash(c), c);
    }
  }

  lemma {:induction false} WalkIsAbove(p: string)
    requires Cleaned(p)
    ensures Walk(WithoutSlash(p)) == AclsAbove(p)
    decreases |p|
  {
    var c := Parent(p);
    PathParts(p);
    if c != "" {
      CleanedStart(c);
      WalkIsAbove(c);
    }
    WalkUp(p, c, Name(p));
  }

  /** Each is shorter than the one before. */
  ghost predicate Shrinking(s: seq<string>) { forall i, j :: 0 <= i < j < |s| ==> |s[i]| > |s[j]| }

  lemma {:induction false} AclsShrink(p: string)
    ensures |AclsAbove(p)[0]| == |Parent(p)| + 4 && Shrinking(AclsAbove(p))
    decreases |p|
  {
    if Parent(p) != "" {
      AclsShrink(Parent(p));
      ShrinkOnto(Parent(p) + ".acl", AclsAbove(Parent(p)));
    }
  }

  lemma ShrinkOnto(x: string, s: seq<string>)
    requires s != [] && Shrinking(s) && |x| > |s[0]|
    ensures Shrinking([x] + s)
  {
  }

  lemma {:induction false} ShrinkingIsUnique(s: seq<string>)
    requires Shrinking(s)
    ensures Unique(s) == s
  {
    if s != [] {
      ShrinkingIsUnique(s[..|s| - 1]);
      assert s == s[..|s| - 1] + [s[|s| - 1]];
    }
  }

  /** The candidates of a resource: its own ACL, and those of the containers around it, nearest first.
      The own ACL of a container lies beside it. */
  lemma CandidatesAre(p: string)
    requires Cleaned(p)
    ensures Candidates(p) == if p == "" then [".acl"] else [WithoutSlash(p) + ".acl"] + AclsAbove(p)
    ensures Shrinking(Candidates(p))
  {
    CleanedStart(p);
    assert !HasPrefix(p, "/");
    WalkIsAbove(p);
    AclsShrink(p);
    if p != "" {
      PathParts(p);
      ShrinkOnto(WithoutSlash(p) + ".acl", AclsAbove(p));
    }
    ShrinkingIsUnique(RawCandidates(p));
  }

  /** The ACL of a container, by its path. */
  lemma AclIsStorable(c: string)
    requires Cleaned(c) && IsContainerPath(c)
    ensures Storable(c + ".acl") && !IsContainerPath(c + ".acl") && Parent(c + ".acl") == c
  {
    AclIsPlain();
    StorableBelow(c, ".acl");
  }

  lemma AclIsPlain()
    ensures Plain(".acl") && !Hidden(".acl") && '/' !in ".acl"
  {
    assert |".acl"| == 4 && |".meta.json"| == 10 && |".container"| == 10 && |".root"| == 5;
  }

  lemma {:induction false} FirstOfSkipped(fs: Files, candidates: seq<string>, k: nat, path: string, agent: string)
    requires k < |candidates| && forall j :: 0 <= j < k ==> Judged(fs, candidates[j], path, agent).None?
    requires Judged(fs, candidates[k], path, agent).Some?
    ensures FirstModes(fs, candidates, path, agent) == Judged(fs, candidates[k], path, agent)
  {
    if k > 0 {
      FirstOfSkipped(fs, candidates[1..], k - 1, path, agent);
    }
  }

  lemma JudgedByText(fs: Files, acl: string, m: Meta, text: string, g: seq<Triple>, path: string, agent: string)
    requires Normalize(acl) == acl && Reads(fs, acl, m, text) && Parse(text) == Ok(g)
    ensures Judged(fs, acl, path, agent) == Some(Granted(Evaluate(g, path, agent)))
  {
  }

  /** A path that names a file. */
  ghost predicate IsFile(q: string) { Cleaned(q) && !IsContainerPath(q) }

  lemma {:induction false} AclsAreCleaned(p: string, q: string)
    requires Cleaned(p) && q in AclsAbove(p)
    ensures IsFile(q)
    decreases |p|
  {
    AclIsStorable(Parent(p));
    if Parent(p) == "" {
      EmptyConcat(Parent(p), ".acl");
    } else if q != Parent(p) + ".acl" {
      AclsAreCleaned(Parent(p), q);
    }
  }

  /** A longer name in place of the last one. */
  lemma SuffixedIsCleaned(p: string, suffix: string)
    requires Cleaned(p) && p != "" && '/' !in suffix && |suffix| > 2
    ensures IsFile(WithoutSlash(p) + suffix)
  {
    PathParts(p);
    StorableBelow(Parent(p), Name(p) + suffix);
    ConcatAssoc(Parent(p), Name(p), suffix);
  }

  lemma OwnAclIsFile(p: string, suffix: string)
    requires Cleaned(p) && suffix == ".acl"
    ensures if p == "" then IsFile(suffix) else IsFile(WithoutSlash(p) + suffix)
  {
    if p == "" {
      AclIsStorable(p);
      EmptyConcat(p, suffix);
    } else {
      assert '/' !in ".acl";
      SuffixedIsCleaned(p, suffix);
    }
  }

  lemma CandidatesAreCleaned(p: string, q: string)
    requires Cleaned(p) && q in Candidates(p)
    ensures IsFile(q) && Normalize(q) == q
  {
    CandidatesAre(p);
    OwnAclIsFile(p, ".acl");
    if p != "" && q in AclsAbove(p) {
      AclsAreCleaned(p, q);
    }
    CleanedIsNormal(q);
  }

  lemma StaysUnknown(fs: Files, etagOf: string -> string, fs': Files, acl: string, q: string)
    requires Created(fs, etagOf, fs', acl) && !Has(fs, q) && q != acl && !IsContainerPath(q)
    ensures !Has(fs', q)
  {
    if Above(q, acl) {
      AboveIsContainer(q, acl);
    }
  }

  lemma UnknownJudgesNothing(fs: Files, q: string, path: string, agent: string)
    requires !Has(fs, q) && Normalize(q) == q
    ensures Judged(fs, q, path, agent).None?
  {
  }

  /** Putting an ACL document: it decides for every path whose nearer candidates are missing. */
  lemma AclGoverns(fs: Files, etagOf: string -> string, c: string, text: string, g: seq<Triple>,
                   now: int, p: string, k: nat, agent: string)
    requires Coherent(fs, etagOf) && Cleaned(c) && IsContainerPath(c) && Parse(text) == Ok(g)
    requires Cleaned(p) && k < |Candidates(p)| && Candidates(p)[k] == c + ".acl"
    requires forall j :: 0 <= j < k ==> !Has(fs, Candidates(p)[j])
    ensures var (fs', err) := PutFiles(fs, etagOf, c + ".acl", "text/turtle", text, "", "", now);
            err.None? && Effective(fs', p, agent) == Granted(Evaluate(g, p, agent))
  {
    var acl := c + ".acl";
    AclIsStorable(c);
    PutEffect(fs, etagOf, acl, "text/turtle", text, "", "", now);
    var fs' := PutFiles(fs, etagOf, acl, "text/turtle", text, "", "", now).0;
    NearerSayNothing(fs, etagOf, fs', acl, p, k, agent);
    CandidatesAreCleaned(p, Candidates(p)[k]);
    JudgedByText(fs', acl, PutMeta(MetaOf(ReadMeta(fs, acl)), etagOf, "text/turtle", text, now), text, g, p, agent);
    DecidedBy(fs', p, k, agent);
  }

  lemma NearerSayNothing(fs: Files, etagOf: string -> string, fs': Files, acl: string, p: string,
                         k: nat, agent: string)
    requires Created(fs, etagOf, fs', acl) && Cleaned(p) && k < |Candidates(p)| && Candidates(p)[k] == acl
    requires forall j :: 0 <= j < k ==> !Has(fs, Candidates(p)[j])
    ensures forall j :: 0 <= j < k ==> Judged(fs', Candidates(p)[j], p, agent).None?
  {
    CandidatesAre(p);
    forall j | 0 <= j < k ensures Judged(fs', Candidates(p)[j], p, agent).None? {
      CandidatesAreCleaned(p, Candidates(p)[j]);
      StaysUnknown(fs, etagOf, fs', acl, Candidates(p)[j]);
      UnknownJudgesNothing(fs', Candidates(p)[j], p, agent);
    }
  }

  lemma DecidedBy(fs: Files, p: string, k: nat, agent: string)
    requires Cleaned(p) && k < |Candidates(p)| && Judged(fs, Candidates(p)[k], p, agent).Some?
    requires forall j :: 0 <= j < k ==> Judged(fs, Candidates(p)[j], p, agent).None?
    ensures Effective(fs, p, agent) == Judged(fs, Candidates(p)[k], p, agent).value
  {
    FirstOfSkipped(fs, Candidates(p), k, p, agent);
    CleanedStart(p);
  }

  lemma {:induction false} AclCovers(c: string, p: string) returns (k: nat)
    requires Cleaned(p) && Above(c, p)
    ensures k < |AclsAbove(p)| && AclsAbove(p)[k] == c + ".acl"
    decreases |p|
  {
    if c == Parent(p) {
      k := 0;
      EmptyConcat("", ".acl");
    } else {
      var j := AclCovers(c, Parent(p));
      k := j + 1;
    }
  }

  lemma AclPlace(c: string, p: string) returns (k: nat)
    requires Cleaned(p) && Above(c, p)
    ensures k < |Candidates(p)| && Candidates(p)[k] == c + ".acl"
    ensures forall i :: 0 <= i < k ==> |Candidates(p)[i]| > |c| + 4
  {
    CandidatesAre(p);
    var j := AclCovers(c, p);
    k := j + 1;
    BehindFirst(WithoutSlash(p) + ".acl", AclsAbove(p), j);
    ShrinksTo(Candidates(p), k);
  }

  lemma BehindFirst(x: string, s: seq<string>, j: nat)
    requires j < |s|
    ensures ([x] + s)[j + 1] == s[j]
  {
  }

  lemma ShrinksTo(s: seq<string>, k: nat)
    requires Shrinking(s) && k < |s|
    ensures forall i :: 0 <= i < k ==> |s[i]| > |s[k]|
  {
  }

  /** An ACL in a container decides for all that is below, unless something nearer is stored. */
  lemma AclGovernsBelow(fs: Files, etagOf: string -> string, c: string, text: string, g: seq<Triple>,
                        now: int, p: string, agent: string)
    requires Coherent(fs, etagOf) && Cleaned(c) && IsContainerPath(c) && Cleaned(p)
             && Above(c, p) && Parse(text) == Ok(g)
    requires forall a :: a in Candidates(p) && |a| > |c| + 4 ==> !Has(fs, a)
    ensures var (fs', err) := PutFiles(fs, etagOf, c + ".acl", "text/turtle", text, "", "", now);
            err.None? && Effective(fs', p, agent) == Granted(Evaluate(g, p, agent))
  {
    var k := AclPlace(c, p);
    forall i | 0 <= i < k ensures !Has(fs, Candidates(p)[i]) {
      assert Candidates(p)[i] in Candidates(p);
    }
    AclGoverns(fs, etagOf, c, text, g, now, p, k, agent);
  }

  /** An owner-only ACL in a container: whatever is below belongs to the owner alone. */
  lemma OwnerAclGoverns(isPrint: char -> bool, ps: seq<(string, string)>, url: string, owner: string,
                        fs: Files, etagOf: string -> string, c: string, text: string, now: int,
                        p: string, agent: string)
    requires PrintTable(isPrint) && AclPrefixes(ps) && IriOk(url, ps) && IriOk(owner, ps)
    requires text == Print(isPrint, OwnerGraph(url, owner), ps)
    requires Coherent(fs, etagOf) && Cleaned(c) && IsContainerPath(c) && Cleaned(p) && Above(c, p)
    requires forall a :: a in Candidates(p) && |a| > |c| + 4 ==> !Has(fs, a)
    ensures var (fs', err) := PutFiles(fs, etagOf, c + ".acl", "text/turtle", text, "", "", now);
            && err.None? && Effective(fs', p, agent) == Granted(if IsAgent(owner, agent) then EVERYTHING else NOTHING)
            && forall r :: Permitted(Effective(fs', p, agent), r) <==> IsAgent(owner, agent) || r == NOTHING
  {
    var g := OwnerParsed(isPrint, ps, url, owner, text, p, agent);
    AclGovernsBelow(fs, etagOf, c, text, g, now, p, agent);
    AllOrNothing();
  }

  lemma AllOrNothing()
    ensures forall r :: Permitted(Granted(EVERYTHING), r)
    ensures forall r :: Permitted(Granted(NOTHING), r) <==> r == NOTHING
  {
  }

  lemma OwnerParsed(isPrint: char -> bool, ps: seq<(string, string)>, url: string, owner: string,
                    text: string, p: string, agent: string) returns (g: seq<Triple>)
    requires PrintTable(isPrint) && AclPrefixes(ps) && IriOk(url, ps) && IriOk(owner, ps)
    requires text == Print(isPrint, OwnerGraph(url, owner), ps)
    ensures Parse(text) == Ok(g) && Evaluate(g, p, agent) == if IsAgent(owner, agent) then EVERYTHING else NOTHING
  {
    OwnerOnlyDocument(isPrint, ps, url, owner, p, agent);
    g := OwnerGraph(url, owner);
  }

  /** The ACL inside a container is no candidate of the container itself. */
  lemma InnerAclIsNoCandidate(c: string)
    requires Cleaned(c) && IsContainerPath(c) && c != ""
    ensures c + ".acl" !in Candidates(c) && Candidates(c)[0] == WithoutSlash(c) + ".acl"
  {
    CandidatesAre(c);
    assert |WithoutSlash(c)| == |c| - 1;
    forall j | 0 <= j < |Candidates(c)| ensures Candidates(c)[j] != c + ".acl" {
      assert j > 0 ==> |Candidates(c)[0]| > |Candidates(c)[j]|;
    }
  }
}
