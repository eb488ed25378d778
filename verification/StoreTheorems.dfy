/** The state of the store after any run: entity tags, frames, containment and listings. */
module StoreTheorems {
  import opened Text
  import opened Paths
  import opened Guard
  import opened Store
  import opened StoreEncoding
  import opened StoreRuns

  // ----- Coherence and frames -----

  /** The one resource that an operation is about. */
  function Target(fs: Files, etagOf: string -> string, op: Op): string {
    match op
    case Put(path, _, _, _, _, _) => path
    case PutContainer(path, _) => AsContainer(path)
    case Post(container, slug, ct, body, asContainer, now, stamp, again) =>
      PostFiles(fs, etagOf, container, slug, ct, body, asContainer, now, stamp, again).1
    case EnsureContainer(path, _) => AsContainer(path)
    case Delete(path, _) => path
  }

  lemma PutStep(fs: Files, etagOf: string -> string, op: Op, q: string)
    requires Coherent(fs, etagOf) && OpGuarded(op) && op.Put?
    ensures Coherent(Apply(fs, etagOf, op), etagOf) <==> Fits(fs, etagOf, op)
    ensures Fits(fs, etagOf, op) && q != op.path ==> Keeps(fs, Apply(fs, etagOf, op), q)
  {
    var p := op.path;
    CleanedIsNormal(p);
    if p == "" {
      PutRootEffect(fs, etagOf, p, op.contentType, op.body, op.ifMatch, op.ifNoneMatch, op.now);
    } else if !IsContainerPath(p) {
      PutEffect(fs, etagOf, p, op.contentType, op.body, op.ifMatch, op.ifNoneMatch, op.now);
    }
  }

  lemma DeleteStep(fs: Files, etagOf: string -> string, op: Op, q: string)
    requires Coherent(fs, etagOf) && OpGuarded(op) && op.Delete?
    ensures Coherent(Apply(fs, etagOf, op), etagOf)
    ensures q != op.path ==> Keeps(fs, Apply(fs, etagOf, op), q)
  {
    DeleteEffect(fs, etagOf, op.path, op.ifMatch);
  }

  lemma PostStep(fs: Files, etagOf: string -> string, op: Op, q: string)
    requires Coherent(fs, etagOf) && OpGuarded(op) && op.Post?
    ensures Coherent(Apply(fs, etagOf, op), etagOf) <==> Fits(fs, etagOf, op)
    ensures Fits(fs, etagOf, op) && q != Target(fs, etagOf, op) ==> Keeps(fs, Apply(fs, etagOf, op), q)
  {
    if op.asContainer {
      PostContainerEffect(fs, etagOf, op.container, op.slug, op.contentType, op.body, op.now, op.stamp, op.again);
    } else {
      PostDocumentEffect(fs, etagOf, op.container, op.slug, op.contentType, op.body, op.now, op.stamp, op.again);
    }
  }

  /** An operation keeps the files coherent exactly when it fits, and then it changes no resource but its
      target. */
  lemma StepIsLocal(fs: Files, etagOf: string -> string, op: Op, q: string)
    requires Coherent(fs, etagOf) && OpGuarded(op)
    ensures Coherent(Apply(fs, etagOf, op), etagOf) <==> Fits(fs, etagOf, op)
    ensures Fits(fs, etagOf, op) && q != Target(fs, etagOf, op) ==> Keeps(fs, Apply(fs, etagOf, op), q)
  {
    match op
    case Put(_, _, _, _, _, _) => PutStep(fs, etagOf, op, q);
    case PutContainer(path, now) => PutContainerEffect(fs, etagOf, path, now);
    case Post(_, _, _, _, _, _, _, _) => PostStep(fs, etagOf, op, q);
    case EnsureContainer(path, now) => EnsuredPrepares(fs, etagOf, path, now);
    case Delete(_, _) => DeleteStep(fs, etagOf, op, q);
  }

  /** A slug of one element is harmful exactly when the guard would refuse it as a name. */
  lemma OneElementSlug(fs: Files, etagOf: string -> string, op: Op)
    requires Coherent(fs, etagOf) && OpGuarded(op) && op.Post? && !op.asContainer
    requires '/' !in SlugName(op.slug, op.stamp) && Plain(SlugName(op.slug, op.stamp))
    ensures Coherent(Apply(fs, etagOf, op), etagOf) <==> !Hidden(SlugName(op.slug, op.stamp))
  {
    PostStep(fs, etagOf, op, op.slug);
    SingleElement(SlugName(op.slug, op.stamp));
  }

  lemma SingleElement(name: string)
    requires '/' !in name && Plain(name)
    ensures Cleaned(name) && Name(name) == name
  {
    EmptyConcat(Parent(name), name);
    assert WithoutSlash(name) == name by {
      assert name[|name| - 1] in name;
    }
  }

  ghost predicate OpsGuarded(ops: seq<Op>) { forall i :: 0 <= i < |ops| ==> OpGuarded(ops[i]) }

  /** Each operation fits the state that it meets. */
  ghost predicate RunFits(etagOf: string -> string, ops: seq<Op>) {
    forall i :: 0 <= i < |ops| ==> Fits(Run(map[], etagOf, ops[..i]), etagOf, ops[i])
  }

  ghost predicate AlwaysCoherent(etagOf: string -> string, ops: seq<Op>) {
    forall i :: 0 <= i <= |ops| ==> Coherent(Run(map[], etagOf, ops[..i]), etagOf)
  }

  lemma RunStep(etagOf: string -> string, ops: seq<Op>, i: nat)
    requires i < |ops|
    ensures Run(map[], etagOf, ops[..i + 1]) == Apply(Run(map[], etagOf, ops[..i]), etagOf, ops[i])
  {
    assert ops[..i + 1][..i] == ops[..i];
  }

  lemma {:induction false} FitsSoFar(etagOf: string -> string, ops: seq<Op>, i: nat)
    requires OpsGuarded(ops) && i <= |ops|
             && forall j :: 0 <= j < i ==> Fits(Run(map[], etagOf, ops[..j]), etagOf, ops[j])
    ensures Coherent(Run(map[], etagOf, ops[..i]), etagOf)
  {
    if i == 0 {
      assert Run(map[], etagOf, ops[..i]) == map[];
    } else {
      FitsSoFar(etagOf, ops, i - 1);
      RunStep(etagOf, ops, i - 1);
      CoherentAfter(Run(map[], etagOf, ops[..i - 1]), etagOf, ops[i - 1], Run(map[], etagOf, ops[..i]));
    }
  }

  lemma CoherentAfter(fs: Files, etagOf: string -> string, op: Op, fs': Files)
    requires Coherent(fs, etagOf) && OpGuarded(op) && fs' == Apply(fs, etagOf, op)
    ensures Coherent(fs', etagOf) <==> Fits(fs, etagOf, op)
  {
    StepIsLocal(fs, etagOf, op, Target(fs, etagOf, op));
  }

  /** All the states of a run are coherent exactly when all its operations fit. */
  lemma RunIsCoherent(etagOf: string -> string, ops: seq<Op>)
    requires OpsGuarded(ops)
    ensures AlwaysCoherent(etagOf, ops) <==> RunFits(etagOf, ops)
  {
    if AlwaysCoherent(etagOf, ops) {
      forall i | 0 <= i < |ops| ensures Fits(Run(map[], etagOf, ops[..i]), etagOf, ops[i]) {
        RunStep(etagOf, ops, i);
        assert Coherent(Run(map[], etagOf, ops[..i + 1]), etagOf);
        CoherentAfter(Run(map[], etagOf, ops[..i]), etagOf, ops[i], Run(map[], etagOf, ops[..i + 1]));
      }
    }
    if RunFits(etagOf, ops) {
      forall i | 0 <= i <= |ops| ensures Coherent(Run(map[], etagOf, ops[..i]), etagOf) {
        FitsSoFar(etagOf, ops, i);
      }
    }
  }

  /** In every state that is reached by operations that fit, what can be read has the entity tag of its body. */
  lemma EntityTagsMatch(etagOf: string -> string, ops: seq<Op>, p: string)
    requires OpsGuarded(ops) && RunFits(etagOf, ops)
    ensures var r := Read(Run(map[], etagOf, ops), p);
            if r.Done? then r.value.etag == etagOf(r.value.body) && (r.value.isContainer <==> IsContainerPath(p))
                              && Storable(p)
            else r == Fail(NotFound)
  {
    FitsSoFar(etagOf, ops, |ops|);
    assert ops[..|ops|] == ops;
    assert Sound(Run(map[], etagOf, ops), etagOf, p);
  }

  // ----- Containment -----

  /** No element of the path has the name of a bookkeeping file. */
  predicate Shown(p: string)
    decreases |p|
  {
    p == "" || (!Hidden(Name(p)) && Shown(Parent(p)))
  }

  ghost predicate AllShown(fs: Files) { forall p :: Has(fs, p) ==> Shown(p) }

  ghost predicate ParentKnown(fs: Files, p: string) { Parent(p) == "" || Has(fs, Parent(p)) }

  /** Every container of a known resource is known, save the root. */
  ghost predicate Contained(fs: Files) { forall p :: Has(fs, p) ==> ParentKnown(fs, p) }

  /** What a step must meet for this to last: a slug stays in the container or leads to a known one, and a
      deletion is refused or leaves nothing behind. */
  ghost predicate Stays(fs: Files, op: Op) {
    match op
    case Post(container, slug, _, _, _, _, stamp, _) =>
      var above := Parent(SlugName(slug, stamp));
      above == "" || Has(fs, AsContainer(container) + above)
    case Delete(path, ifMatch) => DeleteFiles(fs, path, ifMatch).1.Some? || path == "" || NoChild(fs, path)
    case _ => true
  }

  ghost predicate NoChild(fs: Files, p: string) { forall q :: !IsChild(fs, p, q) }

  /** No name is hidden, and a slug has one element. */
  predicate OpShown(op: Op) {
    match op
    case Put(path, _, _, _, _, _) => Shown(path)
    case PutContainer(path, _) => Shown(path)
    case Post(container, slug, _, _, _, _, stamp, _) =>
      Shown(container) && '/' !in SlugName(slug, stamp) && !Hidden(SlugName(slug, stamp))
    case EnsureContainer(path, _) => Shown(path)
    case Delete(_, _) => true
  }

  lemma {:induction false} ParentIsAbove(q: string, c: string)
    requires Above(q, c) && q != ""
    ensures Above(Parent(q), c)
    decreases |c|
  {
    if q != Parent(c) {
      ParentIsAbove(q, Parent(c));
    }
  }

  lemma {:induction false} ShownAbove(q: string, c: string)
    requires Above(q, c) && Shown(c)
    ensures Shown(q)
    decreases |c|
  {
    if q != Parent(c) {
      ShownAbove(q, Parent(c));
    }
  }

  /** Adding a resource with all its containers. */
  lemma AddingIsContained(fs: Files, fs': Files, c: string)
    requires Contained(fs)
    requires AddsOnly(fs, fs', c) && Complete(fs', c) && forall q :: q != c ==> Keeps(fs, fs', q)
    ensures Contained(fs')
  {
    forall p | Has(fs', p) ensures ParentKnown(fs', p) {
      if Has(fs, p) {
        assert ParentKnown(fs, p);
        assert Parent(p) != c ==> Keeps(fs, fs', Parent(p));
      } else if p != "" && p != c {
        ParentIsAbove(p, c);
      }
    }
  }

  lemma NameAsContainer(p: string)
    requires Cleaned(p)
    ensures Shown(AsContainer(p)) <==> Shown(p)
  {
    if p != "" && !IsContainerPath(p) {
      PathParts(p);
      Below(Parent(p), Name(p));
    }
  }

  predicate IsChild(fs: Files, c: string, q: string) { q != "" && Parent(q) == c && Has(fs, q) }

  /** What a listing shows: the children, hidden names apart. */
  lemma ListedChildren(fs: Files, etagOf: string -> string, c: string, q: string)
    requires Coherent(fs, etagOf)
    ensures q in Listed(fs, c) <==> IsChild(fs, c, q) && !Hidden(Name(q))
  {
    ListedIff(fs, c, q);
    assert Sound(fs, etagOf, q);
    if Has(fs, q) {
      DataPathIs(q);
    }
  }

  /** A listing is exactly the set of children if and only if no child has a hidden name. */
  lemma ListingIsExact(fs: Files, etagOf: string -> string, c: string)
    requires Coherent(fs, etagOf)
    ensures (forall q :: q in Listed(fs, c) <==> IsChild(fs, c, q))
            <==> (forall q :: IsChild(fs, c, q) ==> !Hidden(Name(q)))
  {
    forall q ensures q in Listed(fs, c) <==> IsChild(fs, c, q) && !Hidden(Name(q)) {
      ListedChildren(fs, etagOf, c, q);
    }
  }

  /** A deletion that goes through leaves every container in place exactly when nothing was in what it removed. */
  lemma DeletionIsContained(fs: Files, etagOf: string -> string, p: string, ifMatch: string)
    requires Coherent(fs, etagOf) && Contained(fs) && Cleaned(p) && p != ""
    requires DeleteFiles(fs, p, ifMatch).1.None?
    ensures Contained(DeleteFiles(fs, p, ifMatch).0) <==> NoChild(fs, p)
  {
    var fs' := DeleteFiles(fs, p, ifMatch).0;
    DeleteEffect(fs, etagOf, p, ifMatch);
    if q :| IsChild(fs, p, q) {
      assert Has(fs', q) by {
        assert Keeps(fs, fs', q);
      }
      assert !ParentKnown(fs', q);
    }
    if NoChild(fs, p) {
      forall q | Has(fs', q) ensures ParentKnown(fs', q) {
        assert Has(fs, q) && ParentKnown(fs, q) && !IsChild(fs, p, q);
        assert Keeps(fs, fs', Parent(q));
      }
    }
  }

  lemma RootDeletionIsContained(fs: Files, fs': Files)
    requires Contained(fs) && SameButFor(fs, fs', "") && !Has(fs', "")
    ensures Contained(fs')
  {
  }

  lemma DeleteStepIsContained(fs: Files, etagOf: string -> string, p: string, ifMatch: string)
    requires Coherent(fs, etagOf) && Contained(fs) && Cleaned(p)
    ensures var (fs', err) := DeleteFiles(fs, p, ifMatch);
            Contained(fs') <==> err.Some? || p == "" || NoChild(fs, p)
  {
    var (fs', err) := DeleteFiles(fs, p, ifMatch);
    DeleteEffect(fs, etagOf, p, ifMatch);
    if err.None? {
      if p == "" {
        RootDeletionIsContained(fs, fs');
      } else {
        DeletionIsContained(fs, etagOf, p, ifMatch);
      }
    }
  }

  lemma PutStepIsContained(fs: Files, etagOf: string -> string, op: Op)
    requires Coherent(fs, etagOf) && Contained(fs) && OpGuarded(op) && Fits(fs, etagOf, op) && op.Put?
    ensures Contained(Apply(fs, etagOf, op))
  {
    var p := op.path;
    CleanedIsNormal(p);
    if p == "" {
      PutRootEffect(fs, etagOf, p, op.contentType, op.body, op.ifMatch, op.ifNoneMatch, op.now);
      AddingIsContained(fs, Apply(fs, etagOf, op), p);
    } else if !IsContainerPath(p) {
      PutEffect(fs, etagOf, p, op.contentType, op.body, op.ifMatch, op.ifNoneMatch, op.now);
      var (fs', err) := PutFiles(fs, etagOf, p, op.contentType, op.body, op.ifMatch, op.ifNoneMatch, op.now);
      AddingIsContained(fs, fs', if err.None? then p else Parent(p));
    }
  }

  /** What was put somewhere below `c`. */
  lemma PostedIsContained(fs: Files, fs': Files, c: string, q: string, above: string)
    requires Contained(fs) && Posted(fs, fs', c, q) && (q != "" ==> Parent(q) == c + above) && (q == "" ==> above == "")
    ensures Contained(fs') <==> above == "" || Has(fs, c + above)
  {
    var p := c + above;
    if above == "" {
      ConcatEmpty(c, above);
    } else if Above(p, c) {
      AboveIsContainer(p, c);
    }
    assert p != q ==> Keeps(fs, fs', p);
    assert above != "" ==> (Has(fs', p) <==> Has(fs, p));
    forall r | Has(fs', r) && r != q ensures ParentKnown(fs', r) {
      if Has(fs, r) {
        assert ParentKnown(fs, r);
        assert Parent(r) != q ==> Keeps(fs, fs', Parent(r));
      } else if r != "" && r != c {
        ParentIsAbove(r, c);
      } else if r != "" {
        assert Above(Parent(r), c);
      }
    }
    assert above == "" || Has(fs, p) <==> ParentKnown(fs', q);
  }

  lemma PostedWhere(fs: Files, etagOf: string -> string, op: Op)
    requires Coherent(fs, etagOf) && OpGuarded(op) && Fits(fs, etagOf, op) && op.Post?
    ensures var q, c, above := Normalize(Target(fs, etagOf, op)), AsContainer(op.container),
                                Parent(SlugName(op.slug, op.stamp));
            && Posted(fs, Apply(fs, etagOf, op), c, q)
            && (q != "" ==> Parent(q) == c + above) && (q == "" ==> above == "")
  {
    if op.asContainer {
      PostContainerEffect(fs, etagOf, op.container, op.slug, op.contentType, op.body, op.now, op.stamp, op.again);
    } else {
      PostDocumentEffect(fs, etagOf, op.container, op.slug, op.contentType, op.body, op.now, op.stamp, op.again);
      CleanedIsNormal(Target(fs, etagOf, op));
    }
  }

  lemma PostStepIsContained(fs: Files, etagOf: string -> string, op: Op)
    requires Coherent(fs, etagOf) && Contained(fs) && OpGuarded(op) && Fits(fs, etagOf, op) && op.Post?
    ensures Contained(Apply(fs, etagOf, op)) <==> Stays(fs, op)
  {
    PostedWhere(fs, etagOf, op);
    PostedIsContained(fs, Apply(fs, etagOf, op), AsContainer(op.container), Normalize(Target(fs, etagOf, op)),
                      Parent(SlugName(op.slug, op.stamp)));
  }

  /** An operation that fits keeps every resource in a known container exactly when it stays. */
  lemma StepIsContained(fs: Files, etagOf: string -> string, op: Op)
    requires Coherent(fs, etagOf) && Contained(fs) && OpGuarded(op) && Fits(fs, etagOf, op)
    ensures Contained(Apply(fs, etagOf, op)) <==> Stays(fs, op)
  {
    match op
    case Put(_, _, _, _, _, _) => PutStepIsContained(fs, etagOf, op);
    case PutContainer(path, now) =>
      PutContainerEffect(fs, etagOf, path, now);
      AddingIsContained(fs, Apply(fs, etagOf, op), AsContainer(path));
    case Post(_, _, _, _, _, _, _, _) => PostStepIsContained(fs, etagOf, op);
    case EnsureContainer(path, now) =>
      EnsuredPrepares(fs, etagOf, path, now);
      AddingIsContained(fs, Apply(fs, etagOf, op), AsContainer(path));
    case Delete(p, ifMatch) => DeleteStepIsContained(fs, etagOf, p, ifMatch);
  }

  ghost predicate RunStays(etagOf: string -> string, ops: seq<Op>) {
    forall i :: 0 <= i < |ops| ==> Stays(Run(map[], etagOf, ops[..i]), ops[i])
  }

  ghost predicate AlwaysContained(etagOf: string -> string, ops: seq<Op>) {
    forall i :: 0 <= i <= |ops| ==> Contained(Run(map[], etagOf, ops[..i]))
  }

  lemma {:induction false} StaysSoFar(etagOf: string -> string, ops: seq<Op>, i: nat)
    requires OpsGuarded(ops) && RunFits(etagOf, ops)
    requires i <= |ops| && forall j :: 0 <= j < i ==> Stays(Run(map[], etagOf, ops[..j]), ops[j])
    ensures Contained(Run(map[], etagOf, ops[..i]))
  {
    if i == 0 {
      assert Run(map[], etagOf, ops[..i]) == map[];
    } else {
      StaysSoFar(etagOf, ops, i - 1);
      FitsSoFar(etagOf, ops, i - 1);
      RunStep(etagOf, ops, i - 1);
      ContainedAfter(Run(map[], etagOf, ops[..i - 1]), etagOf, ops[i - 1], Run(map[], etagOf, ops[..i]));
    }
  }

  lemma ContainedAfter(fs: Files, etagOf: string -> string, op: Op, fs': Files)
    requires Coherent(fs, etagOf) && Contained(fs) && OpGuarded(op) && Fits(fs, etagOf, op) && Stays(fs, op)
    requires fs' == Apply(fs, etagOf, op)
    ensures Contained(fs')
  {
    StepIsContained(fs, etagOf, op);
  }

  /** In all the states of a run every resource is in a known container exactly when all its operations stay. */
  lemma RunIsContained(etagOf: string -> string, ops: seq<Op>)
    requires OpsGuarded(ops) && RunFits(etagOf, ops)
    ensures AlwaysContained(etagOf, ops) <==> RunStays(etagOf, ops)
  {
    if AlwaysContained(etagOf, ops) {
      forall i | 0 <= i < |ops| ensures Stays(Run(map[], etagOf, ops[..i]), ops[i]) {
        RunStep(etagOf, ops, i);
        assert Contained(Run(map[], etagOf, ops[..i + 1]));
        FitsSoFar(etagOf, ops, i);
        StepIsContained(Run(map[], etagOf, ops[..i]), etagOf, ops[i]);
      }
    }
    if RunStays(etagOf, ops) {
      forall i | 0 <= i <= |ops| ensures Contained(Run(map[], etagOf, ops[..i])) {
        StaysSoFar(etagOf, ops, i);
      }
    }
  }

  lemma OnTheWay(p: string, i: nat)
    requires i < |p| - 1 && p[i] == '/'
    ensures var c := Parent(p); i < |c| && c[i] == '/' && p[..i + 1] == c[..i + 1]
  {
    var q := WithoutSlash(p);
    assert q[i] == '/';
    LastSlashAfter(q, i);
    assert Parent(p) <= p;
  }

  lemma {:induction false} ContainersAreKnown(fs: Files, p: string, i: nat)
    requires Contained(fs) && Has(fs, p) && i < |p| && p[i] == '/'
    ensures Has(fs, p[..i + 1])
    decreases |p|
  {
    if i == |p| - 1 {
      assert p[..i + 1] == p;
    } else {
      OnTheWay(p, i);
      assert ParentKnown(fs, p);
      ContainersAreKnown(fs, Parent(p), i);
    }
  }

  /** In all the states of a run every resource is in a known container exactly when all its operations stay;
      then every container on the way to a known resource is known. */
  lemma EveryRunIsContained(etagOf: string -> string, ops: seq<Op>)
    requires OpsGuarded(ops) && RunFits(etagOf, ops)
    ensures AlwaysContained(etagOf, ops) <==> RunStays(etagOf, ops)
    ensures var fs := Run(map[], etagOf, ops);
            RunStays(etagOf, ops) ==>
              forall p, i :: Has(fs, p) && 0 <= i < |p| && p[i] == '/' ==> Has(fs, p[..i + 1])
  {
    RunIsContained(etagOf, ops);
    FitsSoFar(etagOf, ops, |ops|);
    assert ops[..|ops|] == ops;
    if RunStays(etagOf, ops) {
      assert Contained(Run(map[], etagOf, ops[..|ops|]));
      AllContainersAreKnown(Run(map[], etagOf, ops));
    }
  }

  lemma AllContainersAreKnown(fs: Files)
    requires Contained(fs)
    ensures forall p, i :: Has(fs, p) && 0 <= i < |p| && p[i] == '/' ==> Has(fs, p[..i + 1])
  {
    forall p, i | Has(fs, p) && 0 <= i < |p| && p[i] == '/' ensures Has(fs, p[..i + 1]) {
      ContainersAreKnown(fs, p, i);
    }
  }

  // ----- Runs without hidden names -----

  lemma NothingListed(fs: Files, etagOf: string -> string, p: string, q: string)
    requires Coherent(fs, etagOf) && AllShown(fs) && (IsContainerPath(p) ==> Listed(fs, p) == {})
    ensures !IsChild(fs, p, q)
  {
    ListedChildren(fs, etagOf, p, q);
    assert Has(fs, q) ==> Shown(q);
  }

  lemma DeleteStays(fs: Files, etagOf: string -> string, op: Op)
    requires Coherent(fs, etagOf) && AllShown(fs) && OpGuarded(op) && op.Delete?
    ensures Stays(fs, op) && AllShown(Apply(fs, etagOf, op))
  {
    var (fs', err) := DeleteFiles(fs, op.path, op.ifMatch);
    DeleteEffect(fs, etagOf, op.path, op.ifMatch);
    if err.None? {
      forall q ensures !IsChild(fs, op.path, q) {
        NothingListed(fs, etagOf, op.path, q);
      }
      forall q | Has(fs', q) ensures Shown(q) {
        assert Has(fs, q);
      }
    }
  }

  lemma AddingIsShown(fs: Files, fs': Files, c: string)
    requires AllShown(fs) && AddsOnly(fs, fs', c) && Shown(c)
    ensures AllShown(fs')
  {
    forall q | Has(fs', q) ensures Shown(q) {
      if !Has(fs, q) && q != c {
        ShownAbove(q, c);
      }
    }
  }

  lemma PutIsShown(fs: Files, etagOf: string -> string, op: Op)
    requires Coherent(fs, etagOf) && AllShown(fs) && OpGuarded(op) && Fits(fs, etagOf, op) && OpShown(op) && op.Put?
    ensures AllShown(Apply(fs, etagOf, op))
  {
    var p := op.path;
    CleanedIsNormal(p);
    if p == "" {
      PutRootEffect(fs, etagOf, p, op.contentType, op.body, op.ifMatch, op.ifNoneMatch, op.now);
      AddingIsShown(fs, Apply(fs, etagOf, op), p);
    } else if !IsContainerPath(p) {
      PutEffect(fs, etagOf, p, op.contentType, op.body, op.ifMatch, op.ifNoneMatch, op.now);
      var (fs', err) := PutFiles(fs, etagOf, p, op.contentType, op.body, op.ifMatch, op.ifNoneMatch, op.now);
      AddingIsShown(fs, fs', if err.None? then p else Parent(p));
    }
  }

  lemma PostIsShown(fs: Files, etagOf: string -> string, op: Op)
    requires Coherent(fs, etagOf) && AllShown(fs) && OpGuarded(op) && Fits(fs, etagOf, op) && OpShown(op) && op.Post?
    ensures Stays(fs, op) && AllShown(Apply(fs, etagOf, op))
  {
    var fs', q := Apply(fs, etagOf, op), Normalize(Target(fs, etagOf, op));
    var c, name := AsContainer(op.container), SlugName(op.slug, op.stamp);
    CleanedContainer(op.container);
    NameAsContainer(op.container);
    ConcatEmpty(c, Parent(name));
    if op.asContainer {
      PostContainerEffect(fs, etagOf, op.container, op.slug, op.contentType, op.body, op.now, op.stamp, op.again);
      if name != "" {
        Below(c, name);
      }
    } else {
      PostDocumentEffect(fs, etagOf, op.container, op.slug, op.contentType, op.body, op.now, op.stamp, op.again);
      CleanedIsNormal(Target(fs, etagOf, op));
    }
    PostedIsShown(fs, fs', c, q);
  }

  lemma PostedIsShown(fs: Files, fs': Files, c: string, q: string)
    requires AllShown(fs) && Posted(fs, fs', c, q) && Shown(c) && Shown(q)
    ensures AllShown(fs')
  {
    forall r | Has(fs', r) ensures Shown(r) {
      if !Has(fs, r) && r != q && r != c {
        ShownAbove(r, c);
      }
    }
  }

  lemma StepIsShown(fs: Files, etagOf: string -> string, op: Op)
    requires Coherent(fs, etagOf) && AllShown(fs) && OpGuarded(op) && Fits(fs, etagOf, op) && OpShown(op)
    ensures Stays(fs, op) && AllShown(Apply(fs, etagOf, op))
  {
    match op
    case Put(_, _, _, _, _, _) => PutIsShown(fs, etagOf, op);
    case PutContainer(path, now) =>
      NameAsContainer(path);
      PutContainerEffect(fs, etagOf, path, now);
      AddingIsShown(fs, Apply(fs, etagOf, op), AsContainer(path));
    case Post(_, _, _, _, _, _, _, _) => PostIsShown(fs, etagOf, op);
    case EnsureContainer(path, now) =>
      NameAsContainer(path);
      EnsuredPrepares(fs, etagOf, path, now);
      AddingIsShown(fs, Apply(fs, etagOf, op), AsContainer(path));
    case Delete(_, _) => DeleteStays(fs, etagOf, op);
  }

  ghost predicate OpsShown(ops: seq<Op>) { forall i :: 0 <= i < |ops| ==> OpShown(ops[i]) }

  lemma {:induction false} ShownSoFar(etagOf: string -> string, ops: seq<Op>, i: nat)
    requires OpsGuarded(ops) && RunFits(etagOf, ops) && OpsShown(ops) && i <= |ops|
    ensures AllShown(Run(map[], etagOf, ops[..i]))
  {
    if i == 0 {
      assert Run(map[], etagOf, ops[..i]) == map[];
    } else {
      ShownSoFar(etagOf, ops, i - 1);
      FitsSoFar(etagOf, ops, i - 1);
      RunStep(etagOf, ops, i - 1);
      ShownAfter(Run(map[], etagOf, ops[..i - 1]), etagOf, ops[i - 1], Run(map[], etagOf, ops[..i]));
    }
  }

  lemma ShownAfter(fs: Files, etagOf: string -> string, op: Op, fs': Files)
    requires Coherent(fs, etagOf) && AllShown(fs) && OpGuarded(op) && Fits(fs, etagOf, op) && OpShown(op)
    requires fs' == Apply(fs, etagOf, op)
    ensures AllShown(fs')
  {
    StepIsShown(fs, etagOf, op);
  }

  /** Without hidden names, and with slugs of one element, all operations stay, and the listing of a container
      shows its children and nothing else. */
  lemma ShownRunsStay(etagOf: string -> string, ops: seq<Op>)
    requires OpsGuarded(ops) && RunFits(etagOf, ops) && OpsShown(ops)
    ensures RunStays(etagOf, ops)
    ensures forall c, q :: q in Listed(Run(map[], etagOf, ops), c) <==> IsChild(Run(map[], etagOf, ops), c, q)
  {
    forall i | 0 <= i < |ops| ensures Stays(Run(map[], etagOf, ops[..i]), ops[i]) {
      ShownSoFar(etagOf, ops, i);
      FitsSoFar(etagOf, ops, i);
      StepIsShown(Run(map[], etagOf, ops[..i]), etagOf, ops[i]);
    }
    ShownSoFar(etagOf, ops, |ops|);
    FitsSoFar(etagOf, ops, |ops|);
    assert ops[..|ops|] == ops;
    ListingIsShown(Run(map[], etagOf, ops), etagOf);
  }

  lemma ListingIsShown(fs: Files, etagOf: string -> string)
    requires Coherent(fs, etagOf) && AllShown(fs)
    ensures forall c, q :: q in Listed(fs, c) <==> IsChild(fs, c, q)
  {
    forall c, q ensures q in Listed(fs, c) <==> IsChild(fs, c, q) {
      ListedChildren(fs, etagOf, c, q);
      assert Has(fs, q) ==> Shown(q);
    }
  }
}
