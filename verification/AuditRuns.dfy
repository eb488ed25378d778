/** Every interleaving of the critical sections of Append and FlushBatch. */
module AuditRuns {
  import opened Text
  import opened Merkle
  import opened MerkleProofs
  import opened AuditLog

  /** An Append between its two critical sections; `base` events were committed when the
      first one ran. */
  datatype InFlight = InFlight(ev: Event, base: nat)

  /** A FlushBatch after its first critical section: the hashes it took, on which turn,
      and how many of their events it has told. */
  datatype Flush = Flush(turn: nat, batchId: string, hashes: seq<Hash>, marked: nat)

  /** The logger, the calls under way, and the history that the theorems speak of: the
      base of each committed event, how many events were committed at each turn of
      taking, what was taken and under which batch id, and the turn of each published batch. */
  datatype System = System(log: Log, appending: seq<InFlight>, flushing: seq<Flush>,
                           bases: seq<nat>, cuts: seq<nat>, taken: seq<seq<Hash>>, batchIds: seq<string>,
                           turns: seq<nat>)

  datatype Step =
    | Begin(p: Payload)
    | Abort(k: nat)
    | Commit(k: nat)
    | Take(batchId: string)
    | Mark(k: nat)
    | Publish(k: nat)

  const START := System(EMPTY_LOG, [], [], [], [0], [], [], [])

  function Remove<T>(s: seq<T>, k: nat): seq<T>
    requires k < |s|
  {
    s[..k] + s[k + 1..]
  }

  predicate KnownId(s: System, id: string) {
    || (exists i :: 0 <= i < |s.log.events| && s.log.events[i].payload.id == id)
    || (exists k :: 0 <= k < |s.appending| && s.appending[k].ev.payload.id == id)
  }

  /** Random identifiers never repeat, so a step that would repeat one does not happen;
      nor does a step of a call that is not under way. */
  predicate Enabled(s: System, step: Step) {
    match step
    case Begin(p) => !KnownId(s, p.id)
    case Abort(k) => k < |s.appending|
    case Commit(k) => k < |s.appending|
    case Take(batchId) => s.log.pending != [] && batchId !in s.batchIds
    case Mark(k) => k < |s.flushing| && s.flushing[k].marked < |s.flushing[k].hashes|
    case Publish(k) => k < |s.flushing| && s.flushing[k].marked == |s.flushing[k].hashes|
  }

  function Next(s: System, step: Step): System
    requires Enabled(s, step)
  {
    match step
    case Begin(p) => s.(appending := s.appending + [InFlight(NewEvent(s.log, p), |s.log.events|)])
    case Abort(k) => s.(appending := Remove(s.appending, k))
    case Commit(k) =>
      var a := s.appending[k];
      s.(log := Committed(s.log, a.ev), appending := Remove(s.appending, k), bases := s.bases + [a.base])
    case Take(batchId) =>
      s.(log := s.log.(pending := []), cuts := s.cuts + [|s.log.events|],
         taken := s.taken + [s.log.pending], batchIds := s.batchIds + [batchId],
         flushing := s.flushing + [Flush(|s.batchIds|, batchId, s.log.pending, 0)])
    case Mark(k) =>
      var f := s.flushing[k];
      s.(log := Marked(s.log, f.hashes[f.marked], f.batchId), flushing := s.flushing[k := f.(marked := f.marked + 1)])
    case Publish(k) =>
      var f := s.flushing[k];
      s.(log := s.log.(batches := s.log.batches + [NewBatch(s.log, f.batchId, f.hashes)]),
         flushing := Remove(s.flushing, k), turns := s.turns + [f.turn])
  }

  function Run(steps: seq<Step>): System {
    if steps == [] then START
    else
      var s := Run(steps[..|steps| - 1]);
      var step := steps[|steps| - 1];
      if Enabled(s, step) then Next(s, step) else s
  }

  // ----- What every run keeps -----

  /** The hash before position `b`. */
  function Link(events: seq<Event>, b: nat): Option<Hash>
    requires b <= |events|
  {
    if b == 0 then None else Some(events[b - 1].hash)
  }

  ghost predicate Sound(ev: Event) { ev.hash == ComputeHash(ev.payload) }

  ghost predicate AllSound(es: seq<Event>) {
    forall i :: 0 <= i < |es| ==> Sound(es[i])
  }

  /** Every event links to the event that was last when it began. */
  ghost predicate Linked(es: seq<Event>, bases: seq<nat>) {
    |bases| == |es| && forall i :: 0 <= i < |es| ==> bases[i] <= i && es[i].payload.prev == Link(es, bases[i])
  }

  ghost predicate Starting(es: seq<Event>, fs: seq<InFlight>) {
    forall k :: 0 <= k < |fs| ==>
      Sound(fs[k].ev) && fs[k].base <= |es| && fs[k].ev.payload.prev == Link(es, fs[k].base)
  }

  ghost predicate Chained(s: System) {
    && s.log.prevHash == Link(s.log.events, |s.log.events|)
    && AllSound(s.log.events) && Linked(s.log.events, s.bases) && Starting(s.log.events, s.appending)
  }

  ghost predicate IdsDiffer(es: seq<Event>) {
    forall i, j :: 0 <= i < j < |es| ==> es[i].payload.id != es[j].payload.id
  }

  ghost predicate UniqueIds(s: System) {
    var es, fs := s.log.events, s.appending;
    && IdsDiffer(es)
    && (forall i, j :: 0 <= i < j < |fs| ==> fs[i].ev.payload.id != fs[j].ev.payload.id)
    && (forall i, k :: 0 <= i < |es| && 0 <= k < |fs| ==> es[i].payload.id != fs[k].ev.payload.id)
  }

  ghost predicate Indexed(s: System) {
    && (forall i :: 0 <= i < |s.log.events| ==>
          var ev := s.log.events[i];
          && ev.payload.id in s.log.byId && s.log.byId[ev.payload.id] == ev
          && ev.hash in s.log.byHash && s.log.byHash[ev.hash] == ev)
  }

  function Hashes(events: seq<Event>): seq<Hash> {
    seq(|events|, i requires 0 <= i < |events| => events[i].hash)
  }

  /** What was taken at a turn is what was committed since the turn before; the rest is
      pending. */
  ghost predicate Cut(s: System) {
    && |s.cuts| == |s.batchIds| + 1 && s.cuts[0] == 0
    && (forall t, u :: 0 <= t < u < |s.cuts| ==> s.cuts[t] < s.cuts[u])
    && s.cuts[|s.cuts| - 1] <= |s.log.events|
    && s.log.pending == Hashes(s.log.events)[s.cuts[|s.cuts| - 1]..]
    && (forall t, u :: 0 <= t < u < |s.batchIds| ==> s.batchIds[t] != s.batchIds[u])
  }

  function Taken(s: System, t: nat): seq<Hash>
    requires t + 1 < |s.cuts| && s.cuts[t] <= s.cuts[t + 1] <= |s.log.events|
  {
    Hashes(s.log.events)[s.cuts[t]..s.cuts[t + 1]]
  }

  ghost predicate ValidTurn(s: System, t: nat) {
    t < |s.batchIds| && t + 1 < |s.cuts| && s.cuts[t] < s.cuts[t + 1] <= |s.log.events|
  }

  /** Event `i` was told that it is in the batch of turn `t`. */
  ghost predicate Told(s: System, i: nat, t: nat)
    requires i < |s.log.events| && t < |s.batchIds|
  {
    var id := s.log.events[i].payload.id;
    id in s.log.batchOf && s.log.batchOf[id] == s.batchIds[t]
  }

  ghost predicate Within(s: System, i: nat, t: nat) {
    ValidTurn(s, t) && s.cuts[t] <= i < s.cuts[t + 1]
  }

  ghost predicate FlushOk(s: System, f: Flush) {
    && ValidTurn(s, f.turn) && f.batchId == s.batchIds[f.turn] && f.hashes == Taken(s, f.turn)
    && f.marked <= |f.hashes|
    && forall i :: s.cuts[f.turn] <= i < s.cuts[f.turn] + f.marked ==> Told(s, i, f.turn)
  }

  ghost predicate BatchOk(s: System, b: Batch, t: nat) {
    && ValidTurn(s, t) && b.id == s.batchIds[t] && b.hashes == Taken(s, t)
    && (b.root, b.paths) == Build(b.hashes, false)
    && forall i :: s.cuts[t] <= i < s.cuts[t + 1] ==> Told(s, i, t)
  }

  ghost predicate FlushesOk(s: System, fs: seq<Flush>) {
    forall k :: 0 <= k < |fs| ==> FlushOk(s, fs[k])
  }

  ghost predicate BatchesOk(s: System, bs: seq<Batch>, turns: seq<nat>) {
    |turns| == |bs| && forall k :: 0 <= k < |turns| ==> BatchOk(s, bs[k], turns[k])
  }

  /** Events are told only of batches that they are in. */
  ghost predicate ToldWithin(s: System) {
    forall i :: 0 <= i < |s.log.events| && s.log.events[i].payload.id in s.log.batchOf ==>
      exists t :: Within(s, i, t) && Told(s, i, t)
  }

  ghost predicate Batched(s: System) {
    FlushesOk(s, s.flushing) && BatchesOk(s, s.log.batches, s.turns) && ToldWithin(s)
  }

  ghost predicate Inv(s: System) {
    Chained(s) && UniqueIds(s) && Indexed(s) && Cut(s) && Batched(s)
  }

  /** What was really taken at each turn is what the cuts say. */
  ghost predicate Recorded(s: System) {
    |s.taken| == |s.batchIds| && forall t :: 0 <= t < |s.taken| ==> ValidTurn(s, t) && s.taken[t] == Taken(s, t)
  }

  ghost predicate UnderWay(s: System, t: nat) { exists k :: 0 <= k < |s.flushing| && s.flushing[k].turn == t }

  ghost predicate Published(s: System, t: nat) { exists k :: 0 <= k < |s.turns| && s.turns[k] == t }

  /** Every turn is on its way to a batch or is one, and not twice. */
  ghost predicate Accounted(s: System) {
    && (forall t :: 0 <= t < |s.batchIds| ==> UnderWay(s, t) || Published(s, t))
    && TurnsDiffer(s.flushing, s.turns)
  }

  ghost predicate TurnsDiffer(fs: seq<Flush>, turns: seq<nat>) {
    && (forall k, l :: 0 <= k < l < |fs| ==> fs[k].turn != fs[l].turn)
    && (forall k, l :: 0 <= k < l < |turns| ==> turns[k] != turns[l])
    && (forall k, l :: 0 <= k < |fs| && 0 <= l < |turns| ==> fs[k].turn != turns[l])
  }

  lemma ChainedNext(s: System, step: Step)
    requires Enabled(s, step) && Chained(s)
    ensures Chained(Next(s, step))
  {
    if step.Commit? {
      var es, a := s.log.events, s.appending[step.k];
      LinkedCommit(es, s.bases, a);
      StartingCommit(es, s.appending, a.ev);
    }
  }

  lemma LinkedCommit(es: seq<Event>, bases: seq<nat>, a: InFlight)
    requires Linked(es, bases) && a.base <= |es| && a.ev.payload.prev == Link(es, a.base)
    ensures Linked(es + [a.ev], bases + [a.base])
  {
    var es', bases' := es + [a.ev], bases + [a.base];
    forall i | 0 <= i < |es'|
      ensures bases'[i] <= i && es'[i].payload.prev == Link(es', bases'[i])
    {
      if i < |es| {
        assert bases'[i] == bases[i] && es'[i] == es[i];
        LinkStable(es, a.ev, bases[i]);
      } else {
        LinkStable(es, a.ev, a.base);
      }
    }
  }

  lemma LinkStable(es: seq<Event>, ev: Event, b: nat)
    requires b <= |es|
    ensures Link(es + [ev], b) == Link(es, b)
  {
  }

  lemma StartingCommit(es: seq<Event>, fs: seq<InFlight>, ev: Event)
    requires Starting(es, fs)
    ensures Starting(es + [ev], fs)
  {
  }

  lemma UniqueIdsNext(s: System, step: Step)
    requires Enabled(s, step) && UniqueIds(s)
    ensures UniqueIds(Next(s, step))
  {
  }

  lemma IndexedNext(s: System, step: Step)
    requires Enabled(s, step) && UniqueIds(s) && Indexed(s) && Chained(s)
    ensures Indexed(Next(s, step))
  {
    if step.Commit? {
      var ev := s.appending[step.k].ev;
      forall i | 0 <= i < |s.log.events|
        ensures s.log.events[i].payload.id != ev.payload.id && s.log.events[i].hash != ev.hash
      {
      }
    }
  }

  lemma CutNext(s: System, step: Step)
    requires Enabled(s, step) && Cut(s)
    ensures Cut(Next(s, step))
  {
    var s' := Next(s, step);
    if step.Commit? {
      var ev := s.appending[step.k].ev;
      assert Hashes(s'.log.events) == Hashes(s.log.events) + [ev.hash];
    } else if step.Take? {
      assert |s.log.pending| > 0;
      assert Hashes(s'.log.events)[|s.log.events|..] == [];
    }
  }

  /** The history of `s` is part of that of `s'`, and events keep what they were told. */
  ghost predicate Extends(s: System, s': System) {
    && s.log.events <= s'.log.events && s.cuts <= s'.cuts && s.batchIds <= s'.batchIds
    && forall i, t :: 0 <= i < |s.log.events| && 0 <= t < |s.batchIds| && Told(s, i, t) ==> Told(s', i, t)
  }

  lemma TakenStable(s: System, s': System, t: nat)
    requires Extends(s, s') && ValidTurn(s, t)
    ensures ValidTurn(s', t) && Taken(s', t) == Taken(s, t) && s'.batchIds[t] == s.batchIds[t]
    ensures s'.cuts[t] == s.cuts[t] && s'.cuts[t + 1] == s.cuts[t + 1]
  {
  }

  lemma FlushesStable(s: System, s': System, fs: seq<Flush>)
    requires Extends(s, s') && FlushesOk(s, fs)
    ensures FlushesOk(s', fs)
  {
  }

  lemma BatchesStable(s: System, s': System, bs: seq<Batch>, turns: seq<nat>)
    requires Extends(s, s') && BatchesOk(s, bs, turns)
    ensures BatchesOk(s', bs, turns)
  {
    forall k | 0 <= k < |turns| ensures BatchOk(s', bs[k], turns[k]) {
      TakenStable(s, s', turns[k]);
    }
  }

  lemma WithinUnique(s: System, i: nat, t: nat, u: nat)
    requires Cut(s) && Within(s, i, t) && Within(s, i, u)
    ensures t == u
  {
  }

  lemma ToldWithinStable(s: System, s': System)
    requires Extends(s, s') && ToldWithin(s)
    requires forall i :: 0 <= i < |s'.log.events| && s'.log.events[i].payload.id in s'.log.batchOf ==>
               i < |s.log.events| && s.log.events[i].payload.id in s.log.batchOf
    ensures ToldWithin(s')
  {
  }

  /** Only committed events are told anything. */
  ghost predicate ToldCommitted(s: System) {
    forall id :: id in s.log.batchOf ==> exists i :: 0 <= i < |s.log.events| && s.log.events[i].payload.id == id
  }

  lemma BatchedTake(s: System, batchId: string)
    requires Inv(s) && Enabled(s, Take(batchId))
    ensures Batched(Next(s, Take(batchId)))
  {
    var s', n := Next(s, Take(batchId)), |s.batchIds|;
    CutNext(s, Take(batchId));
    assert Extends(s, s');
    FlushesStable(s, s', s.flushing);
    BatchesStable(s, s', s.log.batches, s.turns);
    ToldWithinStable(s, s');
    assert s'.cuts[n] == s.cuts[n] && s'.cuts[n + 1] == |s.log.events|;
    assert Taken(s', n) == s.log.pending;
  }

  lemma MarkExtends(s: System, k: nat)
    requires Enabled(s, Mark(k)) && FlushOk(s, s.flushing[k])
    requires Indexed(s) && Cut(s) && ToldWithin(s) && IdsDiffer(s.log.events)
    ensures var s', f := Next(s, Mark(k)), s.flushing[k];
            && Extends(s, s')
            && Within(s, s.cuts[f.turn] + f.marked, f.turn)
            && Told(s', s.cuts[f.turn] + f.marked, f.turn)
            && s'.log.batchOf == s.log.batchOf[s.log.events[s.cuts[f.turn] + f.marked].payload.id := f.batchId]
  {
    var f := s.flushing[k];
    MarkTells(s, f);
    MarkKeepsTold(s, Next(s, Mark(k)), s.cuts[f.turn] + f.marked, f.turn);
  }

  lemma MarkTells(s: System, f: Flush)
    requires Indexed(s) && FlushOk(s, f) && f.marked < |f.hashes|
    ensures var j := s.cuts[f.turn] + f.marked;
            && Within(s, j, f.turn) && j < |s.log.events| && f.batchId == s.batchIds[f.turn]
            && Marked(s.log, f.hashes[f.marked], f.batchId).batchOf
               == s.log.batchOf[s.log.events[j].payload.id := f.batchId]
  {
    TakenAt(s, f.turn, f.marked);
    MarkedIs(s, s.cuts[f.turn] + f.marked, f.batchId);
  }

  /** Event `j` is told of its own batch. */
  lemma MarkKeepsTold(s: System, s': System, j: nat, turn: nat)
    requires Cut(s) && ToldWithin(s) && IdsDiffer(s.log.events) && Within(s, j, turn)
    requires s'.log.events == s.log.events && s'.batchIds == s.batchIds && s'.cuts == s.cuts
    requires s'.log.batchOf == s.log.batchOf[s.log.events[j].payload.id := s.batchIds[turn]]
    ensures Extends(s, s') && Told(s', j, turn)
  {
    forall i, t | 0 <= i < |s.log.events| && 0 <= t < |s.batchIds| && Told(s, i, t)
      ensures Told(s', i, t)
    {
      ToldStays(s, s', j, turn, i, t);
    }
  }

  lemma MarkedIs(s: System, j: nat, batchId: string)
    requires Indexed(s) && j < |s.log.events|
    ensures Marked(s.log, s.log.events[j].hash, batchId).batchOf
         == s.log.batchOf[s.log.events[j].payload.id := batchId]
  {
  }

  /** That changes nothing that was told before. */
  lemma ToldStays(s: System, s': System, j: nat, turn: nat, i: nat, t: nat)
    requires Cut(s) && ToldWithin(s) && IdsDiffer(s.log.events) && Within(s, j, turn)
    requires s'.log.events == s.log.events && s'.batchIds == s.batchIds
    requires s'.log.batchOf == s.log.batchOf[s.log.events[j].payload.id := s.batchIds[turn]]
    requires i < |s.log.events| && t < |s.batchIds| && Told(s, i, t)
    ensures Told(s', i, t)
  {
    if i == j {
      var u :| Within(s, i, u) && Told(s, i, u);
      WithinUnique(s, i, u, turn);
    }
  }

  lemma BatchedMark(s: System, k: nat, j: nat)
    requires Enabled(s, Mark(k)) && Batched(s) && Extends(s, Next(s, Mark(k)))
    requires j == s.cuts[s.flushing[k].turn] + s.flushing[k].marked
    requires Within(s, j, s.flushing[k].turn) && Told(Next(s, Mark(k)), j, s.flushing[k].turn)
    requires Next(s, Mark(k)).log.batchOf == s.log.batchOf[s.log.events[j].payload.id := s.flushing[k].batchId]
    requires forall i :: 0 <= i < |s.log.events| && s.log.events[i].payload.id == s.log.events[j].payload.id ==> i == j
    ensures Batched(Next(s, Mark(k)))
  {
    var s', f := Next(s, Mark(k)), s.flushing[k];
    FlushesStable(s, s', s.flushing);
    BatchesStable(s, s', s.log.batches, s.turns);
    FlushMarked(s', f);
    TellOne(s, s', j, f.turn);
  }

  lemma FlushMarked(s: System, f: Flush)
    requires FlushOk(s, f) && f.marked < |f.hashes| && Told(s, s.cuts[f.turn] + f.marked, f.turn)
    ensures FlushOk(s, f.(marked := f.marked + 1))
  {
  }

  lemma TellOne(s: System, s': System, j: nat, turn: nat)
    requires ToldWithin(s) && Extends(s, s') && s'.log.events == s.log.events
    requires Within(s, j, turn) && Told(s', j, turn)
    requires forall id :: id in s'.log.batchOf ==> id in s.log.batchOf || id == s.log.events[j].payload.id
    requires forall i :: 0 <= i < |s.log.events| && s.log.events[i].payload.id == s.log.events[j].payload.id ==> i == j
    ensures ToldWithin(s')
  {
  }

  lemma BatchedPublish(s: System, k: nat)
    requires Batched(s) && Enabled(s, Publish(k))
    ensures Batched(Next(s, Publish(k)))
  {
    var s', f := Next(s, Publish(k)), s.flushing[k];
    assert Extends(s, s');
    FlushesStable(s, s', s.flushing);
    BatchesStable(s, s', s.log.batches, s.turns);
    ToldWithinStable(s, s');
    assert FlushOk(s', f);
    assert BatchOk(s', NewBatch(s.log, f.batchId, f.hashes), f.turn);
  }

  lemma ToldCommittedNext(s: System, step: Step)
    requires Inv(s) && ToldCommitted(s) && Enabled(s, step)
    ensures ToldCommitted(Next(s, step))
  {
    var s' := Next(s, step);
    assert s.log.events <= s'.log.events;
    if step.Mark? {
      assert FlushOk(s, s.flushing[step.k]);
      MarkExtends(s, step.k);
    }
    forall id | id in s'.log.batchOf
      ensures exists i :: 0 <= i < |s'.log.events| && s'.log.events[i].payload.id == id
    {
      if id in s.log.batchOf {
        var i :| 0 <= i < |s.log.events| && s.log.events[i].payload.id == id;
        assert s'.log.events[i].payload.id == id;
      }
    }
  }

  lemma FreshUntold(s: System, k: nat)
    requires UniqueIds(s) && ToldCommitted(s) && k < |s.appending|
    ensures s.appending[k].ev.payload.id !in s.log.batchOf
  {
  }

  lemma IdIsPosition(s: System, j: nat)
    requires UniqueIds(s) && j < |s.log.events|
    ensures forall i :: 0 <= i < |s.log.events| && s.log.events[i].payload.id == s.log.events[j].payload.id ==> i == j
  {
  }

  lemma BatchedNext(s: System, step: Step)
    requires Inv(s) && ToldCommitted(s) && Enabled(s, step)
    ensures Batched(Next(s, step))
  {
    if step.Take? {
      BatchedTake(s, step.batchId);
    } else if step.Mark? {
      var j := s.cuts[s.flushing[step.k].turn] + s.flushing[step.k].marked;
      assert FlushOk(s, s.flushing[step.k]);
      MarkExtends(s, step.k);
      IdIsPosition(s, j);
      BatchedMark(s, step.k, j);
    } else if step.Publish? {
      BatchedPublish(s, step.k);
    } else if step.Commit? {
      FreshUntold(s, step.k);
      BatchedCommit(s, step.k);
    } else {
      BatchedStart(s, step);
    }
  }

  lemma BatchedStart(s: System, step: Step)
    requires Batched(s) && Enabled(s, step)
    requires step.Begin? || step.Abort?
    ensures Batched(Next(s, step))
  {
    var s' := Next(s, step);
    FlushesStable(s, s', s.flushing);
    BatchesStable(s, s', s.log.batches, s.turns);
    ToldWithinStable(s, s');
  }

  lemma BatchedCommit(s: System, k: nat)
    requires Batched(s) && Enabled(s, Commit(k))
    requires s.appending[k].ev.payload.id !in s.log.batchOf
    ensures Batched(Next(s, Commit(k)))
  {
    var s' := Next(s, Commit(k));
    assert Extends(s, s');
    FlushesStable(s, s', s.flushing);
    BatchesStable(s, s', s.log.batches, s.turns);
    ToldWithinStable(s, s');
  }

  lemma RecordedTake(s: System, batchId: string)
    requires Cut(s) && Recorded(s) && Enabled(s, Take(batchId))
    ensures Recorded(Next(s, Take(batchId)))
  {
    var s', n := Next(s, Take(batchId)), |s.batchIds|;
    CutNext(s, Take(batchId));
    forall t | 0 <= t < |s'.taken| ensures ValidTurn(s', t) && s'.taken[t] == Taken(s', t) {
      if t < n {
        assert s'.cuts[t] == s.cuts[t] && s'.cuts[t + 1] == s.cuts[t + 1];
      } else {
        assert s'.cuts[n] == s.cuts[n] && s'.cuts[n + 1] == |s.log.events|;
      }
    }
  }

  lemma RecordedNext(s: System, step: Step)
    requires Cut(s) && Recorded(s) && Enabled(s, step)
    ensures Recorded(Next(s, step))
  {
    if step.Take? {
      RecordedTake(s, step.batchId);
    } else if step.Commit? {
      var s' := Next(s, step);
      assert Hashes(s'.log.events) == Hashes(s.log.events) + [s.appending[step.k].ev.hash];
      assert forall t :: 0 <= t < |s.taken| ==> ValidTurn(s, t);
    } else {
      assert Hashes(Next(s, step).log.events) == Hashes(s.log.events);
    }
  }

  ghost predicate Bounded(s: System) {
    && (forall k :: 0 <= k < |s.flushing| ==> s.flushing[k].turn < |s.batchIds|)
    && (forall k :: 0 <= k < |s.turns| ==> s.turns[k] < |s.batchIds|)
  }

  lemma AccountedTake(s: System, batchId: string)
    requires Accounted(s) && Bounded(s) && Enabled(s, Take(batchId))
    ensures Accounted(Next(s, Take(batchId)))
  {
    var s', n := Next(s, Take(batchId)), |s.batchIds|;
    assert s'.flushing[|s.flushing|].turn == n;
    forall t | 0 <= t < |s'.batchIds| ensures UnderWay(s', t) || Published(s', t) {
      if t < n && UnderWay(s, t) {
        var k :| 0 <= k < |s.flushing| && s.flushing[k].turn == t;
        assert s'.flushing[k] == s.flushing[k];
      } else if t < n {
        assert Published(s, t);
      }
    }
  }

  lemma AccountedPublish(s: System, k: nat)
    requires Accounted(s) && Enabled(s, Publish(k))
    ensures Accounted(Next(s, Publish(k)))
  {
    var s', f := Next(s, Publish(k)), s.flushing[k];
    TurnsDifferPublish(s.flushing, s.turns, k);
    assert s'.turns[|s.turns|] == f.turn;
    forall t | 0 <= t < |s.batchIds| ensures UnderWay(s', t) || Published(s', t) {
      if UnderWay(s, t) {
        var i :| 0 <= i < |s.flushing| && s.flushing[i].turn == t;
        assert i < k ==> s'.flushing[i] == s.flushing[i];
        assert i > k ==> s'.flushing[i - 1] == s.flushing[i];
      } else {
        var i :| 0 <= i < |s.turns| && s.turns[i] == t;
        assert s'.turns[i] == t;
      }
    }
  }

  lemma TurnsDifferPublish(fs: seq<Flush>, turns: seq<nat>, k: nat)
    requires k < |fs| && TurnsDiffer(fs, turns)
    ensures TurnsDiffer(Remove(fs, k), turns + [fs[k].turn])
  {
    var fs' := Remove(fs, k);
    assert forall i :: 0 <= i < |fs'| ==> fs'[i] == fs[if i < k then i else i + 1];
  }

  lemma AccountedMark(s: System, k: nat)
    requires Accounted(s) && Enabled(s, Mark(k))
    ensures Accounted(Next(s, Mark(k)))
  {
    var s' := Next(s, Mark(k));
    assert forall i :: 0 <= i < |s.flushing| ==> s'.flushing[i].turn == s.flushing[i].turn;
    forall t | 0 <= t < |s.batchIds| ensures UnderWay(s', t) || Published(s', t) {
      if UnderWay(s, t) {
        var i :| 0 <= i < |s.flushing| && s.flushing[i].turn == t;
        assert s'.flushing[i].turn == t;
      } else {
        assert Published(s, t);
      }
    }
  }

  lemma AccountedNext(s: System, step: Step)
    requires Accounted(s) && Bounded(s) && Enabled(s, step)
    ensures Accounted(Next(s, step))
  {
    match step
    case Take(batchId) => AccountedTake(s, batchId);
    case Publish(k) => AccountedPublish(s, k);
    case Mark(k) => AccountedMark(s, k);
    case _ =>
      var s' := Next(s, step);
      assert s'.flushing == s.flushing && s'.turns == s.turns && s'.batchIds == s.batchIds;
      forall t | 0 <= t < |s.batchIds| ensures UnderWay(s', t) || Published(s', t) {
        assert UnderWay(s, t) || Published(s, t);
      }
  }

  lemma BatchedIsBounded(s: System)
    requires Batched(s)
    ensures Bounded(s)
  {
    forall k | 0 <= k < |s.flushing| ensures s.flushing[k].turn < |s.batchIds| {
      assert FlushOk(s, s.flushing[k]);
    }
    forall k | 0 <= k < |s.turns| ensures s.turns[k] < |s.batchIds| {
      assert BatchOk(s, s.log.batches[k], s.turns[k]);
    }
  }

  /** In every run, each turn is recorded, and leads to one batch. */
  lemma {:induction false} RunAccounts(steps: seq<Step>)
    ensures Recorded(Run(steps)) && Accounted(Run(steps))
    decreases |steps|
  {
    if steps != [] {
      var s, step := Run(steps[..|steps| - 1]), steps[|steps| - 1];
      RunAccounts(steps[..|steps| - 1]);
      RunKeeps(steps[..|steps| - 1]);
      if Enabled(s, step) {
        BatchedIsBounded(s);
        RecordedNext(s, step);
        AccountedNext(s, step);
      }
    }
  }

  lemma {:induction false} RunKeeps(steps: seq<Step>)
    ensures Inv(Run(steps)) && ToldCommitted(Run(steps))
    decreases |steps|
  {
    if steps != [] {
      var s, step := Run(steps[..|steps| - 1]), steps[|steps| - 1];
      RunKeeps(steps[..|steps| - 1]);
      if Enabled(s, step) {
        ChainedNext(s, step);
        UniqueIdsNext(s, step);
        IndexedNext(s, step);
        CutNext(s, step);
        BatchedNext(s, step);
        ToldCommittedNext(s, step);
      }
    }
  }

  // ----- The theorems -----

  /** Each committed event links to nothing or to an event committed before it, its hash
      recomputes, and the link is to the very event before it exactly when no other
      event was committed between its two critical sections. */
  lemma ChainTheorem(steps: seq<Step>, i: nat)
    requires i < |Run(steps).log.events|
    ensures var s := Run(steps);
            var es := s.log.events;
            && Sound(es[i])
            && (es[i].payload.prev == None || exists j :: 0 <= j < i && es[i].payload.prev == Some(es[j].hash))
            && |s.bases| == |es| && s.bases[i] <= i
            && (es[i].payload.prev == Link(es, i) <==> s.bases[i] == i)
  {
    RunKeeps(steps);
    var s := Run(steps);
    var es, b := s.log.events, s.bases[i];
    assert es[i].payload.prev == Link(es, b);
    if 0 < b < i {
      HashesDiffer(es, b - 1, i - 1);
    }
  }

  lemma HashesDiffer(es: seq<Event>, i: nat, j: nat)
    requires AllSound(es) && IdsDiffer(es) && i < j < |es|
    ensures es[i].hash != es[j].hash
  {
    assert Sound(es[i]) && Sound(es[j]);
  }

  lemma SameHash(es: seq<Event>, i: nat, j: nat)
    requires AllSound(es) && IdsDiffer(es) && i < |es| && j < |es| && es[i].hash == es[j].hash
    ensures i == j
  {
    assert Sound(es[i]) && Sound(es[j]);
  }

  function Flatten(parts: seq<seq<Hash>>): seq<Hash> {
    if parts == [] then [] else Flatten(parts[..|parts| - 1]) + parts[|parts| - 1]
  }

  lemma {:induction false} FlattenTaken(s: System, n: nat)
    requires Cut(s) && Recorded(s) && n <= |s.taken|
    ensures Flatten(s.taken[..n]) == Hashes(s.log.events)[..s.cuts[n]]
  {
    if n > 0 {
      FlattenTaken(s, n - 1);
      assert s.taken[..n][..n - 1] == s.taken[..n - 1];
      assert ValidTurn(s, n - 1) && s.taken[n - 1] == Taken(s, n - 1);
      SliceOn(Hashes(s.log.events), s.cuts[n - 1], s.cuts[n]);
    }
  }

  lemma SliceOn<T>(s: seq<T>, i: nat, j: nat)
    requires i <= j <= |s|
    ensures s[..i] + s[i..j] == s[..j]
  {
  }

  /** A flush under way, or a published batch, with what was taken at turn `t`. */
  ghost predicate FlushingTurn(s: System, t: nat)
    requires t < |s.taken| == |s.batchIds|
  {
    exists k :: 0 <= k < |s.flushing| && s.flushing[k].turn == t
                && s.flushing[k].hashes == s.taken[t] && s.flushing[k].batchId == s.batchIds[t]
  }

  ghost predicate PublishedTurn(s: System, t: nat)
    requires t < |s.taken| == |s.batchIds| && |s.turns| == |s.log.batches|
  {
    exists k :: 0 <= k < |s.turns| && s.turns[k] == t
                && s.log.batches[k].hashes == s.taken[t] && s.log.batches[k].id == s.batchIds[t]
  }

  /** No hash is lost, repeated or reordered: what was taken, turn by turn, and then the
      pending hashes are the hashes of the committed events in order; and each turn is
      either with exactly one flush under way, which holds what was taken then, or with
      exactly one published batch, which consists of it. */
  lemma BatchTheorem(steps: seq<Step>)
    ensures var s := Run(steps);
            && Flatten(s.taken) + s.log.pending == Hashes(s.log.events)
            && |s.taken| == |s.batchIds| && |s.turns| == |s.log.batches|
            && (forall t :: 0 <= t < |s.taken| ==> FlushingTurn(s, t) != PublishedTurn(s, t))
            && Accounted(s) && Bounded(s)
  {
    RunKeeps(steps);
    RunAccounts(steps);
    var s := Run(steps);
    BatchedIsBounded(s);
    NothingIsLost(s);
    TurnsArePlaced(s);
  }

  lemma NothingIsLost(s: System)
    requires Cut(s) && Recorded(s)
    ensures Flatten(s.taken) + s.log.pending == Hashes(s.log.events)
  {
    FlattenTaken(s, |s.taken|);
    assert s.taken[..|s.taken|] == s.taken;
    SliceOn(Hashes(s.log.events), s.cuts[|s.taken|], |s.log.events|);
  }

  lemma TurnsArePlaced(s: System)
    requires Batched(s) && Recorded(s) && Accounted(s)
    ensures |s.taken| == |s.batchIds| && |s.turns| == |s.log.batches|
    ensures forall t :: 0 <= t < |s.taken| ==> FlushingTurn(s, t) != PublishedTurn(s, t)
  {
    forall t | 0 <= t < |s.taken| ensures FlushingTurn(s, t) != PublishedTurn(s, t) {
      TurnIsPlaced(s, t);
    }
  }

  lemma TurnIsPlaced(s: System, t: nat)
    requires Batched(s) && Recorded(s) && Accounted(s) && t < |s.taken| == |s.batchIds|
    requires |s.turns| == |s.log.batches|
    ensures FlushingTurn(s, t) != PublishedTurn(s, t)
  {
    assert ValidTurn(s, t) && s.taken[t] == Taken(s, t);
    if UnderWay(s, t) {
      var k :| 0 <= k < |s.flushing| && s.flushing[k].turn == t;
      assert FlushOk(s, s.flushing[k]);
    } else {
      assert Published(s, t);
      var k :| 0 <= k < |s.turns| && s.turns[k] == t;
      assert BatchOk(s, s.log.batches[k], t);
    }
  }

  lemma {:induction false} BatchUnknown(batches: seq<Batch>, id: string)
    ensures BatchNamed(batches, id).None? ==> forall k :: 0 <= k < |batches| ==> batches[k].id != id
    ensures BatchNamed(batches, id).Some? ==> BatchNamed(batches, id).value in batches
    ensures BatchNamed(batches, id).Some? ==> BatchNamed(batches, id).value.id == id
  {
    if batches != [] && batches[0].id != id {
      BatchUnknown(batches[1..], id);
      assert forall k :: 1 <= k < |batches| ==> batches[k] == batches[1..][k - 1];
    }
  }

  /** Whatever happens in between, verifying a committed event finds its hash valid; finds
      it batched exactly when a batch with its hash is published; and then finds it
      included exactly when its place in that batch is never duplicated by padding. */
  lemma VerifyTheorem(steps: seq<Step>, i: nat)
    requires i < |Run(steps).log.events|
    ensures var s := Run(steps);
            var ev := s.log.events[i];
            var v := VerdictOn(s.log, ev.payload.id);
            && v.Some? && v.value.hashValid
            && (v.value.batched <==> exists k :: 0 <= k < |s.log.batches| && ev.hash in s.log.batches[k].hashes)
            && (!v.value.batched ==> !v.value.included)
            && forall k, q :: 0 <= k < |s.log.batches| && 0 <= q < |s.log.batches[k].hashes|
                              && s.log.batches[k].hashes[q] == ev.hash ==>
                 (v.value.included <==> NeverDuplicated(|s.log.batches[k].hashes|, q))
  {
    RunKeeps(steps);
    var s := Run(steps);
    var ev := s.log.events[i];
    var v := VerdictOn(s.log, ev.payload.id);
    assert Sound(ev);
    forall k, q | 0 <= k < |s.log.batches| && 0 <= q < |s.log.batches[k].hashes|
                    && s.log.batches[k].hashes[q] == ev.hash
      ensures v.value.batched && (v.value.included <==> NeverDuplicated(|s.log.batches[k].hashes|, q))
    {
      PublishedVerdict(s, i, k, q);
    }
    if v.value.batched {
      NamedBatchHolds(s, i);
    }
  }

  lemma TakenAt(s: System, t: nat, q: nat)
    requires ValidTurn(s, t) && q < |Taken(s, t)|
    ensures s.cuts[t] + q < |s.log.events| && Taken(s, t)[q] == s.log.events[s.cuts[t] + q].hash
  {
  }

  lemma PublishedVerdict(s: System, i: nat, k: nat, q: nat)
    requires Inv(s) && i < |s.log.events| && k < |s.log.batches|
    requires q < |s.log.batches[k].hashes| && s.log.batches[k].hashes[q] == s.log.events[i].hash
    ensures var ev := s.log.events[i];
            VerdictOn(s.log, ev.payload.id) == Some(Verdict(true, true, NeverDuplicated(|s.log.batches[k].hashes|, q)))
  {
    var b, ev := s.log.batches[k], s.log.events[i];
    PublishedName(s, i, k, q);
    SameNameSameBatch(s, k);
    assert BatchOk(s, b, s.turns[k]);
    TakenDistinct(s, s.turns[k]);
    BuiltPathVerdict(b.hashes, false, q);
    assert Sound(ev);
  }

  lemma PublishedName(s: System, i: nat, k: nat, q: nat)
    requires AllSound(s.log.events) && IdsDiffer(s.log.events) && BatchesOk(s, s.log.batches, s.turns)
    requires i < |s.log.events| && k < |s.log.batches|
    requires q < |s.log.batches[k].hashes| && s.log.batches[k].hashes[q] == s.log.events[i].hash
    ensures var id := s.log.events[i].payload.id;
            id in s.log.batchOf && s.log.batchOf[id] == s.log.batches[k].id
  {
    var t := s.turns[k];
    assert BatchOk(s, s.log.batches[k], t);
    TakenAt(s, t, q);
    SameHash(s.log.events, i, s.cuts[t] + q);
    assert Told(s, i, t);
  }

  lemma TakenDistinct(s: System, t: nat)
    requires AllSound(s.log.events) && IdsDiffer(s.log.events) && ValidTurn(s, t)
    ensures forall q :: 0 <= q < |Taken(s, t)| ==> Taken(s, t)[q].Digest?
    ensures forall q, r :: 0 <= q < r < |Taken(s, t)| ==> Taken(s, t)[q] != Taken(s, t)[r]
  {
  }

  /** The batch found under the name of a published batch has its contents. */
  lemma SameNameSameBatch(s: System, k: nat)
    requires Cut(s) && BatchesOk(s, s.log.batches, s.turns) && k < |s.log.batches|
    ensures var b := s.log.batches[k];
            var found := BatchNamed(s.log.batches, b.id);
            found.Some? && found.value.hashes == b.hashes && found.value.root == b.root && found.value.paths == b.paths
  {
    var b := s.log.batches[k];
    assert BatchOk(s, b, s.turns[k]);
    BatchUnknown(s.log.batches, b.id);
    var found := BatchNamed(s.log.batches, b.id).value;
    var l :| 0 <= l < |s.log.batches| && s.log.batches[l] == found;
    assert BatchOk(s, found, s.turns[l]);
    assert s.turns[l] == s.turns[k];
  }

  lemma NamedBatchHolds(s: System, i: nat)
    requires Cut(s) && Batched(s) && i < |s.log.events|
    requires s.log.events[i].payload.id in s.log.batchOf
    requires BatchNamed(s.log.batches, s.log.batchOf[s.log.events[i].payload.id]).Some?
    ensures exists k :: 0 <= k < |s.log.batches| && s.log.events[i].hash in s.log.batches[k].hashes
  {
    var name := s.log.batchOf[s.log.events[i].payload.id];
    BatchUnknown(s.log.batches, name);
    var found := BatchNamed(s.log.batches, name).value;
    var k :| 0 <= k < |s.log.batches| && s.log.batches[k] == found;
    var t :| Within(s, i, t) && Told(s, i, t);
    assert BatchOk(s, found, s.turns[k]);
    SameTurn(s, t, s.turns[k]);
    BatchHolds(s, i, t, found);
  }

  lemma SameTurn(s: System, t: nat, u: nat)
    requires Cut(s) && t < |s.batchIds| && u < |s.batchIds| && s.batchIds[t] == s.batchIds[u]
    ensures t == u
  {
  }

  lemma BatchHolds(s: System, i: nat, t: nat, b: Batch)
    requires Within(s, i, t) && BatchOk(s, b, t)
    ensures s.log.events[i].hash in b.hashes
  {
    TakenAt(s, t, i - s.cuts[t]);
    assert b.hashes[i - s.cuts[t]] == s.log.events[i].hash;
  }
}
