/** The audit logger: its critical sections, and how an event is verified. */
module AuditLog {
  import opened Text
  import opened Merkle

  datatype Event = Event(payload: Payload, hash: Hash)

  datatype Batch = Batch(id: string, root: Hash, eventIds: seq<string>, hashes: seq<Hash>, paths: Paths)

  /** The logger's fields. `batchOf` holds the BatchID of the events that have one. */
  datatype Log = Log(events: seq<Event>, byId: map<string, Event>, byHash: map<Hash, Event>,
                     batchOf: map<string, string>, batches: seq<Batch>,
                     prevHash: Option<Hash>, pending: seq<Hash>)

  datatype Verdict = Verdict(hashValid: bool, batched: bool, included: bool)

  const EMPTY_LOG := Log([], map[], map[], map[], [], None, [])

  function ComputeHash(p: Payload): Hash { Digest(p) }

  /** The event that Append's first critical section makes, from a payload whose `prev`
      it fills in. */
  function NewEvent(log: Log, p: Payload): Event {
    var payload := p.(prev := log.prevHash);
    Event(payload, ComputeHash(payload))
  }

  /** Append's second critical section. */
  function Committed(log: Log, ev: Event): Log {
    log.(events := log.events + [ev], byId := log.byId[ev.payload.id := ev], byHash := log.byHash[ev.hash := ev],
         prevHash := Some(ev.hash), pending := log.pending + [ev.hash])
  }

  /** One turn of FlushBatch's loop that tells the events of their batch. */
  function Marked(log: Log, h: Hash, batchId: string): Log {
    if h in log.byHash then log.(batchOf := log.batchOf[log.byHash[h].payload.id := batchId]) else log
  }

  function IdsOf(log: Log, hashes: seq<Hash>): seq<string> {
    if hashes == [] then []
    else
      var n := |hashes| - 1;
      IdsOf(log, hashes[..n]) + if hashes[n] in log.byHash then [log.byHash[hashes[n]].payload.id] else []
  }

  function BatchNamed(batches: seq<Batch>, id: string): Option<Batch> {
    if batches == [] then None
    else if batches[0].id == id then Some(batches[0])
    else BatchNamed(batches[1..], id)
  }

  function VerdictOn(log: Log, id: string): Option<Verdict> {
    if id !in log.byId then None
    else
      var ev := log.byId[id];
      var okHash := ev.hash == ComputeHash(ev.payload);
      if id !in log.batchOf then Some(Verdict(okHash, false, false))
      else
        match BatchNamed(log.batches, log.batchOf[id])
        case None => Some(Verdict(okHash, false, false))
        case Some(b) => Some(Verdict(okHash, true, Accepts(ev.hash, Get(b.paths, ev.hash), b.root)))
  }

  class Logger {
    var events: seq<Event>
    var byId: map<string, Event>
    var byHash: map<Hash, Event>
    var batchOf: map<string, string>
    var batches: seq<Batch>
    var prevHash: Option<Hash>
    var pending: seq<Hash>

    function View(): Log
      reads this
    {
      Log(events, byId, byHash, batchOf, batches, prevHash, pending)
    }

    constructor ()
      ensures View() == EMPTY_LOG
    {
      events, byId, byHash, batchOf, batches, prevHash, pending := [], map[], map[], map[], [], None, [];
    }

    /** The part of Append under its first lock. Id and time are given. */
    method BeginAppend(p: Payload) returns (ev: Event)
      ensures ev == NewEvent(View(), p)
    {
      var prev := prevHash;
      var payload := Payload(p.id, p.agent, p.method_, p.resource, p.content, prev, p.nanos);
      ev := Event(payload, ComputeHash(payload));
    }

    /** The part of Append under its second lock. */
    method CommitAppend(ev: Event)
      modifies this
      ensures View() == Committed(old(View()), ev)
    {
      events := events + [ev];
      byId := byId[ev.payload.id := ev];
      byHash := byHash[ev.hash := ev];
      prevHash := Some(ev.hash);
      pending := pending + [ev.hash];
    }

    /** The part of FlushBatch under its first lock; nothing pending means nothing to do. */
    method TakePending() returns (hashes: seq<Hash>)
      modifies this
      ensures hashes == old(pending) && View() == old(View()).(pending := [])
    {
      hashes := pending;
      pending := [];
    }

    /** One turn of FlushBatch's loop over the hashes, under a read lock. */
    method MarkEvent(h: Hash, batchId: string) returns (eventId: Option<string>)
      modifies this`batchOf
      ensures View() == Marked(old(View()), h, batchId)
      ensures eventId == if h in byHash then Some(byHash[h].payload.id) else None
    {
      if h in byHash {
        var ev := byHash[h];
        batchOf := batchOf[ev.payload.id := batchId];
        return Some(ev.payload.id);
      }
      return None;
    }

    /** The part of FlushBatch under its last lock. */
    method PublishBatch(b: Batch)
      modifies this`batches
      ensures View() == old(View()).(batches := old(batches) + [b])
    {
      batches := batches + [b];
    }

    method GetBatch(id: string) returns (b: Option<Batch>)
      ensures b == BatchNamed(batches, id)
    {
      for i := 0 to |batches|
        invariant BatchNamed(batches, id) == BatchNamed(batches[i..], id)
      {
        if batches[i].id == id {
          return Some(batches[i]);
        }
        assert batches[i..][1..] == batches[i + 1..];
      }
      return None;
    }

    method VerifyEvent(id: string) returns (v: Option<Verdict>)
      ensures v == VerdictOn(View(), id)
    {
      if id !in byId {
        return None;
      }
      var ev := byId[id];
      var okHash := ev.hash == ComputeHash(ev.payload);
      if id !in batchOf {
        return Some(Verdict(okHash, false, false));
      }
      var batch := GetBatch(batchOf[id]);
      if batch.None? {
        return Some(Verdict(okHash, false, false));
      }
      var included := VerifyMerkle(ev.hash, Get(batch.value.paths, ev.hash), batch.value.root);
      return Some(Verdict(okHash, true, included));
    }

    /** FlushBatch with nothing in between. */
    method FlushBatch(batchId: string) returns (b: Option<Batch>)
      modifies this
      ensures old(pending) == [] ==> b == None && View() == old(View())
      ensures old(pending) != [] ==>
                b == Some(NewBatch(old(View()), batchId, old(pending)))
                && View() == MarkedAll(old(View()).(pending := []), old(pending), batchId)
                           .(batches := old(batches) + [b.value])
    {
      if |pending| == 0 {
        return None;
      }
      var hashes := TakePending();
      ghost var log := View();
      var root, paths := BuildMerkle(hashes);
      var ids := [];
      for i := 0 to |hashes|
        invariant View() == MarkedAll(log, hashes[..i], batchId)
        invariant byHash == log.byHash
        invariant ids == IdsOf(log, hashes[..i])
      {
        assert hashes[..i + 1][..i] == hashes[..i];
        var eventId := MarkEvent(hashes[i], batchId);
        if eventId.Some? {
          ids := ids + [eventId.value];
        }
      }
      assert hashes[..|hashes|] == hashes;
      var batch := Batch(batchId, root, ids, hashes, paths);
      IdsIgnorePending(old(View()), hashes);
      PublishBatch(batch);
      return Some(batch);
    }
  }

  function NewBatch(log: Log, id: string, hashes: seq<Hash>): Batch {
    var (root, paths) := Build(hashes, false);
    Batch(id, root, IdsOf(log, hashes), hashes, paths)
  }

  function MarkedAll(log: Log, hashes: seq<Hash>, batchId: string): (r: Log)
    ensures r == log.(batchOf := r.batchOf)
  {
    if hashes == [] then log
    else Marked(MarkedAll(log, hashes[..|hashes| - 1], batchId), hashes[|hashes| - 1], batchId)
  }

  lemma {:induction false} IdsIgnorePending(log: Log, hashes: seq<Hash>)
    ensures IdsOf(log.(pending := []), hashes) == IdsOf(log, hashes)
  {
    if hashes != [] {
      IdsIgnorePending(log, hashes[..|hashes| - 1]);
    }
  }
}
