/** The scheduler's bookkeeping over values: filling slots from the queue front, pruning the
    resolved uploads, and the invariant that ties in-flight entries to recorded parts. */
module Scheduler {
  import opened Stream
  import opened Parts

  /** The in-flight entries whose part number is not in `resolved`, in their order
      (`uploads.filter(upload => !upload.isResolved())`). */
  function Prune(us: seq<Chunk>, resolved: set<nat>): (r: seq<Chunk>)
    ensures |r| <= |us|
  {
    if us == [] then []
    else if us[0].index in resolved then Prune(us[1..], resolved)
    else [us[0]] + Prune(us[1..], resolved)
  }

  /** The in-flight entries whose part number is in `resolved`, in their order. */
  function Finished(us: seq<Chunk>, resolved: set<nat>): seq<Chunk>
  {
    if us == [] then []
    else if us[0].index in resolved then [us[0]] + Finished(us[1..], resolved)
    else Finished(us[1..], resolved)
  }

  /** How many chunks one tick moves from the queue front into the in-flight list: none when
      every slot is taken or the queue is empty, else as many as fit. */
  function FillCount(inFlight: nat, queued: nat, concurrency: nat): (k: nat)
    ensures k <= queued
    ensures inFlight <= concurrency ==> inFlight + k <= concurrency
    ensures inFlight < concurrency && queued > 0 ==> k > 0
    ensures inFlight >= concurrency ==> k == 0
    ensures k < queued && inFlight <= concurrency ==> inFlight + k == concurrency
  {
    if inFlight < concurrency && queued > 0 then
      if concurrency - inFlight <= queued then concurrency - inFlight else queued
    else 0
  }

  /** The fill step of one tick: when a slot is free and the queue is not empty, chunks move
      from the queue front to the in-flight list, at most `concurrency - |uploads|` of them. */
  method Fill(queue: seq<Chunk>, uploads: seq<Chunk>, concurrency: nat) returns (queue': seq<Chunk>, uploads': seq<Chunk>)
    ensures var k := FillCount(|uploads|, |queue|, concurrency);
            queue' == queue[k..] && uploads' == uploads + queue[..k]
    ensures |queue'| + |uploads'| == |queue| + |uploads|
  {
    queue', uploads' := queue, uploads;
    if |uploads'| < concurrency && |queue'| > 0 {
      var itemsToUpload := concurrency - |uploads'|;
      var i := 0;
      while i < itemsToUpload && |queue'| > 0
        invariant i <= itemsToUpload && i <= |queue|
        invariant queue' == queue[i..]
        invariant uploads' == uploads + queue[..i]
        decreases |queue'|
      {
        assert queue[..i + 1] == queue[..i] + [queue'[0]];
        uploads' := uploads' + [queue'[0]];
        queue' := queue'[1..];
        i := i + 1;
      }
    }
  }

  /** Every dispatched chunk is either still in flight or has its part recorded, and the
      in-flight list holds at most `concurrency` entries. */
  ghost predicate Inv(concurrency: nat, hash: seq<byte> -> Digest, dispatched: seq<Chunk>,
                      uploads: seq<Chunk>, parts: seq<Part>)
  {
    && concurrency > 0
    && |uploads| <= concurrency
    && |uploads| <= |dispatched|
    && multiset(parts) + multiset(PartsOf(uploads, hash)) == multiset(PartsOf(dispatched, hash))
  }

  /** Pruning keeps exactly the entries that are not resolved. */
  lemma {:induction false} PruneMembers(us: seq<Chunk>, resolved: set<nat>)
    ensures forall c :: c in Prune(us, resolved) <==> c in us && c.index !in resolved
  {
    if us != [] {
      PruneMembers(us[1..], resolved);
      assert us == [us[0]] + us[1..];
    }
  }

  /** Every in-flight entry's part number is among the resolved ones. */
  ghost predicate AllResolved(us: seq<Chunk>, resolved: set<nat>)
  {
    forall i :: 0 <= i < |us| ==> us[i].index in resolved
  }

  /** When every in-flight entry is resolved, pruning leaves nothing in flight. */
  lemma {:induction false} PruneAllResolved(us: seq<Chunk>, resolved: set<nat>)
    requires AllResolved(us, resolved)
    ensures Prune(us, resolved) == []
  {
    if us != [] {
      PruneAllResolved(us[1..], resolved);
    }
  }

  /** A pass that finds nothing queued and every in-flight upload resolved leaves nothing in
      flight. */
  lemma DrainedPass(uploads: seq<Chunk>, queue: seq<Chunk>, concurrency: nat, resolved: set<nat>)
    requires queue == [] && AllResolved(uploads, resolved)
    ensures Prune(uploads + queue[..FillCount(|uploads|, |queue|, concurrency)], resolved) == []
  {
    assert uploads + queue[..FillCount(|uploads|, |queue|, concurrency)] == uploads;
    PruneAllResolved(uploads, resolved);
  }

  /** Pruning commutes with concatenation: the survivors keep their relative order. */
  lemma {:induction false} PruneAppend(a: seq<Chunk>, b: seq<Chunk>, resolved: set<nat>)
    ensures Prune(a + b, resolved) == Prune(a, resolved) + Prune(b, resolved)
  {
    if a == [] {
      assert a + b == b;
    } else {
      assert (a + b)[1..] == a[1..] + b;
      PruneAppend(a[1..], b, resolved);
    }
  }

  /** Every in-flight entry is either kept or finished, never both and never lost. */
  lemma {:induction false} PruneSplit(us: seq<Chunk>, resolved: set<nat>, hash: seq<byte> -> Digest)
    ensures |Prune(us, resolved)| + |Finished(us, resolved)| == |us|
    ensures multiset(PartsOf(Prune(us, resolved), hash)) + multiset(PartsOf(Finished(us, resolved), hash))
            == multiset(PartsOf(us, hash))
  {
    if us != [] {
      PruneSplit(us[1..], resolved, hash);
    }
  }

  /** Moving chunks from the queue front into flight keeps the order in which they were queued. */
  lemma DispatchKeepsOrder(dispatched: seq<Chunk>, queue: seq<Chunk>, k: nat)
    requires k <= |queue|
    ensures (dispatched + queue[..k]) + queue[k..] == dispatched + queue
  {
    assert queue == queue[..k] + queue[k..];
  }

  /** Init: nothing dispatched, nothing in flight, nothing recorded. */
  lemma InitInv(concurrency: nat, hash: seq<byte> -> Digest)
    requires concurrency > 0
    ensures Inv(concurrency, hash, [], [], [])
  {
  }

  /** The fill step keeps the invariant: the first `FillCount` queued chunks are dispatched
      into flight, and the in-flight list stays within `concurrency`. */
  lemma FillStep(concurrency: nat, hash: seq<byte> -> Digest, dispatched: seq<Chunk>, uploads: seq<Chunk>,
                 parts: seq<Part>, queue: seq<Chunk>)
    requires Inv(concurrency, hash, dispatched, uploads, parts)
    ensures var k := FillCount(|uploads|, |queue|, concurrency);
            Inv(concurrency, hash, dispatched + queue[..k], uploads + queue[..k], parts)
  {
    var k := FillCount(|uploads|, |queue|, concurrency);
    var taken := queue[..k];
    PartsOfAppend(uploads, taken, hash);
    PartsOfAppend(dispatched, taken, hash);
    calc {
      multiset(parts) + multiset(PartsOf(uploads + taken, hash));
      multiset(parts) + multiset(PartsOf(uploads, hash)) + multiset(PartsOf(taken, hash));
      multiset(PartsOf(dispatched, hash)) + multiset(PartsOf(taken, hash));
      multiset(PartsOf(dispatched + taken, hash));
    }
  }

  /** The prune step keeps the invariant: each resolved in-flight entry leaves the list and its
      part is recorded. */
  lemma SettleStep(concurrency: nat, hash: seq<byte> -> Digest, dispatched: seq<Chunk>, uploads: seq<Chunk>,
                   parts: seq<Part>, resolved: set<nat>)
    requires Inv(concurrency, hash, dispatched, uploads, parts)
    ensures Inv(concurrency, hash, dispatched, Prune(uploads, resolved),
                parts + PartsOf(Finished(uploads, resolved), hash))
  {
    PruneSplit(uploads, resolved, hash);
    var kept := PartsOf(Prune(uploads, resolved), hash);
    var done := PartsOf(Finished(uploads, resolved), hash);
    calc {
      multiset(parts + done) + multiset(kept);
      multiset(parts) + (multiset(done) + multiset(kept));
      multiset(parts) + multiset(PartsOf(uploads, hash));
    }
  }
}
