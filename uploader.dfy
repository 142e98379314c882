/** The streaming uploader's state: the chunker fed by `data`/`end` events, the backpressure
    flag, the scheduler's per-tick bookkeeping, and the part records collected for finalize. */
module Uploader {
  import opened Stream
  import opened Parts
  import Chunker
  import opened Scheduler

  datatype Option<T> = None | Some(value: T)

  /** The module-level state of the uploader. `hash` stands for the SHA-1 digest. */
  class Pipe {
    const chunk: nat
    const concurrency: nat
    const hash: seq<byte> -> Digest

    var scratchBuffer: seq<Segment>
    var buffersQueue: seq<Chunk>
    var bufferIndex: nat
    var isLargeFile: bool
    var isSmallFile: bool
    var stdinPaused: bool
    var stdinCompleted: bool
    var completed: bool
    var uploads: seq<Chunk>
    var uploadedParts: seq<Part>
    var uploadedBytes: nat
    /** How many times the multipart session was started (`uploadStart()`). */
    var uploadStarts: nat

    /** Every segment received so far, in arrival order. */
    ghost var received: seq<Segment>
    /** The chunks taken off the queue front into the in-flight list, in that order. */
    ghost var dispatched: seq<Chunk>
    /** The single-request payload, once handed out. */
    ghost var emitted: seq<Segment>
    /** Whether the end handler queued a final chunk. */
    ghost var flushed: bool

    /** Every chunk ever queued, in push order. */
    ghost function Produced(): seq<Chunk>
      reads this
    {
      dispatched + buffersQueue
    }

    /** The invariant over a set of field values: the chunker's and the scheduler's invariants,
        plus the flags that tie them together. Stated over values, so that a handler can
        establish it for the values it is about to store. */
    ghost predicate Consistent(scratch: seq<Segment>, queue: seq<Chunk>, index: nat, large: bool, small: bool,
                               paused: bool, ended: bool, done: bool, inFlight: seq<Chunk>, parts: seq<Part>,
                               bytes: nat, starts: nat, recv: seq<Segment>, disp: seq<Chunk>,
                               emit: seq<Segment>, flush: bool)
    {
      && Chunker.Inv(chunk, recv, disp + queue, scratch, emit, index, flush, ended, large, small)
      && Scheduler.Inv(concurrency, hash, disp, inFlight, parts)
      // the multipart session is started once, exactly when multipart mode is entered
      && starts == (if large then 1 else 0)
      // backpressure: while input is open, a full queue means the input is paused
      && (!ended && |queue| >= concurrency ==> paused)
      && (done ==> ended && queue == [] && inFlight == [])
      && bytes == (if small then Size(recv) else UploadedBytes(parts))
    }

    ghost predicate Valid()
      reads this
    {
      Consistent(scratchBuffer, buffersQueue, bufferIndex, isLargeFile, isSmallFile, stdinPaused, stdinCompleted,
                 completed, uploads, uploadedParts, uploadedBytes, uploadStarts, received, dispatched, emitted,
                 flushed)
    }

    /** The condition of the scheduler's `while` loop. */
    predicate Running()
      reads this
    {
      !completed && (|buffersQueue| > 0 || |uploads| > 0 || !stdinCompleted)
    }

    constructor (chunk: nat, concurrency: nat, hash: seq<byte> -> Digest)
      requires chunk > 0 && concurrency > 0
      ensures Valid()
      ensures this.chunk == chunk && this.concurrency == concurrency && this.hash == hash
      ensures scratchBuffer == [] && buffersQueue == [] && bufferIndex == 1
      ensures !isLargeFile && !isSmallFile && !stdinPaused && !stdinCompleted && !completed
      ensures uploads == [] && uploadedParts == [] && uploadedBytes == 0 && uploadStarts == 0
      ensures received == []
    {
      this.chunk := chunk;
      this.concurrency := concurrency;
      this.hash := hash;
      scratchBuffer, buffersQueue, bufferIndex := [], [], 1;
      isLargeFile, isSmallFile := false, false;
      stdinPaused, stdinCompleted, completed := false, false, false;
      uploads, uploadedParts, uploadedBytes, uploadStarts := [], [], 0, 0;
      received, dispatched, emitted, flushed := [], [], [], false;
      new;
      Chunker.InitInv(chunk);
      assert dispatched + buffersQueue == [];
      Scheduler.InitInv(concurrency, hash);
    }

    /** Stores the values a handler computed into the fields, in one step. */
    method Store(scratch: seq<Segment>, queue: seq<Chunk>, index: nat, large: bool, small: bool,
                 paused: bool, ended: bool, done: bool, inFlight: seq<Chunk>, parts: seq<Part>,
                 bytes: nat, starts: nat, ghost recv: seq<Segment>, ghost disp: seq<Chunk>,
                 ghost emit: seq<Segment>, ghost flush: bool)
      modifies this
      ensures scratchBuffer == scratch && buffersQueue == queue && bufferIndex == index
      ensures isLargeFile == large && isSmallFile == small && stdinPaused == paused
      ensures stdinCompleted == ended && completed == done && uploads == inFlight
      ensures uploadedParts == parts && uploadedBytes == bytes && uploadStarts == starts
      ensures received == recv && dispatched == disp && emitted == emit && flushed == flush
    {
      StoreChunker(scratch, queue, index, large, small, recv, emit, flush);
      StoreScheduler(paused, ended, done, inFlight, parts, bytes, starts, disp);
    }

    /** The chunker's half of `Store`. */
    method StoreChunker(scratch: seq<Segment>, queue: seq<Chunk>, index: nat, large: bool, small: bool,
                        ghost recv: seq<Segment>, ghost emit: seq<Segment>, ghost flush: bool)
      modifies this`scratchBuffer, this`buffersQueue, this`bufferIndex, this`isLargeFile, this`isSmallFile,
               this`received, this`emitted, this`flushed
      ensures scratchBuffer == scratch && buffersQueue == queue && bufferIndex == index
      ensures isLargeFile == large && isSmallFile == small
      ensures received == recv && emitted == emit && flushed == flush
    {
      scratchBuffer, buffersQueue, bufferIndex, isLargeFile, isSmallFile := scratch, queue, index, large, small;
      received, emitted, flushed := recv, emit, flush;
    }

    /** The scheduler's half of `Store`. */
    method StoreScheduler(paused: bool, ended: bool, done: bool, inFlight: seq<Chunk>, parts: seq<Part>,
                          bytes: nat, starts: nat, ghost disp: seq<Chunk>)
      modifies this`stdinPaused, this`stdinCompleted, this`completed, this`uploads, this`uploadedParts,
               this`uploadedBytes, this`uploadStarts, this`dispatched
      ensures stdinPaused == paused && stdinCompleted == ended && completed == done && uploads == inFlight
      ensures uploadedParts == parts && uploadedBytes == bytes && uploadStarts == starts && dispatched == disp
    {
      stdinPaused, stdinCompleted, completed, uploads := paused, ended, done, inFlight;
      uploadedParts, uploadedBytes, uploadStarts, dispatched := parts, bytes, starts, disp;
    }

    /** Fields that hold consistent values make the object valid. */
    lemma Stored(scratch: seq<Segment>, queue: seq<Chunk>, index: nat, large: bool, small: bool,
                 paused: bool, ended: bool, done: bool, inFlight: seq<Chunk>, parts: seq<Part>,
                 bytes: nat, starts: nat, recv: seq<Segment>, disp: seq<Chunk>,
                 emit: seq<Segment>, flush: bool)
      requires Consistent(scratch, queue, index, large, small, paused, ended, done, inFlight, parts, bytes, starts,
                          recv, disp, emit, flush)
      requires scratchBuffer == scratch && buffersQueue == queue && bufferIndex == index
      requires isLargeFile == large && isSmallFile == small && stdinPaused == paused
      requires stdinCompleted == ended && completed == done && uploads == inFlight
      requires uploadedParts == parts && uploadedBytes == bytes && uploadStarts == starts
      requires received == recv && dispatched == disp && emitted == emit && flushed == flush
      ensures Valid()
    {
    }

    /** The `data` handler: accumulate the segment; once the accumulator holds more than `chunk`
        bytes, queue it as the next part (entering multipart mode on the first one); pause the
        input when the queue has reached `concurrency` entries. */
    method OnData(segment: Segment)
      requires Valid() && !stdinCompleted
      modifies this
      ensures Valid()
      ensures received == old(received) + [segment]
      ensures Size(old(scratchBuffer) + [segment]) > chunk ==>
                && buffersQueue == old(buffersQueue) + [Chunk(old(bufferIndex), old(scratchBuffer) + [segment])]
                && scratchBuffer == []
                && bufferIndex == old(bufferIndex) + 1
                && isLargeFile
                && uploadStarts == (if old(bufferIndex) == 1 then old(uploadStarts) + 1 else old(uploadStarts))
      ensures Size(old(scratchBuffer) + [segment]) <= chunk ==>
                && buffersQueue == old(buffersQueue)
                && scratchBuffer == old(scratchBuffer) + [segment]
                && bufferIndex == old(bufferIndex)
                && isLargeFile == old(isLargeFile)
                && uploadStarts == old(uploadStarts)
      ensures stdinPaused == (old(stdinPaused) || |buffersQueue| >= concurrency)
      ensures isSmallFile == old(isSmallFile) && stdinCompleted == old(stdinCompleted)
      ensures completed == old(completed) && uploads == old(uploads)
      ensures uploadedParts == old(uploadedParts) && uploadedBytes == old(uploadedBytes)
      ensures dispatched == old(dispatched)
    {
      var scratch := scratchBuffer + [segment];
      var queue, index, large, starts := buffersQueue, bufferIndex, isLargeFile, uploadStarts;
      var scratchBufferSize := Size(scratch);
      if scratchBufferSize > chunk {
        if index == 1 {
          large := true;
          starts := starts + 1;
        }
        queue := queue + [Chunk(index, scratch)];
        scratch := [];
        index := index + 1;
      }
      var paused := stdinPaused;
      if |queue| >= concurrency {
        paused := true;
      }
      Chunker.DataStep(chunk, received, dispatched, buffersQueue, scratchBuffer, emitted, bufferIndex, flushed,
                       isLargeFile, isSmallFile, segment, received + [segment], queue, scratch, index, large);
      var small, ended, done, inFlight, parts, bytes := isSmallFile, stdinCompleted, completed, uploads,
                                                        uploadedParts, uploadedBytes;
      ghost var recv, disp, emit, flush := received + [segment], dispatched, emitted, flushed;
      Store(scratch, queue, index, large, small, paused, ended, done, inFlight, parts, bytes, starts,
            recv, disp, emit, flush);
      Stored(scratch, queue, index, large, small, paused, ended, done, inFlight, parts, bytes, starts,
             recv, disp, emit, flush);
    }

    /** The `end` handler. With nothing accumulated it only records the end. After a cut, the
        accumulator is queued as the final part under the current `bufferIndex`; otherwise
        the whole accumulator is returned as the single-request payload and the run is
        marked small and complete. */
    method OnEnd() returns (payload: Option<seq<Segment>>)
      requires Valid() && !stdinCompleted
      modifies this
      ensures Valid() && stdinCompleted && scratchBuffer == []
      ensures received == old(received)
      ensures old(scratchBuffer) == [] ==>
                && payload == None
                && buffersQueue == old(buffersQueue)
                && isSmallFile == old(isSmallFile)
                && completed == old(completed) && uploadedBytes == old(uploadedBytes)
      ensures old(scratchBuffer) != [] && old(bufferIndex) > 1 ==>
                && payload == None
                && buffersQueue == old(buffersQueue) + [Chunk(old(bufferIndex), old(scratchBuffer))]
                && !isSmallFile && completed == old(completed)
                && uploadedBytes == old(uploadedBytes)
      ensures old(scratchBuffer) != [] && old(bufferIndex) == 1 ==>
                && payload == Some(old(scratchBuffer))
                && buffersQueue == old(buffersQueue)
                && isSmallFile && completed
                && uploadedBytes == Size(old(scratchBuffer))
      ensures payload.Some? ==> payload.value == received && Size(received) <= chunk
      ensures isSmallFile ==> !isLargeFile
      ensures bufferIndex == old(bufferIndex) && isLargeFile == old(isLargeFile)
      ensures stdinPaused == old(stdinPaused) && uploads == old(uploads)
      ensures uploadedParts == old(uploadedParts) && uploadStarts == old(uploadStarts)
      ensures dispatched == old(dispatched)
    {
      Chunker.EndStep(chunk, received, dispatched + buffersQueue, scratchBuffer, emitted, bufferIndex,
                      flushed, isLargeFile, isSmallFile);
      Chunker.EndCondition(chunk, received, dispatched + buffersQueue, scratchBuffer, emitted, bufferIndex,
                           flushed, false, isLargeFile, isSmallFile);
      var ended := true;
      var scratch, queue, small, bytes, done := scratchBuffer, buffersQueue, isSmallFile, uploadedBytes, completed;
      ghost var emit, flush := emitted, flushed;
      payload := None;
      if |scratch| > 0 {
        var scratchBufferSize := Size(scratch);
        if bufferIndex > 1 || scratchBufferSize > chunk {
          var c := Chunk(bufferIndex, scratch);
          assert dispatched + (queue + [c]) == (dispatched + queue) + [c];
          queue := queue + [c];
          flush := true;
        } else {
          assert dispatched == [] && queue == [];
          small := true;
          bytes := scratchBufferSize;
          payload := Some(scratch);
          emit := scratch;
          done := true;
        }
        scratch := [];
      }
      var index, large, paused, inFlight, parts, starts := bufferIndex, isLargeFile, stdinPaused, uploads,
                                                           uploadedParts, uploadStarts;
      ghost var recv, disp := received, dispatched;
      Store(scratch, queue, index, large, small, paused, ended, done, inFlight, parts, bytes, starts,
            recv, disp, emit, flush);
      Stored(scratch, queue, index, large, small, paused, ended, done, inFlight, parts, bytes, starts,
             recv, disp, emit, flush);
    }

    /** The fill step of a scheduler pass: when a slot is free and the queue is not empty,
        chunks move from the queue front into flight, as many as there are free slots. */
    method Dispatch()
      requires Valid() && !completed
      modifies this
      ensures Valid()
      ensures var k := FillCount(|old(uploads)|, |old(buffersQueue)|, concurrency);
              && buffersQueue == old(buffersQueue)[k..]
              && uploads == old(uploads) + old(buffersQueue)[..k]
      ensures |uploads| <= concurrency
      ensures |buffersQueue| + |uploads| == old(|buffersQueue| + |uploads|)
      ensures Produced() == old(Produced())
      ensures scratchBuffer == old(scratchBuffer) && bufferIndex == old(bufferIndex)
      ensures isLargeFile == old(isLargeFile) && isSmallFile == old(isSmallFile)
      ensures stdinPaused == old(stdinPaused) && stdinCompleted == old(stdinCompleted) && completed == old(completed)
      ensures uploadedParts == old(uploadedParts) && uploadedBytes == old(uploadedBytes)
      ensures uploadStarts == old(uploadStarts) && received == old(received)
    {
      ghost var k := FillCount(|uploads|, |buffersQueue|, concurrency);
      ghost var disp := dispatched + buffersQueue[..k];
      var queue, inFlight := Fill(buffersQueue, uploads, concurrency);
      Scheduler.FillStep(concurrency, hash, dispatched, uploads, uploadedParts, buffersQueue);
      Scheduler.DispatchKeepsOrder(dispatched, buffersQueue, k);
      var scratch, index, large, small, paused, ended, done := scratchBuffer, bufferIndex, isLargeFile, isSmallFile,
                                                                stdinPaused, stdinCompleted, completed;
      var parts, bytes, starts := uploadedParts, uploadedBytes, uploadStarts;
      ghost var recv, emit, flush := received, emitted, flushed;
      Store(scratch, queue, index, large, small, paused, ended, done, inFlight, parts, bytes, starts,
            recv, disp, emit, flush);
      Stored(scratch, queue, index, large, small, paused, ended, done, inFlight, parts, bytes, starts,
             recv, disp, emit, flush);
    }

    /** The rest of a scheduler pass: drop the resolved uploads (recording their parts and
        recomputing the byte total), decide completion, and apply the resume rule. `resolved`
        holds the part numbers whose upload has finished. */
    method Settle(resolved: set<nat>)
      requires Valid() && !completed
      modifies this
      ensures Valid()
      ensures uploads == Prune(old(uploads), resolved)
      ensures uploadedParts == old(uploadedParts) + PartsOf(Finished(old(uploads), resolved), hash)
      ensures uploadedBytes == (if isSmallFile then old(uploadedBytes) else UploadedBytes(uploadedParts))
      ensures completed == (old(completed) || (uploads == [] && buffersQueue == [] && stdinCompleted))
      ensures stdinPaused == (old(stdinPaused) && !(!stdinCompleted && |buffersQueue| + |uploads| < concurrency))
      ensures !Running() ==> completed
      ensures buffersQueue == old(buffersQueue) && dispatched == old(dispatched)
      ensures scratchBuffer == old(scratchBuffer) && bufferIndex == old(bufferIndex)
      ensures isLargeFile == old(isLargeFile) && isSmallFile == old(isSmallFile)
      ensures stdinCompleted == old(stdinCompleted) && uploadStarts == old(uploadStarts)
      ensures received == old(received)
    {
      var parts := uploadedParts + PartsOf(Finished(uploads, resolved), hash);
      var inFlight := Prune(uploads, resolved);
      var bytes := uploadedBytes;
      if !isSmallFile {
        bytes := UploadedBytes(parts);
      }
      var done := completed;
      if |inFlight| == 0 && |buffersQueue| == 0 && stdinCompleted {
        done := true;
      }
      var paused := stdinPaused;
      if !stdinCompleted && stdinPaused && |buffersQueue| + |inFlight| < concurrency {
        paused := false;
      }
      Scheduler.SettleStep(concurrency, hash, dispatched, uploads, uploadedParts, resolved);
      var scratch, queue, index, large, small, ended, starts := scratchBuffer, buffersQueue, bufferIndex, isLargeFile,
                                                                isSmallFile, stdinCompleted, uploadStarts;
      ghost var recv, disp, emit, flush := received, dispatched, emitted, flushed;
      Store(scratch, queue, index, large, small, paused, ended, done, inFlight, parts, bytes, starts,
            recv, disp, emit, flush);
      Stored(scratch, queue, index, large, small, paused, ended, done, inFlight, parts, bytes, starts,
             recv, disp, emit, flush);
    }

    /** One pass of the scheduler loop, entered while its condition holds: the fill step, then
        the prune, completion and resume steps, with `resolved` the part numbers whose upload
        finished meanwhile. */
    method Tick(resolved: set<nat>)
      requires Valid() && Running()
      modifies this
      ensures Valid()
      ensures var k := FillCount(|old(uploads)|, |old(buffersQueue)|, concurrency);
              var active := old(uploads) + old(buffersQueue)[..k];
              && |active| <= concurrency
              && buffersQueue == old(buffersQueue)[k..]
              && uploads == Prune(active, resolved)
              && uploadedParts == old(uploadedParts) + PartsOf(Finished(active, resolved), hash)
      ensures uploadedBytes == (if isSmallFile then old(uploadedBytes) else UploadedBytes(uploadedParts))
      ensures completed == (uploads == [] && buffersQueue == [] && stdinCompleted)
      ensures stdinPaused == (old(stdinPaused) && !(!stdinCompleted && |buffersQueue| + |uploads| < concurrency))
      ensures !Running() ==> completed
      ensures Produced() == old(Produced()) && received == old(received)
      ensures scratchBuffer == old(scratchBuffer) && bufferIndex == old(bufferIndex)
      ensures isLargeFile == old(isLargeFile) && isSmallFile == old(isSmallFile)
      ensures stdinCompleted == old(stdinCompleted) && uploadStarts == old(uploadStarts)
    {
      Dispatch();
      Settle(resolved);
    }

    /** A pass of the loop as the completion watcher needs it: entered whenever the run is not
        yet complete, so that a pass still runs after the end event arrived while nothing was
        queued or in flight. Such a pass, and any pass after the end event that finds nothing
        queued and every in-flight upload resolved, completes the run. */
    method TickUntilDone(resolved: set<nat>)
      requires Valid() && !completed
      modifies this
      ensures Valid()
      ensures var k := FillCount(|old(uploads)|, |old(buffersQueue)|, concurrency);
              var active := old(uploads) + old(buffersQueue)[..k];
              && |active| <= concurrency
              && buffersQueue == old(buffersQueue)[k..]
              && uploads == Prune(active, resolved)
              && uploadedParts == old(uploadedParts) + PartsOf(Finished(active, resolved), hash)
      ensures uploadedBytes == (if isSmallFile then old(uploadedBytes) else UploadedBytes(uploadedParts))
      ensures completed == (uploads == [] && buffersQueue == [] && stdinCompleted)
      ensures stdinPaused == (old(stdinPaused) && !(!stdinCompleted && |buffersQueue| + |uploads| < concurrency))
      ensures old(stdinCompleted) && old(buffersQueue) == [] && AllResolved(old(uploads), resolved) ==> completed
      ensures Produced() == old(Produced()) && received == old(received)
      ensures scratchBuffer == old(scratchBuffer) && bufferIndex == old(bufferIndex)
      ensures isLargeFile == old(isLargeFile) && isSmallFile == old(isSmallFile)
      ensures stdinCompleted == old(stdinCompleted) && uploadStarts == old(uploadStarts)
    {
      if buffersQueue == [] && AllResolved(uploads, resolved) {
        DrainedPass(uploads, buffersQueue, concurrency, resolved);
      }
      Dispatch();
      Settle(resolved);
    }

    /** The completion step once the scheduler reports `completed`: in multipart mode, the
        hash list of the finalize request; in single-request mode, nothing. */
    method Complete() returns (partSha1Array: Option<seq<Digest>>)
      requires Valid() && completed
      ensures partSha1Array.Some? <==> isLargeFile
      ensures isLargeFile ==>
                && Flatten(Produced()) == received
                && |partSha1Array.value| == |Produced()|
                && forall k :: 0 <= k < |Produced()| ==>
                     Produced()[k].index == k + 1 && partSha1Array.value[k] == hash(Concat(Produced()[k].segments))
      ensures uploadedBytes == Size(received)
      ensures isLargeFile <==> Size(received) > chunk
      ensures isSmallFile <==> received != [] && Size(received) <= chunk
      ensures !(isLargeFile && isSmallFile)
    {
      Chunker.EndedModes(chunk, received, Produced(), scratchBuffer, emitted, bufferIndex, flushed,
                         isLargeFile, isSmallFile);
      if isLargeFile {
        ghost var produced := Produced();
        assert produced == dispatched;
        Chunker.EndedLarge(chunk, received, produced, scratchBuffer, emitted, bufferIndex,
                           flushed, isLargeFile, isSmallFile);
        var sorted, hashes := FinalizeHashes(uploadedParts);
        FinalizeOrder(uploadedParts, sorted, produced, hash);
        RecordedBytes(uploadedParts, produced, hash);
        partSha1Array := Some(hashes);
      } else {
        partSha1Array := None;
      }
    }
  }

  /** The first part of the input of `EarlyExit`: a 6-byte segment over a 5-byte threshold
      is cut as part 1, and one pass puts it in flight. */
  method FirstPartInFlight(hash: seq<byte> -> Digest) returns (p: Pipe)
    ensures fresh(p)
    ensures p.Valid() && p.Running() && p.isLargeFile && !p.stdinCompleted
    ensures p.scratchBuffer == [] && p.buffersQueue == [] && p.uploads == [Chunk(1, [[0, 0, 0, 0, 0, 0]])]
  {
    p := new Pipe(5, 2, hash);
    var segment: Segment := [0, 0, 0, 0, 0, 0];
    assert Size([] + [segment]) == 6;
    p.OnData(segment);
    assert [] + [segment] == [segment];
    assert p.buffersQueue == [Chunk(1, [segment])];
    assert FillCount(0, 1, 2) == 1;
    p.Tick({});
  }

  /** The scheduler loop as written can stop before the run is complete. With a threshold of 5
      bytes and two slots, one 6-byte segment is cut as part 1; one pass dispatches it, the
      next finds it resolved while input is still open, and only then does input end, with
      nothing accumulated. The loop condition now fails, yet `completed` was never set, so the
      completion watcher waits forever and the finalize request is never sent. */
  method EarlyExit(hash: seq<byte> -> Digest) returns (p: Pipe)
    ensures fresh(p)
    ensures p.Valid() && p.isLargeFile && p.stdinCompleted
    ensures !p.Running() && !p.completed
  {
    p := FirstPartInFlight(hash);
    assert FillCount(1, 0, 2) == 0;
    p.Tick({1});
    var payload := p.OnEnd();
  }

  /** With the loop entered until the run is complete, the same input finishes: one more pass
      sets `completed`, and the finalize hash list is produced. */
  method CompletesWhenDrained(hash: seq<byte> -> Digest) returns (p: Pipe, partSha1Array: Option<seq<Digest>>)
    ensures p.Valid() && p.completed && p.isLargeFile
    ensures partSha1Array.Some? && |partSha1Array.value| == |p.Produced()|
  {
    p := EarlyExit(hash);
    p.TickUntilDone({});
    partSha1Array := p.Complete();
  }
}
