/** The chunker's invariant over its values, and how the `data` and `end` handlers keep it. */
module Chunker {
  import opened Stream

  /** The chunker's state is consistent: `received` is every segment so far, `produced` every
      chunk ever queued, `scratch` the accumulator, `emitted` the single-request payload once
      handed out, `flushed` whether the end handler queued a final chunk. */
  ghost predicate Inv(chunk: nat, received: seq<Segment>, produced: seq<Chunk>, scratch: seq<Segment>,
                      emitted: seq<Segment>, bufferIndex: nat, flushed: bool, ended: bool,
                      isLarge: bool, isSmall: bool)
  {
    && chunk > 0
    && bufferIndex >= 1
    // part numbers 1, 2, 3, … in push order; bufferIndex counts the data handler's cuts
    && (forall i :: 0 <= i < |produced| ==> produced[i].index == i + 1)
    && |produced| == bufferIndex - 1 + (if flushed then 1 else 0)
    && (flushed ==> ended && bufferIndex > 1 && produced[|produced| - 1].segments != [])
    // chunks cut by the data handler are strictly larger than the threshold
    && (forall i :: 0 <= i < bufferIndex - 1 ==> Size(produced[i].segments) > chunk)
    // no segment is lost or reordered
    && Flatten(produced) + scratch + emitted == received
    && Size(scratch) <= chunk
    && (ended ==> scratch == [])
    // multipart mode is decided by the total size with a strict boundary; single-request
    // mode is set at end when something arrived and multipart mode was not entered
    && (isLarge <==> bufferIndex > 1)
    && (isLarge <==> Size(received) > chunk)
    && (isSmall <==> ended && received != [] && !isLarge)
    && emitted == (if isSmall then received else [])
  }

  lemma InitInv(chunk: nat)
    requires chunk > 0
    ensures Inv(chunk, [], [], [], [], 1, false, false, false, false)
  {
  }

  /** A `data` event keeps the invariant, whether or not it cuts a chunk. The primed
      parameters are the values after the event; `queue` is the part of the produced chunks
      not yet dispatched. */
  lemma DataStep(chunk: nat, received: seq<Segment>, dispatched: seq<Chunk>, queue: seq<Chunk>,
                 scratch: seq<Segment>, emitted: seq<Segment>, bufferIndex: nat, flushed: bool,
                 isLarge: bool, isSmall: bool, segment: Segment,
                 received': seq<Segment>, queue': seq<Chunk>, scratch': seq<Segment>,
                 bufferIndex': nat, isLarge': bool)
    requires Inv(chunk, received, dispatched + queue, scratch, emitted, bufferIndex, flushed, false, isLarge, isSmall)
    requires received' == received + [segment]
    requires Size(scratch + [segment]) > chunk ==>
               && queue' == queue + [Chunk(bufferIndex, scratch + [segment])]
               && scratch' == [] && bufferIndex' == bufferIndex + 1 && isLarge'
    requires Size(scratch + [segment]) <= chunk ==>
               && queue' == queue && scratch' == scratch + [segment]
               && bufferIndex' == bufferIndex && isLarge' == isLarge
    ensures Inv(chunk, received', dispatched + queue', scratch', emitted, bufferIndex', flushed, false,
                isLarge', isSmall)
  {
    if Size(scratch + [segment]) > chunk {
      var c := Chunk(bufferIndex, scratch + [segment]);
      CutStep(chunk, received, dispatched + queue, scratch, emitted, bufferIndex, flushed, isLarge, isSmall, segment);
      assert dispatched + queue' == (dispatched + queue) + [c];
    } else {
      KeepStep(chunk, received, dispatched + queue, scratch, emitted, bufferIndex, flushed, isLarge, isSmall, segment);
    }
  }

  /** A segment that takes the accumulator over the threshold turns it into the next chunk. */
  lemma CutStep(chunk: nat, received: seq<Segment>, produced: seq<Chunk>, scratch: seq<Segment>,
                emitted: seq<Segment>, bufferIndex: nat, flushed: bool, isLarge: bool, isSmall: bool,
                segment: Segment)
    requires Inv(chunk, received, produced, scratch, emitted, bufferIndex, flushed, false, isLarge, isSmall)
    requires Size(scratch + [segment]) > chunk
    ensures Inv(chunk, received + [segment], produced + [Chunk(bufferIndex, scratch + [segment])], [], emitted,
                bufferIndex + 1, flushed, false, true, isSmall)
  {
    var acc := scratch + [segment];
    var c := Chunk(bufferIndex, acc);
    var produced' := produced + [c];
    assert !isSmall && emitted == [] && !flushed;
    assert received + [segment] == Flatten(produced) + acc by {
      assert received == Flatten(produced) + scratch;
    }
    SizeAppend(Flatten(produced), acc);
    FlattenAppend(produced, [c]);
    assert Flatten([c]) == acc by {
      assert [c][1..] == [];
    }
    assert Flatten(produced') + [] + emitted == received + [segment];
    assert forall i :: 0 <= i < bufferIndex ==> Size(produced'[i].segments) > chunk by {
      forall i | 0 <= i < bufferIndex ensures Size(produced'[i].segments) > chunk {
        if i < bufferIndex - 1 {
          assert produced'[i] == produced[i];
        }
      }
    }
  }

  /** A segment that leaves the accumulator at or under the threshold is only accumulated. */
  lemma KeepStep(chunk: nat, received: seq<Segment>, produced: seq<Chunk>, scratch: seq<Segment>,
                 emitted: seq<Segment>, bufferIndex: nat, flushed: bool, isLarge: bool, isSmall: bool,
                 segment: Segment)
    requires Inv(chunk, received, produced, scratch, emitted, bufferIndex, flushed, false, isLarge, isSmall)
    requires Size(scratch + [segment]) <= chunk
    ensures Inv(chunk, received + [segment], produced, scratch + [segment], emitted, bufferIndex, flushed, false,
                isLarge, isSmall)
  {
    var acc := scratch + [segment];
    assert !isSmall && emitted == [] && !flushed;
    assert received + [segment] == Flatten(produced) + acc by {
      assert received == Flatten(produced) + scratch;
    }
    SizeAppend(Flatten(produced), acc);
    SizeAppend(received, [segment]);
    if bufferIndex == 1 {
      assert produced == [];
      assert Flatten(produced) == [];
      assert received + [segment] == acc;
    }
  }

  /** Under the invariant the end handler's `bufferIndex > 1 || size > chunk` test reduces to
      `bufferIndex > 1`: with no cut yet, the accumulator never exceeds the threshold. */
  lemma EndCondition(chunk: nat, received: seq<Segment>, produced: seq<Chunk>, scratch: seq<Segment>,
                     emitted: seq<Segment>, bufferIndex: nat, flushed: bool, ended: bool,
                     isLarge: bool, isSmall: bool)
    requires Inv(chunk, received, produced, scratch, emitted, bufferIndex, flushed, ended, isLarge, isSmall)
    ensures (bufferIndex > 1 || Size(scratch) > chunk) <==> bufferIndex > 1
  {
  }

  /** The `end` event keeps the invariant: nothing changes but the end flag when nothing is
      accumulated; after a cut the accumulator becomes the final chunk; otherwise it becomes
      the single-request payload, which is then the whole input of at most `chunk` bytes. */
  lemma EndStep(chunk: nat, received: seq<Segment>, produced: seq<Chunk>, scratch: seq<Segment>,
                emitted: seq<Segment>, bufferIndex: nat, flushed: bool, isLarge: bool, isSmall: bool)
    requires Inv(chunk, received, produced, scratch, emitted, bufferIndex, flushed, false, isLarge, isSmall)
    ensures scratch == [] ==>
              Inv(chunk, received, produced, [], emitted, bufferIndex, flushed, true, isLarge, isSmall)
    ensures scratch != [] && bufferIndex > 1 ==>
              Inv(chunk, received, produced + [Chunk(bufferIndex, scratch)], [], emitted, bufferIndex,
                  true, true, isLarge, isSmall)
    ensures scratch != [] && bufferIndex == 1 ==>
              && Inv(chunk, received, produced, [], scratch, bufferIndex, flushed, true, isLarge, true)
              && produced == [] && scratch == received && Size(received) <= chunk
  {
    assert !isSmall && emitted == [] && !flushed;
    if scratch == [] {
      assert received == Flatten(produced) + [] + [];
      if bufferIndex == 1 {
        assert Flatten(produced) == [];
      }
    } else if bufferIndex > 1 {
      var c := Chunk(bufferIndex, scratch);
      var produced' := produced + [c];
      FlattenAppend(produced, [c]);
      assert Flatten([c]) == scratch by {
        assert [c][1..] == [];
      }
      assert Flatten(produced') + [] + emitted == received;
      assert forall i :: 0 <= i < bufferIndex - 1 ==> Size(produced'[i].segments) > chunk by {
        forall i | 0 <= i < bufferIndex - 1 ensures Size(produced'[i].segments) > chunk {
          assert produced'[i] == produced[i];
        }
      }
    } else {
      assert produced == [];
      assert Flatten(produced) == [];
      assert received == scratch;
    }
  }

  /** The whole input, once ended in multipart mode, is the queued chunks' segments in order. */
  lemma EndedLarge(chunk: nat, received: seq<Segment>, produced: seq<Chunk>, scratch: seq<Segment>,
                   emitted: seq<Segment>, bufferIndex: nat, flushed: bool, isLarge: bool, isSmall: bool)
    requires Inv(chunk, received, produced, scratch, emitted, bufferIndex, flushed, true, isLarge, isSmall)
    requires isLarge
    ensures Flatten(produced) == received
    ensures Size(received) == Size(Flatten(produced))
  {
    assert Flatten(produced) + [] + [] == received;
    assert Flatten(produced) + [] + [] == Flatten(produced);
  }

  /** Once input has ended the mode is a function of the total size with a strict boundary:
      multipart above `chunk` bytes, single-request at or below it when anything arrived (even
      only empty segments), and neither for an input of zero segments. */
  lemma EndedModes(chunk: nat, received: seq<Segment>, produced: seq<Chunk>, scratch: seq<Segment>,
                   emitted: seq<Segment>, bufferIndex: nat, flushed: bool, isLarge: bool, isSmall: bool)
    requires Inv(chunk, received, produced, scratch, emitted, bufferIndex, flushed, true, isLarge, isSmall)
    ensures isLarge <==> Size(received) > chunk
    ensures isSmall <==> received != [] && Size(received) <= chunk
    ensures !(isLarge && isSmall)
  {
  }
}
