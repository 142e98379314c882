/** Bytes as the input stream delivers them: segments, their size sums, and chunks of segments. */
module Stream {

  newtype byte = x: int | 0 <= x < 256

  /** One `data` event's payload. A segment may be empty. */
  type Segment = seq<byte>

  /** A frozen accumulator queued for upload as part `index` (1-based). */
  datatype Chunk = Chunk(index: nat, segments: seq<Segment>)

  /** Total byte count of a list of segments: the `map(length).reduce(+, 0)` of the handlers. */
  function Size(segs: seq<Segment>): nat
  {
    if segs == [] then 0 else |segs[0]| + Size(segs[1..])
  }

  /** The bytes of a list of segments joined end to end (`Buffer.concat`). */
  function Concat(segs: seq<Segment>): seq<byte>
  {
    if segs == [] then [] else segs[0] + Concat(segs[1..])
  }

  /** The segments of a list of chunks, in chunk order. */
  function Flatten(cs: seq<Chunk>): seq<Segment>
  {
    if cs == [] then [] else cs[0].segments + Flatten(cs[1..])
  }

  lemma {:induction false} SizeAppend(a: seq<Segment>, b: seq<Segment>)
    ensures Size(a + b) == Size(a) + Size(b)
  {
    if a == [] {
      assert a + b == b;
    } else {
      assert (a + b)[1..] == a[1..] + b;
      SizeAppend(a[1..], b);
    }
  }

  /** The size sum counts exactly the bytes that `Buffer.concat` produces. */
  lemma {:induction false} SizeIsConcatLength(segs: seq<Segment>)
    ensures Size(segs) == |Concat(segs)|
  {
    if segs != [] {
      SizeIsConcatLength(segs[1..]);
    }
  }

  lemma {:induction false} FlattenAppend(a: seq<Chunk>, b: seq<Chunk>)
    ensures Flatten(a + b) == Flatten(a) + Flatten(b)
  {
    if a == [] {
      assert a + b == b;
    } else {
      assert (a + b)[1..] == a[1..] + b;
      FlattenAppend(a[1..], b);
    }
  }
}
