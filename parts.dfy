/** Records of uploaded parts, their byte total, and the ordered hash list sent at finalize. */
module Parts {
  import opened Stream

  /** A content digest as the remote service receives it (a hex string). */
  type Digest = string

  /** One entry of `uploadedParts`: the part number, its content hash and its byte length. */
  datatype Part = Part(index: nat, sha1: Digest, bytes: nat)

  /** The record a successful part upload pushes for chunk `c`; `hash` stands for SHA-1. */
  function PartOf(c: Chunk, hash: seq<byte> -> Digest): (p: Part)
    ensures p.index == c.index && p.bytes == Size(c.segments)
  {
    SizeIsConcatLength(c.segments);
    Part(c.index, hash(Concat(c.segments)), |Concat(c.segments)|)
  }

  /** The records of a list of chunks, in the chunks' order. */
  function PartsOf(cs: seq<Chunk>, hash: seq<byte> -> Digest): seq<Part>
  {
    if cs == [] then [] else [PartOf(cs[0], hash)] + PartsOf(cs[1..], hash)
  }

  /** Ascending by part number, as the comparator `a.index - b.index` orders them. */
  ghost predicate SortedByIndex(s: seq<Part>)
  {
    forall i, j :: 0 <= i < j < |s| ==> s[i].index <= s[j].index
  }

  ghost predicate StrictlyIncreasing(s: seq<Part>)
  {
    forall i, j :: 0 <= i < j < |s| ==> s[i].index < s[j].index
  }

  /** The sum of the recorded byte counts (`uploadedBytes` in `logProgress`). */
  function UploadedBytes(parts: seq<Part>): nat
  {
    if parts == [] then 0 else parts[0].bytes + UploadedBytes(parts[1..])
  }

  /** The `map(part => part.sha1)` projection. */
  function Hashes(parts: seq<Part>): seq<Digest>
  {
    seq(|parts|, i requires 0 <= i < |parts| => parts[i].sha1)
  }

  /** Sorts the records in place by part number (an insertion sort). */
  method SortParts(a: array<Part>)
    modifies a
    ensures SortedByIndex(a[..])
    ensures multiset(a[..]) == old(multiset(a[..]))
  {
    var i := 0;
    while i < a.Length
      invariant 0 <= i <= a.Length
      invariant SortedByIndex(a[..i])
      invariant multiset(a[..]) == old(multiset(a[..]))
    {
      InsertLast(a, i);
      i := i + 1;
    }
    assert a[..a.Length] == a[..];
  }

  /** One insertion step: moves `a[i]` left past every record with a larger part number. */
  method InsertLast(a: array<Part>, i: nat)
    requires i < a.Length
    requires SortedByIndex(a[..i])
    modifies a
    ensures SortedByIndex(a[..i + 1])
    ensures multiset(a[..]) == old(multiset(a[..]))
  {
    var j := i;
    while j > 0 && a[j - 1].index > a[j].index
      invariant 0 <= j <= i
      invariant forall p, q :: 0 <= p < q <= i && p != j && q != j ==> a[p].index <= a[q].index
      invariant forall q :: j < q <= i ==> a[j].index < a[q].index
      invariant multiset(a[..]) == old(multiset(a[..]))
    {
      Swap(a, j - 1, j);
      j := j - 1;
    }
  }

  /** Exchanges two records; the multiset of records is unchanged. */
  method Swap(a: array<Part>, p: nat, q: nat)
    requires p < a.Length && q < a.Length
    modifies a
    ensures a[p] == old(a[q]) && a[q] == old(a[p])
    ensures forall r :: 0 <= r < a.Length && r != p && r != q ==> a[r] == old(a[r])
    ensures multiset(a[..]) == old(multiset(a[..]))
  {
    a[p], a[q] := a[q], a[p];
  }

  /** The `partSha1Array` of the finalize request: the records sorted by part number, then
      projected to their hashes. Also returns the sorted records. */
  method FinalizeHashes(parts: seq<Part>) returns (sorted: seq<Part>, hashes: seq<Digest>)
    ensures SortedByIndex(sorted)
    ensures multiset(sorted) == multiset(parts)
    ensures |sorted| == |parts| && |hashes| == |parts|
    ensures forall i :: 0 <= i < |sorted| ==> hashes[i] == sorted[i].sha1
  {
    var a := new Part[|parts|](i requires 0 <= i < |parts| => parts[i]);
    assert a[..] == parts;
    SortParts(a);
    sorted := a[..];
    assert |sorted| == |multiset(sorted)| == |multiset(parts)| == |parts|;
    hashes := Hashes(sorted);
  }

  lemma {:induction false} PartsOfAppend(a: seq<Chunk>, b: seq<Chunk>, hash: seq<byte> -> Digest)
    ensures PartsOf(a + b, hash) == PartsOf(a, hash) + PartsOf(b, hash)
  {
    if a == [] {
      assert a + b == b;
    } else {
      assert (a + b)[1..] == a[1..] + b;
      PartsOfAppend(a[1..], b, hash);
    }
  }

  /** The record list holds the record of chunk `k` at position `k`. */
  lemma {:induction false} PartsOfAt(cs: seq<Chunk>, hash: seq<byte> -> Digest)
    ensures |PartsOf(cs, hash)| == |cs|
    ensures forall k :: 0 <= k < |cs| ==> PartsOf(cs, hash)[k] == PartOf(cs[k], hash)
  {
    if cs != [] {
      PartsOfAt(cs[1..], hash);
    }
  }

  lemma {:induction false} UploadedBytesAppend(a: seq<Part>, b: seq<Part>)
    ensures UploadedBytes(a + b) == UploadedBytes(a) + UploadedBytes(b)
  {
    if a == [] {
      assert a + b == b;
    } else {
      assert (a + b)[1..] == a[1..] + b;
      UploadedBytesAppend(a[1..], b);
    }
  }

  /** Removing one record takes exactly its byte count off the total. */
  lemma UploadedBytesRemove(b: seq<Part>, p: nat)
    requires p < |b|
    ensures UploadedBytes(b) == b[p].bytes + UploadedBytes(b[..p] + b[p + 1..])
  {
    assert b == b[..p] + ([b[p]] + b[p + 1..]);
    UploadedBytesAppend(b[..p], [b[p]] + b[p + 1..]);
    UploadedBytesAppend([b[p]], b[p + 1..]);
    UploadedBytesAppend(b[..p], b[p + 1..]);
  }

  lemma MultisetRemove(b: seq<Part>, p: nat)
    requires p < |b|
    ensures multiset(b[..p] + b[p + 1..]) == multiset(b) - multiset{b[p]}
  {
    assert b == b[..p] + [b[p]] + b[p + 1..];
  }

  /** The byte total does not depend on the order in which parts completed. */
  lemma {:induction false} UploadedBytesPermutation(a: seq<Part>, b: seq<Part>)
    requires multiset(a) == multiset(b)
    ensures UploadedBytes(a) == UploadedBytes(b)
  {
    if a != [] {
      assert a[0] in multiset(a);
      assert a[0] in b;
      var p :| 0 <= p < |b| && b[p] == a[0];
      var rest := b[..p] + b[p + 1..];
      MultisetRemove(b, p);
      assert multiset(a[1..]) == multiset(a) - multiset{a[0]} by {
        assert a == [a[0]] + a[1..];
      }
      UploadedBytesPermutation(a[1..], rest);
      UploadedBytesRemove(b, p);
    }
  }

  /** The recorded byte counts of a list of chunks add up to the chunks' total size. */
  lemma {:induction false} UploadedBytesOfChunks(cs: seq<Chunk>, hash: seq<byte> -> Digest)
    ensures UploadedBytes(PartsOf(cs, hash)) == Size(Flatten(cs))
  {
    if cs != [] {
      UploadedBytesOfChunks(cs[1..], hash);
      SizeAppend(cs[0].segments, Flatten(cs[1..]));
    }
  }

  /** Once the recorded parts are, in some order, the records of a list of chunks, the byte
      total is the chunks' total size. */
  lemma RecordedBytes(parts: seq<Part>, cs: seq<Chunk>, hash: seq<byte> -> Digest)
    requires multiset(parts) == multiset(PartsOf(cs, hash))
    ensures UploadedBytes(parts) == Size(Flatten(cs))
  {
    UploadedBytesPermutation(parts, PartsOf(cs, hash));
    UploadedBytesOfChunks(cs, hash);
  }

  lemma MultisetTail(s: seq<Part>)
    requires s != []
    ensures multiset(s[1..]) == multiset(s) - multiset{s[0]}
  {
    assert s == [s[0]] + s[1..];
  }

  /** A list sorted by part number is determined by its multiset of records when the part
      numbers are distinct: whatever order the parts completed in, sorting gives `b`. */
  lemma {:induction false} SortedUnique(a: seq<Part>, b: seq<Part>)
    requires SortedByIndex(a) && StrictlyIncreasing(b)
    requires multiset(a) == multiset(b)
    ensures a == b
  {
    if a == [] {
      assert |b| == |multiset(b)| == 0;
    } else {
      assert a[0] in multiset(a);
      assert a[0] in b;
      var p :| 0 <= p < |b| && b[p] == a[0];
      assert b[0] in multiset(b);
      assert b[0] in a;
      var q :| 0 <= q < |a| && a[q] == b[0];
      assert a[0].index <= a[q].index;
      assert p == 0;
      MultisetTail(a);
      MultisetTail(b);
      assert SortedByIndex(a[1..]);
      assert StrictlyIncreasing(b[1..]);
      SortedUnique(a[1..], b[1..]);
      assert |a| == |b|;
      assert forall i :: 0 <= i < |a| ==> a[i] == b[i] by {
        forall i | 0 < i < |a| ensures a[i] == b[i] {
          assert a[i] == a[1..][i - 1];
        }
      }
    }
  }

  /** Chunks numbered 1, 2, 3, … give strictly increasing part numbers. */
  lemma NumberedPartsIncrease(cs: seq<Chunk>, hash: seq<byte> -> Digest)
    requires forall i :: 0 <= i < |cs| ==> cs[i].index == i + 1
    ensures StrictlyIncreasing(PartsOf(cs, hash))
  {
    PartsOfAt(cs, hash);
  }

  /** Finalize ordering: if the recorded parts are, in some completion order, exactly the records
      of chunks numbered 1..n, then sorting them yields the chunks' records in chunk order, and
      the hash list is the chunks' hashes in part-number order. */
  lemma FinalizeOrder(parts: seq<Part>, sorted: seq<Part>, cs: seq<Chunk>, hash: seq<byte> -> Digest)
    requires forall i :: 0 <= i < |cs| ==> cs[i].index == i + 1
    requires multiset(parts) == multiset(PartsOf(cs, hash))
    requires SortedByIndex(sorted) && multiset(sorted) == multiset(parts)
    ensures sorted == PartsOf(cs, hash)
    ensures |sorted| == |cs|
    ensures forall k :: 0 <= k < |cs| ==> sorted[k].index == k + 1 && sorted[k].sha1 == hash(Concat(cs[k].segments))
  {
    NumberedPartsIncrease(cs, hash);
    SortedUnique(sorted, PartsOf(cs, hash));
    PartsOfAt(cs, hash);
  }
}
