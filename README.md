# b2pipe streaming uploader — verified model

This project models the core of `index.js` in b2pipe, which streams standard input to Backblaze B2:

- **The chunker.** The `data` and `end` handlers accumulate segments. They cut a chunk once the accumulated size is strictly greater than `chunk`, and they choose between a multipart upload (large file) and a single-request upload (small file).
- **The backpressure flag** `stdinPaused`.
- **One pass of the scheduler loop.** It fills free slots from the queue front, prunes the resolved uploads, decides `completed`, and applies the resume rule.
- **The finalize step.** The recorded parts are sorted by part number and projected to their SHA-1 values. The byte total `uploadedBytes` is the sum of the recorded byte counts.

The module-level variables of `index.js` become the fields of the class `Uploader.Pipe`, and each handler is a method that updates them. The ghost fields keep some history:

- `received`: every segment received;
- `dispatched`: the chunks moved into flight;
- `emitted`: the single-request payload;
- `flushed`: whether the end handler queued a final chunk.

`Pipe.Valid()` states the invariant. By module:

- `Chunker.Inv`:
  - part numbers are 1, 2, 3, … in push order, and `bufferIndex` is one more than the number of cuts;
  - every chunk cut by a `data` event holds more than `chunk` bytes, and the accumulator holds at most `chunk`;
  - the queued chunks' segments, then the accumulator, then the payload, are exactly the received segments;
  - multipart mode is set exactly when the total size exceeds `chunk`; single-request mode is set only at end, when something arrived and multipart mode was not entered.
- `Scheduler.Inv`: every dispatched chunk is either in flight or has its part record, and at most `concurrency` uploads are in flight.
- Flags tying the two together: the backpressure flag, completion, the one multipart-session start, and `uploadedBytes`.

Every handler and `Pipe.Tick` preserve `Valid()`, and each postcondition states the new value of every non-ghost field. `Pipe.Complete` then proves two facts:

- the finalize hash list is the hashes of chunks 1..n in order, whatever order the parts finished in;
- `uploadedBytes` equals the size of the whole input.

Stand-ins for what is not modelled:

- SHA-1 is the uninterpreted constant `hash` of the object.
- `chunk` and `concurrency` (command-line options) are constructor parameters; both must be positive.
- Each `storePart` upload is identified by its chunk. Which uploads have resolved by the time of a scheduler pass is the parameter `resolved` (a set of part numbers).
- A resolved upload's part record (`index`, hash of the concatenated bytes, byte length) is appended when the pass prunes it.

A zero-byte input enters neither mode. The end handler acts only when `scratchBuffer.length` is non-zero (line 97), so with no segment received neither flag is set, and the watcher at line 302 never stops waiting. A non-empty list of zero-length segments does give a single-request upload of 0 bytes (`Chunker.EndedModes` states both cases).

`Pipe.Tick` is one pass of the loop at lines 127-149 and requires the loop condition `Pipe.Running()`. The loop as written can exit before it sets `completed`; this is the one row under "## Findings".

## Model

| member | source | states |
|---|---|---|
| Stream.Size | index.js:69 | the size sum `map(length).reduce(+, 0)` over a list of segments; `Stream.SizeIsConcatLength` and `Stream.SizeAppend` state its properties |
| Stream.Concat | index.js:196 | the bytes of a segment list joined end to end (`Buffer.concat`); `Stream.SizeIsConcatLength` gives its length |
| Stream.SizeAppend | index.js:69 | the `map(length).reduce(+)` size of a concatenation of segment lists is the sum of the sizes |
| Stream.SizeIsConcatLength | index.js:196-222 | the size sum of a segment list equals the length of `Buffer.concat` of it, so a part record's `bytes` is its chunk's size |
| Stream.FlattenAppend | index.js:79-84 | the segments of a list of chunks distribute over appending chunks |
| Parts.PartOf | index.js:219-223 | the record pushed for a chunk: its part number, the hash of its concatenated bytes, and a byte count equal to the chunk's size sum |
| Parts.UploadedBytes | index.js:292 | the `map(bytes).reduce(+, 0)` total of the records; the `Parts.UploadedBytes…` lemmas and `Parts.RecordedBytes` state its properties |
| Parts.Hashes | index.js:266 | the `map(part => part.sha1)` projection, used by `Parts.FinalizeHashes` |
| Parts.Swap | index.js:266 | exchanges two records, leaves every other slot unchanged, preserves the multiset |
| Parts.InsertLast | index.js:266 | extends a sorted prefix by one element, preserving the multiset of records |
| Parts.SortParts | index.js:266 | sorts the records in place by ascending part number, as the comparator `a.index - b.index` does, and the result is a permutation |
| Parts.FinalizeHashes | index.js:266 | `partSha1Array`: the records sorted ascending by part number, a permutation of the input, and the hash list is their `sha1` projection position by position |
| Parts.PartsOfAppend | index.js:219-223 | the records of appended chunk lists are the appended records |
| Parts.PartsOfAt | index.js:219-223 | the record list has one record per chunk, and record k is chunk k's record |
| Parts.UploadedBytesAppend | index.js:292 | the byte total of an append is the sum of the byte totals |
| Parts.UploadedBytesRemove | index.js:292 | removing one record takes exactly its byte count off the total |
| Parts.UploadedBytesPermutation | index.js:292 | the byte total is the same for any completion order of the same records |
| Parts.UploadedBytesOfChunks | index.js:292 | the byte total of a list of chunks' records is the chunks' total size |
| Parts.RecordedBytes | index.js:292 | records that are a permutation of a list of chunks' records sum to the chunks' total size |
| Parts.SortedUnique | index.js:266 | with distinct part numbers, a list sorted by part number is determined by its multiset, so sorting any completion order gives the same list |
| Parts.NumberedPartsIncrease | index.js:79-86 | chunks numbered 1, 2, 3, … give strictly increasing part numbers |
| Parts.FinalizeOrder | index.js:266 | if the records are some completion order of chunks 1..n's records, the sorted list is the records in chunk order, and entry k has part number k+1 and chunk k's hash |
| Chunker.InitInv | index.js:34-46 | the initial globals (empty accumulator and queue, `bufferIndex` 1, no mode) satisfy the chunker invariant |
| Chunker.DataStep | index.js:66-93 | the `data` handler, cut or not, keeps the chunker invariant over the dispatched chunks plus the queue |
| Chunker.CutStep | index.js:67-87 | a segment taking the accumulator strictly over `chunk` queues the accumulator as the next numbered chunk (of more than `chunk` bytes), empties the accumulator, increments `bufferIndex` and sets multipart mode; no byte is lost or reordered |
| Chunker.KeepStep | index.js:67-71 | a segment leaving the accumulator at or under `chunk` bytes is only accumulated, and the mode is unchanged |
| Chunker.EndCondition | index.js:100 | under the invariant, `bufferIndex > 1 \|\| size > chunk` holds exactly when `bufferIndex > 1` |
| Chunker.EndStep | index.js:95-115 | at end: nothing changes for an empty accumulator; after a cut the accumulator becomes one final chunk under the current `bufferIndex`; otherwise it is the single-request payload, equal to the whole input and at most `chunk` bytes |
| Chunker.EndedLarge | index.js:101-104 | once ended in multipart mode, the queued chunks' segments in order are the whole input |
| Chunker.EndedModes | index.js:71-106 | once ended, multipart mode is set iff the total exceeds `chunk`, single-request mode iff something arrived and the total is at most `chunk` (so exactly `chunk` bytes is single-request), and never both |
| Scheduler.FillCount | index.js:128-131 | the number of chunks one pass moves: zero when no slot is free or the queue is empty, otherwise min(free slots, queue length) |
| Scheduler.Fill | index.js:128-135 | the fill loop takes exactly `FillCount` chunks from the queue front, appends them in FIFO order to the in-flight list, and keeps queue length plus in-flight count |
| Scheduler.Prune | index.js:138 | the `filter` of the in-flight list by "not resolved"; never longer than its input; `Scheduler.PruneMembers`, `Scheduler.PruneAppend` and `Scheduler.PruneSplit` state what it keeps |
| Scheduler.PruneAllResolved | index.js:138 | when every in-flight entry is resolved, the `filter` leaves nothing in flight |
| Scheduler.DrainedPass | index.js:128-138 | a pass that finds the queue empty and every in-flight upload resolved leaves nothing in flight |
| Scheduler.PruneMembers | index.js:138 | the `filter` keeps exactly the in-flight entries that are not resolved |
| Scheduler.PruneAppend | index.js:138 | the `filter` keeps the survivors in their relative order |
| Scheduler.PruneSplit | index.js:138 | each in-flight entry is either kept or finished, with no loss and no duplication |
| Scheduler.DispatchKeepsOrder | index.js:133 | moving the queue front into flight keeps the order in which chunks were queued |
| Scheduler.InitInv | index.js:40-44 | no uploads and no parts satisfy the scheduler invariant |
| Scheduler.FillStep | index.js:128-135 | filling keeps the scheduler invariant, with the moved chunks dispatched |
| Scheduler.SettleStep | index.js:138 | pruning keeps the scheduler invariant once the resolved entries' records are appended |
| Uploader.Pipe.constructor | index.js:34-46 | the globals' initial values, and the invariant holds |
| Uploader.Pipe.OnData | index.js:66-93 | the `data` handler: the segment is received; the cut branch (strictly over `chunk`) queues the next numbered chunk, resets the accumulator, increments `bufferIndex` and, on the first cut only, enters multipart mode and starts the session; otherwise the segment is accumulated; the pause flag becomes set when the queue holds at least `concurrency` chunks and is otherwise unchanged; everything else is unchanged and the invariant holds |
| Uploader.Pipe.OnEnd | index.js:95-115 | the `end` handler: input is ended and the accumulator is empty afterwards; an empty accumulator changes nothing else; after a cut one final chunk is queued under the current `bufferIndex`; otherwise the accumulator is returned as the payload (the whole input, at most `chunk` bytes), single-request mode is set, `uploadedBytes` is its size and the run is complete; the invariant holds |
| Uploader.Pipe.Running | index.js:127 | the scheduler loop's condition: not completed, and something queued, in flight, or input still open |
| Uploader.Pipe.Dispatch | index.js:128-136 | the fill step of a pass (entered only while not completed, as both loop conditions demand): exactly `FillCount` chunks leave the queue front and join the in-flight list in order; at most `concurrency` in flight; queue plus in-flight count unchanged; the produced chunks and every other field unchanged; the invariant holds |
| Uploader.Pipe.Settle | index.js:138-149 | the rest of the pass (entered only while not completed): the in-flight list is the unresolved entries in order; the resolved entries' records are appended; `uploadedBytes` is the recorded byte total in multipart mode; `completed` becomes set exactly when nothing is in flight, nothing is queued and input ended; the pause flag is cleared exactly when input is open, it was set, and queue plus in-flight count is under `concurrency`; right after the pass, when the loop condition fails the run is complete |
| Uploader.Pipe.Tick | index.js:127-149 | one pass of the scheduler loop, entered only while the loop condition holds: exactly `FillCount` chunks move from the queue front into flight, at most `concurrency` in flight; the in-flight list is then the unresolved entries in order and the resolved entries' records are appended; `uploadedBytes` is the recorded total in multipart mode; `completed` is set exactly when nothing is queued or in flight and input ended; the pause flag is cleared exactly when input is open, it was set, and queue plus in-flight count is under `concurrency`; the chunker fields, the mode flags, `stdinCompleted` and the session count are unchanged, and no chunk or input segment is gained or lost |
| Uploader.Pipe.TickUntilDone | index.js:127-149 | a pass of the loop entered while the run is not complete (the corrected loop condition), with the same fill, prune, byte-total and resume results as `Uploader.Pipe.Tick`: exactly `FillCount` chunks move from the queue front into flight, the in-flight list is then the unresolved entries in order with the resolved entries' records appended, `uploadedBytes` is the recorded total in multipart mode, and the pause flag follows the resume rule; `completed` is set exactly when nothing is queued or in flight and input ended, so a pass after the end event that finds nothing queued and every in-flight upload resolved completes the run |
| Uploader.FirstPartInFlight | index.js:66-149 | with a 5-byte threshold and two slots, one 6-byte segment is cut as part 1 and one pass puts it in flight, with input still open |
| Uploader.EarlyExit | index.js:95-149 | continuing that run, the next pass finds part 1 resolved, then input ends with nothing accumulated: the loop condition fails while `completed` is still unset, in multipart mode |
| Uploader.CompletesWhenDrained | index.js:127-149 | on the same input, one pass of the corrected loop sets `completed`, and the finalize hash list is produced, one hash per chunk |
| Uploader.Pipe.Complete | index.js:285-289 | at completion: a hash list is produced exactly in multipart mode; it is chunk k's hash at position k for the chunks numbered 1..n in order, which together hold the whole input; `uploadedBytes` equals the size of the whole input in either mode; the mode is decided by the total size with a strict boundary |

## Findings

| source | as written | input that shows it | evidently intended | confidence | as-written member | corrected member |
|---|---|---|---|---|---|---|
| index.js:127-149 | The loop keeps running only while something is queued, something is in flight, or input is open; `completed` is set only inside a pass (line 141). If input ends while a pass is yielding (line 143) after it found nothing queued or in flight, the loop exits with `completed` unset. The watcher at line 310 then never stops, and the finalize request is never sent. | `chunk` 5, `concurrency` 2, one 6-byte segment; part 1 finishes before `end` arrives, with no bytes after the cut | the loop runs until `completed` is set, so one more pass completes the run and the finalize request is sent | medium; not executed | Uploader.EarlyExit | Uploader.Pipe.TickUntilDone |

## Left out

- The B2 HTTP calls (`b2authorize`, `b2startUpload`, `b2uploadPart`, `b2uploadFile`, `b2completeUpload`) are network I/O. Their effects appear only as the recorded part, the returned payload, the returned hash list and the counter `uploadStarts`.
- The `atmpt` retry wrapper and its attempt counting are a foreign library and are not modelled. A failed upload, finalize or authorization is not modelled either; every upload eventually resolves successfully.
- SHA-1 (`node-sha1`) is a foreign call. It is the uninterpreted function `hash`.
- Async interleaving, `setImmediate`/`Promise.delay` polling, Bluebird's `isResolved` and the completion watcher at lines 301-318 are concurrency and timing. One scheduler pass is one method call, and resolution is an input. The loop itself is not a Dafny loop: it is its condition `Pipe.Running()`, which `Pipe.Tick` requires, and `Pipe.Tick` is one iteration. The `end` event can arrive only between passes, not during the yield at line 143; the model's pass applies the resume rule before such an event, and the source after it, which differs only in whether a pause flag is cleared once input has ended.
- The wait on `b2uploadStarted` before the scheduler starts (line 125) depends on the session start, which is network I/O. It is not modelled.
- `process.stdin.pause()`/`resume()` are I/O; only the flag `stdinPaused` is modelled. The model does not stop `data` events while the flag is set, so its invariants hold whether or not the input honours the pause.
- Option parsing with `yargs` and the TTY check (lines 12-32, 52-55) are configuration and I/O. Logging, progress rendering, `prettyBytes`, `prettyMs` and the floating-point `bitrate` (lines 57-61, 293-299, 317) are UI output.
- Uploader.Pipe.Settle: in the source, `uploadedBytes` is recomputed by `logProgress` around each part upload (lines 281-283, 292). The model recomputes it when the pass records the finished parts, so it holds the sum of the recorded byte counts after every pass.
- Uploader.Pipe.Settle: the source appends a part record at whatever moment its upload finishes. The model appends the records of the parts resolved since the last pass, in in-flight order. Finalize sorts them, and the byte total does not depend on the order (`Parts.FinalizeOrder`, `Parts.UploadedBytesPermutation`).
- Uploader.Pipe.Tick: `resolved` may name a chunk moved into flight in the same pass, which the source cannot produce: a `storePart` promise (lines 117-122) does not resolve before the filter at line 138 of the pass that created it. Every contract holds for every `resolved`, so the model admits these extra runs and loses none of the source's runs.
- Uploader.Pipe.OnEnd: the single-request branch awaits `b2uploadFile` before setting `completed`. The model treats the upload as finished at once and returns the payload instead of sending it.
- Uploader.Pipe.Complete: `uploadedParts.sort` sorts the global array in place. The model sorts an array copy (`Parts.SortParts`) and does not write the sorted order back to `uploadedParts`.
- The handlers compute all of their new values first, then store them in one step, so the model does not capture an observer seeing a handler half-way through. In the source, each handler runs to completion without yielding before its first `await`.
