# Sample cache of the WPF capture/playback demo, in Dafny

This project models the sample cache of the application in
`WpfApp1/MainWindow.xaml.cs`. The cache sits between the capture callback,
which appends byte runs of 32-bit float samples, and the playback device,
which pulls samples with `Read`. There are two classes:

- `Cache` (lines 124-192) is a single-threaded FIFO of sample chunks. It has
  a cursor `firstOffset` into the head chunk and a one-frame underrun filler
  `lastSample` of `C` samples, where `C` is the channel count.
- `CacheAndSave` (lines 197-238) adds write-through: every count a `Read`
  returns is also written to an optional wave file writer.

The model is in four modules:

- `Samples` (`samples.dfy`): a sample as the four bytes of a float. It also
  has the byte-to-sample conversion of `Append` and its inverse.
- `SampleQueue` (`queue.dfy`): the queue and cursor as values.
  - `CursorOk` is the cursor invariant.
  - `Pending` is the stream of samples not yet read.
  - `Consume` is what the copy loop of `Read` does to the queue and cursor.
- `CacheSpec` (`spec_model.dfy`): value-level specifications of each
  operation and the properties proved about them.
  - `ReadModel` covers `Read`, `AppendModel` covers `Append`, and
    `WriteThrough` covers the write-through step.
  - `Writer` is the writer field: no writer, an open file with the samples
    written so far, or a disposed one.
  - `Copying` and `HeadPass` are the invariant of the copy loop and one pass
    of it.
- `SampleCache` (`cache.dfy`): the classes.
  - `Cache` keeps a `seq<seq<Sample>>` queue, the cursor and the filler
    `array`.
  - Its `Read` is proved equal to `ReadModel`, including the exact
    destination array contents.
  - Ghost logs `appended` and `delivered` carry the conservation invariant
    `delivered + pending == appended` in `Valid()`.
  - `CacheAndSave` holds a `Cache` and its writer. A ghost list of finished
    recordings stands in for the files on disk.

The `Buffer.BlockCopy` calls that throw are modelled as the outcome `Threw`.
State changed before such a call is kept. These are the throwing calls:

- line 173 when `0 < floatRead < C`, because the source offset is negative;
- line 179 when the destination is shorter than `C`.

### Behaviour of the code worth knowing

- **Cursor invariant.** `firstOffset` is kept so that a head chunk can be
  read in several parts (lines 129-130). It is 0 when the queue is empty.
  Otherwise it is 0 or strictly inside the head chunk (`CursorOk`). The
  value 0 is allowed because `Append` with `length == 0` enqueues an empty
  chunk, which can then be at the head with cursor 0. After a partial copy
  the cursor is strictly inside the head chunk (`Cache.ConsumePartial`).
- **Underrun.** The comment at line 169 says `Read` returns at least one
  sample, to keep playing. With at least one channel a returning `Read`
  does give a positive count (`CacheSpec.ReadNeverZero`). But:
  - the underrun branch is taken whenever nothing was copied, which includes
    `count == 0` and a queue holding only empty chunks;
  - it writes the filler at `arrOut[0..C]` whatever the offset, and returns
    `C` even when `count < C`;
  - a read that copies fewer than `C` samples throws at line 173.
- **Padding.** A read that empties the queue part-way returns what it copied,
  with no padding. The filler is used only when nothing at all was copied.
  `CacheSpec.ScenarioSplitChunk` shows this.
- **Recording on underrun.** On underrun with `offset >= C`, the writer gets
  the untouched cells `arr[offset..offset+C]`, not the filler
  (`CacheSpec.UnderrunRecordsUntouchedCells`).
- **Writer failures.** A failing write propagates to the caller as `Threw`;
  it does not degrade gracefully.

## Model

| member | source | states |
|---|---|---|
| Samples.Decode | WpfApp1/MainWindow.xaml.cs:187-188 | a byte run of length 4k becomes exactly k samples |
| Samples.Encode | WpfApp1/MainWindow.xaml.cs:187-188 | k samples occupy exactly 4k bytes |
| Samples.DecodeAt | WpfApp1/MainWindow.xaml.cs:188 | sample i of the chunk is made of bytes 4i..4i+3 of the run, in order |
| Samples.DecodeEncode | WpfApp1/MainWindow.xaml.cs:188 | writing samples out as bytes and decoding them gives the same samples back |
| Samples.EncodeDecode | WpfApp1/MainWindow.xaml.cs:188 | decoding a byte run and writing it back gives the same bytes: the copy loses nothing |
| SampleQueue.CursorOk | WpfApp1/MainWindow.xaml.cs:129-130 | the cursor invariant, by its definition: cursor 0 on an empty queue, otherwise 0 or strictly inside the head chunk, so it never rests at the end of a non-empty head chunk. It is kept by `PendingAppend`, `ConsumeKeepsQueue` and `Cache.Valid` |
| SampleQueue.FlattenAppend | WpfApp1/MainWindow.xaml.cs:189 | enqueuing a chunk at the tail puts its samples after all earlier ones |
| SampleQueue.PendingAtStart | WpfApp1/MainWindow.xaml.cs:158-159 | with the cursor at 0 the pending stream is every queued sample |
| SampleQueue.PendingDequeue | WpfApp1/MainWindow.xaml.cs:155-159 | after reading the rest of the head chunk, the stream left is that of the later chunks |
| SampleQueue.PendingAppend | WpfApp1/MainWindow.xaml.cs:189 | an enqueue keeps the cursor invariant and extends the pending stream by exactly the new chunk |
| SampleQueue.Consume | WpfApp1/MainWindow.xaml.cs:147-167 | the copy loop's effect on queue and cursor, as a recursive definition: dequeue a head chunk whose rest fits, else advance the cursor. What it takes is proved in `ConsumeKeepsQueue` and `ConsumeTakes`, and `Cache.CopyPending` is proved to end where it says |
| SampleQueue.ConsumeKeepsQueue | WpfApp1/MainWindow.xaml.cs:147-167 | the copy loop keeps the cursor invariant and only drops whole chunks from the head: the queue left is a suffix of the old one |
| SampleQueue.ConsumeTakes | WpfApp1/MainWindow.xaml.cs:147-167 | the loop takes exactly the first `want` pending samples when there are that many; otherwise it takes all of them and leaves an empty queue with cursor 0 |
| CacheSpec.Initial | WpfApp1/MainWindow.xaml.cs:133-140 | a new cache has an empty queue, nothing pending and a filler of C zero samples |
| CacheSpec.SpliceAt | WpfApp1/MainWindow.xaml.cs:156-163 | a block copy replaces exactly its window and leaves every other cell alone |
| CacheSpec.SpliceTwice | WpfApp1/MainWindow.xaml.cs:152-163 | two adjacent block copies equal one copy of the concatenation |
| CacheSpec.SaveOrFill | WpfApp1/MainWindow.xaml.cs:169-181 | buffer and filler keep their lengths. An exception changes nothing. A return after copying n > 0 samples needs n >= C, returns n, leaves the buffer and saves `out[n-C..n]` as the filler. A return after copying nothing needs room for C samples, returns C, puts the filler at `out[0..C]` and leaves the rest of the buffer |
| CacheSpec.ReadModel | WpfApp1/MainWindow.xaml.cs:142-182 | a read keeps the cursor invariant, the buffer length and the filler length |
| CacheSpec.ReadConsumes | WpfApp1/MainWindow.xaml.cs:147-167 | unfolds the definition of `ReadModel` for the queue: whatever the outcome, a read leaves the queue and cursor where the copy loop stops |
| CacheSpec.ReadTakesStream | WpfApp1/MainWindow.xaml.cs:146-167 | conservation and FIFO order: the read takes the first `min(count, pending)` samples and leaves the rest pending in order; it dequeues only head chunks; it copies fewer than `count` only by emptying the queue, which leaves the cursor at 0 |
| CacheSpec.ReadFillsWindow | WpfApp1/MainWindow.xaml.cs:146-174 | a read that copies n > 0 samples has n <= count; `out[offset..offset+n]` is the next n pending samples and every other cell is unchanged; it returns n when n >= C and throws otherwise |
| CacheSpec.ReadSavesLastFrame | WpfApp1/MainWindow.xaml.cs:170-174 | after a returning read that copied n samples, C <= n and the filler is `out[n-C..n]` at absolute indices; with offset 0 that is the last C samples copied |
| CacheSpec.ReadUnderrun | WpfApp1/MainWindow.xaml.cs:176-181 | when nothing is copied, the filler is kept. An empty queue is left as it was. With room for the filler, C is returned, `out[0..C]` is the filler and nothing else changes; without room the read throws and `out` is unchanged |
| CacheSpec.ReadNeverZero | WpfApp1/MainWindow.xaml.cs:169-181 | with C > 0 a returning read gives a positive count that is at most `count` or equal to C |
| CacheSpec.AppendModel | WpfApp1/MainWindow.xaml.cs:184-190 | one new chunk at the tail; the pending stream grows by exactly that chunk; earlier chunks, cursor and filler are unchanged |
| CacheSpec.Finish | WpfApp1/MainWindow.xaml.cs:236 | `writer?.Dispose()`, also at lines 210 and 230: the recordings finished so far are kept, and exactly one is added, holding the open writer's path and samples, when the writer was open |
| CacheSpec.WriteThrough | WpfApp1/MainWindow.xaml.cs:219-225 | the outcome is the base's or an exception. The writer is either unchanged or the same open file with more samples: a write never shortens or moves a recording |
| CacheSpec.WriteThroughForwards | WpfApp1/MainWindow.xaml.cs:215-226 | unfolds the definition of `WriteThrough` case by case: the base outcome is passed on unless the write throws. An open writer grows by exactly `out[offset..offset+n]`. With no writer, or a base that threw, nothing is written. A disposed writer throws and is left as it was |
| CacheSpec.WriteThroughRecordsStream | WpfApp1/MainWindow.xaml.cs:215-226 | after a read that copied n >= C samples, the recording grows by exactly the next n samples of the stream, wherever chunk boundaries fell |
| CacheSpec.UnderrunRecordsUntouchedCells | WpfApp1/MainWindow.xaml.cs:176-222 | on underrun with offset >= C, the writer receives the untouched cells `out[offset..offset+C]` and not the filler |
| CacheSpec.ScenarioSplitChunk | WpfApp1/MainWindow.xaml.cs:142-190 | one chunk of 8 samples with C = 2. Reading 5 returns the first 5 and leaves the cursor at 5. Reading 10 then returns the last 3 with no padding, keeps the last two as the filler and empties the queue |
| CacheSpec.ScenarioTwoChunks | WpfApp1/MainWindow.xaml.cs:142-190 | chunks of 4 and 6 samples read as 3 then 7 return all 10 samples in order and empty the queue |
| SampleCache.BlockCopy | WpfApp1/MainWindow.xaml.cs:156-163 | `Buffer.BlockCopy` of n samples: the destination becomes the old one with `src[srcPos..srcPos+n]` spliced in at `dstPos` |
| SampleCache.DequeueHead | WpfApp1/MainWindow.xaml.cs:155-159 | copying the rest of the head chunk copies the next pending samples, and dequeuing it leaves the stream after them |
| SampleCache.AdvanceHead | WpfApp1/MainWindow.xaml.cs:162-166 | copying part of the head chunk copies the next pending samples, and advancing the cursor leaves the rest pending |
| SampleCache.PassQueue | WpfApp1/MainWindow.xaml.cs:149-166 | one pass takes the next pending samples and keeps the loop's end state unchanged |
| SampleCache.Pass | WpfApp1/MainWindow.xaml.cs:147-167 | one pass keeps the loop invariant, and either dequeues the head chunk or reaches `count` (termination) |
| SampleCache.LoopDone | WpfApp1/MainWindow.xaml.cs:147 | when the loop condition fails, `min(count, pending)` samples were copied, the queue is where `Consume` puts it and conservation holds |
| SampleCache.Cache.constructor | WpfApp1/MainWindow.xaml.cs:133-140 | the state is `Initial(C)`: empty queue, cursor 0, a fresh filler of C zeros |
| SampleCache.Cache.Append | WpfApp1/MainWindow.xaml.cs:184-190 | the state becomes `AppendModel` of the old state and the decoded chunk; conservation is kept |
| SampleCache.Cache.ConsumeAll | WpfApp1/MainWindow.xaml.cs:154-160 | the rest of the head chunk is copied to `arrOut[pos..]`; the chunk is dequeued and the cursor reset |
| SampleCache.Cache.ConsumePartial | WpfApp1/MainWindow.xaml.cs:161-166 | n samples from the cursor are copied to `arrOut[pos..]` and the cursor advances by n, staying strictly inside the head chunk |
| SampleCache.Cache.CopyFromHead | WpfApp1/MainWindow.xaml.cs:148-166 | one loop pass as `HeadPass` states: `min(rest of head, still wanted)` samples are copied, dequeuing or advancing |
| SampleCache.Cache.CopyPending | WpfApp1/MainWindow.xaml.cs:146-167 | the loop copies exactly `Copied(count)` pending samples to `arrOut[offset..]`, leaves the queue as `Consume` says and keeps conservation |
| SampleCache.Cache.SaveOrFillFrame | WpfApp1/MainWindow.xaml.cs:169-181 | saves `arrOut[floatRead-C..floatRead]` as the filler, or writes the filler to `arrOut[0..C]`, or throws, as `SaveOrFill` says |
| SampleCache.Cache.Read | WpfApp1/MainWindow.xaml.cs:142-182 | the new state, buffer contents and outcome are exactly `ReadModel` of the old ones; conservation is kept and the delivered log grows by the samples copied |
| SampleCache.CacheAndSave.constructor | WpfApp1/MainWindow.xaml.cs:201-205 | a fresh initial cache, and an open empty writer exactly when a path is given |
| SampleCache.CacheAndSave.CreateWriter | WpfApp1/MainWindow.xaml.cs:208-213 | returns true; any open file is finished; the new writer is open and empty |
| SampleCache.CacheAndSave.Read | WpfApp1/MainWindow.xaml.cs:215-226 | the cache changes exactly as the base read; writer and result are `WriteThrough` of the base outcome and buffer |
| SampleCache.CacheAndSave.CloseWriter | WpfApp1/MainWindow.xaml.cs:228-232 | any open file is finished and the writer becomes absent; with no writer nothing changes |
| SampleCache.CacheAndSave.Dispose | WpfApp1/MainWindow.xaml.cs:234-237 | any open file is finished; the field keeps a reference to the disposed writer |

## Left out

- The `MainWindow` class (lines 16-119): WPF interface, device setup, file dialog, timer status readout and its floating point. None of it is part of the cache.
- Concurrency: `Append` runs on the capture thread and `Read` on the playback thread, without locking. Both are modelled as sequential methods on one object; interleavings are not modelled.
- The float value of a sample: `Buffer.BlockCopy` only moves bytes, so a sample is its four bytes and nothing computes on them.
- The wave file format and file I/O of NAudio's `WaveFileWriter`, which is not part of this model. A writer is a path plus the list of samples written to it, and finishing it records them.
- Format negotiation and the IEEE-float check: the format is reduced to its channel count C.
- Cache.Append: requires `0 <= length <= arr.Length` and `length % 4 == 0`. The capture callback always passes such a count; otherwise the source's `Buffer.BlockCopy` throws, which is not modelled.
- Cache.Read: requires `0 <= offset`, `0 <= count` and that `offset + count` samples fit in `arrOut`, the playback caller's contract. It also requires `arrOut` to be a different array from the private filler, which no caller can reach.
- The destination buffer of `Read` is a `byte[]` seen as a `float[]` (comment at line 144), so its C# `Length` is its byte count. The model does not capture that view. Every array length is a capacity in samples, and `arrOut.Length` is that capacity, not the C# `Length`.
- CacheAndSave.Read: the range check of `WriteSamples` at line 222 is modelled against the capacity in samples. The real check is against the byte count, four times larger, so where `offset + n` exceeds the capacity the program reads past the samples without throwing, while the model throws.
- Cache.constructor: requires at least one channel, as every wave format has; a zero-channel cache is not modelled.
- CacheAndSave.constructor: requires at least one channel, for the same reason.
- CacheAndSave.Read: a failing write to the writer leaves the writer's log unchanged. Whether the writer stores part of the samples before it fails is not modelled.
- CacheAndSave.Read: writing to a writer that `Dispose` has closed is modelled as throwing.
- CacheAndSave.CreateWriter: creating the file never fails, so an unwritable path is not modelled.
