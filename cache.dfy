/** The sample cache between the capture callback and the playback pull, as
    the objects the program keeps: Cache, with its chunk queue, cursor and
    underrun filler, and CacheAndSave, which tees every Read to a wave file
    writer. Each method is proved against the value-level model of CacheSpec. */
module SampleCache {
  import opened Samples
  import opened SampleQueue
  import opened CacheSpec

  /** Buffer.BlockCopy of n samples from src[srcPos..] to dst[dstPos..]. */
  method BlockCopy(src: seq<Sample>, srcPos: int, dst: array<Sample>, dstPos: int, n: int)
    requires 0 <= srcPos && 0 <= dstPos && 0 <= n
    requires srcPos + n <= |src| && dstPos + n <= dst.Length
    modifies dst
    ensures dst[..] == Splice(old(dst[..]), dstPos, src[srcPos..srcPos + n])
  {
    forall i | dstPos <= i < dstPos + n {
      dst[i] := src[srcPos + (i - dstPos)];
    }
    ghost var w := Splice(old(dst[..]), dstPos, src[srcPos..srcPos + n]);
    SpliceAt(old(dst[..]), dstPos, src[srcPos..srcPos + n]);
    forall i | 0 <= i < dst.Length
      ensures dst[i] == w[i]
    {
      if dstPos <= i < dstPos + n {
        assert w[dstPos..dstPos + n][i - dstPos] == w[i];
      }
    }
  }

  /** Reading the rest of the head chunk, which starts k samples into the
      pending stream P, and dequeuing it leaves the stream after it. */
  lemma DequeueHead(P: seq<Sample>, q: seq<seq<Sample>>, off: int, k: int)
    requires CursorOk(q, off) && q != [] && 0 <= k <= |P| && Pending(q, off) == P[k..]
    ensures var k2 := k + (|q[0]| - off);
            && k2 <= |P| && CursorOk(q[1..], 0) && Pending(q[1..], 0) == P[k2..]
            && P[..k2] == P[..k] + q[0][off..off + (|q[0]| - off)]
  {
    var take := |q[0]| - off;
    var h, R := q[0][off..], Pending(q[1..], 0);
    PendingDequeue(q, off);
    assert P[k..] == h + R;
    assert P[k..k + take] == P[k..][..take] == h;
    assert P[k + take..] == P[k..][take..] == R;
    assert P[..k + take] == P[..k] + P[k..k + take];
  }

  /** Reading `take` samples from inside the head chunk, k samples into the
      pending stream P, moves the cursor past them. */
  lemma AdvanceHead(P: seq<Sample>, q: seq<seq<Sample>>, off: int, k: int, take: int)
    requires CursorOk(q, off) && q != [] && 0 <= k <= |P| && Pending(q, off) == P[k..]
    requires 0 < take < |q[0]| - off
    ensures CursorOk(q, off + take) && k + take <= |P| && Pending(q, off + take) == P[k + take..]
    ensures P[..k + take] == P[..k] + q[0][off..off + take]
  {
    var h, R := q[0][off..], Pending(q[1..], 0);
    PendingDequeue(q, off);
    PendingDequeue(q, off + take);
    assert P[k..] == h + R;
    assert P[k..k + take] == P[k..][..take] == h[..take] == q[0][off..off + take];
    assert P[k + take..] == P[k..][take..] == h[take..] + R;
    assert h[take..] == q[0][off + take..];
    assert P[..k + take] == P[..k] + P[k..k + take];
  }

  /** One pass of the copy loop on the queue alone: taking the next samples
      from the head chunk takes the next samples of the pending stream P,
      and the loop still ends where Consume says. */
  lemma PassQueue(P: seq<Sample>, count: int, q: seq<seq<Sample>>, off: int, k: int,
                  q2: seq<seq<Sample>>, off2: int, k2: int)
    requires CursorOk(q, off) && q != [] && 0 <= k < count && k <= |P| && Pending(q, off) == P[k..]
    requires var take := k2 - k;
             && take == Min(|q[0]| - off, count - k)
             && (if |q[0]| - off <= count - k then q2 == q[1..] && off2 == 0 else q2 == q && off2 == off + take)
    ensures CursorOk(q2, off2) && k2 <= |P| && Pending(q2, off2) == P[k2..]
    ensures Consume(q2, off2, count - k2) == Consume(q, off, count - k)
    ensures P[..k2] == P[..k] + q[0][off..off + (k2 - k)]
  {
    if |q[0]| - off <= count - k {
      DequeueHead(P, q, off, k);
      assert Consume(q, off, count - k) == Consume(q[1..], 0, count - k2);
    } else {
      AdvanceHead(P, q, off, k, count - k);
      assert Consume(q, off, count - k) == (q, off + (count - k)) == Consume(q2, off2, 0);
    }
  }

  /** The loop pass that copies the whole rest of the head chunk. */
  lemma HeadPassAll(count: int, offset: int, q: seq<seq<Sample>>, off: int, k: int, before: seq<Sample>, d: seq<Sample>,
                    take: int, q2: seq<seq<Sample>>, off2: int, after: seq<Sample>, d2: seq<Sample>)
    requires q != [] && CursorOk(q, off) && 0 <= offset && 0 <= k < count && offset + count <= |before|
    requires take == |q[0]| - off <= count - k && q2 == q[1..] && off2 == 0
    requires after == Splice(before, offset + k, q[0][off..]) && d2 == d + q[0][off..]
    ensures HeadPass(count, offset, q, off, k, before, d, take, q2, off2, after, d2)
  {
    assert q[0][off..] == q[0][off..off + take];
  }

  /** The loop pass that copies only part of the rest of the head chunk. */
  lemma HeadPassPart(count: int, offset: int, q: seq<seq<Sample>>, off: int, k: int, before: seq<Sample>, d: seq<Sample>,
                     take: int, q2: seq<seq<Sample>>, off2: int, after: seq<Sample>, d2: seq<Sample>)
    requires q != [] && CursorOk(q, off) && 0 <= offset && 0 <= k < count && offset + count <= |before|
    requires take == count - k < |q[0]| - off && q2 == q && off2 == off + take
    requires after == Splice(before, offset + k, q[0][off..off + take]) && d2 == d + q[0][off..off + take]
    ensures HeadPass(count, offset, q, off, k, before, d, take, q2, off2, after, d2)
  {
  }

  /** One pass of the copy loop keeps the loop invariant, and either
      dequeues the head chunk or copies all that is still wanted. */
  lemma Pass(q0: seq<seq<Sample>>, off0: int, count: int, out0: seq<Sample>, offset: int, d0: seq<Sample>,
             q: seq<seq<Sample>>, off: int, k: int, before: seq<Sample>, d: seq<Sample>,
             take: int, q2: seq<seq<Sample>>, off2: int, k2: int, after: seq<Sample>, d2: seq<Sample>)
    requires Copying(q0, off0, count, out0, offset, d0, q, off, k, before, d)
    requires HeadPass(count, offset, q, off, k, before, d, take, q2, off2, after, d2) && k2 == k + take
    ensures Copying(q0, off0, count, out0, offset, d0, q2, off2, k2, after, d2)
    ensures |q2| < |q| || k2 == count
  {
    var P := Pending(q0, off0);
    if |q[0]| - off <= count - k {
      assert |q2| < |q|;
    } else {
      assert k2 == count;
    }
    PassQueue(P, count, q, off, k, q2, off2, k2);
    var seg := q[0][off..off + take];
    SpliceTwice(out0, offset, P[..k], seg);
    assert d2 == d0 + (P[..k] + seg);
  }

  /** When the copy loop stops, it has copied Min(count, |pending|) samples
      and left the queue where Consume says; conservation still holds. */
  lemma LoopDone(q0: seq<seq<Sample>>, off0: int, count: int, out0: seq<Sample>, offset: int, d0: seq<Sample>,
                 q: seq<seq<Sample>>, off: int, k: int, out: seq<Sample>, d: seq<Sample>, app: seq<Sample>)
    requires Copying(q0, off0, count, out0, offset, d0, q, off, k, out, d)
    requires !(k < count && |q| > 0) && d0 + Pending(q0, off0) == app
    ensures k == Min(count, |Pending(q0, off0)|) && (q, off) == Consume(q0, off0, count)
    ensures d + Pending(q, off) == app
  {
    var P := Pending(q0, off0);
    assert d + Pending(q, off) == d0 + (P[..k] + P[k..]);
    assert P[..k] + P[k..] == P;
  }

  /** The single-threaded FIFO of sample chunks (class Cache of the program). */
  class Cache {
    /** The underrun filler: one frame of C samples, C the channel count. */
    const lastSample: array<Sample>
    /** The queued chunks, oldest first. */
    var chunks: seq<seq<Sample>>
    /** How many samples of the head chunk have been read already. */
    var firstOffset: int
    /** Every sample ever appended, and every sample taken out of the queue
        by a Read, in order. */
    ghost var appended: seq<Sample>
    ghost var delivered: seq<Sample>

    /** The cursor invariant, and conservation: what was taken out, followed
        by what is still pending, is exactly what was appended. */
    ghost predicate Valid()
      reads this
    {
      CursorOk(chunks, firstOffset) && delivered + Pending(chunks, firstOffset) == appended
    }

    ghost function View(): CacheView
      reads this, lastSample
    {
      CacheView(chunks, firstOffset, lastSample[..])
    }

    /** Empty queue, cursor 0, and a filler of C zero samples. */
    constructor (channels: nat)
      requires channels >= 1
      ensures Valid() && fresh(lastSample)
      ensures View() == Initial(channels)
      ensures appended == [] && delivered == []
    {
      chunks := [];
      firstOffset := 0;
      lastSample := new Sample[channels](_ => Silence);
      appended, delivered := [], [];
      new;
      assert lastSample[..] == Initial(channels).lastSample;
    }

    /** Enqueues the first `length` bytes of `arr` as one new chunk of
        length/4 samples, a copy that later changes to `arr` do not reach. */
    method Append(arr: array<bv8>, length: int)
      requires Valid()
      requires 0 <= length <= arr.Length && length % 4 == 0
      modifies this
      ensures Valid()
      ensures View() == AppendModel(old(View()), Decode(arr[..length]))
      ensures appended == old(appended) + Decode(arr[..length]) && delivered == old(delivered)
    {
      var arrCache := Decode(arr[..length]);
      ghost var v := View();
      PendingAppend(chunks, firstOffset, arrCache);
      assert delivered + (Pending(chunks, firstOffset) + arrCache) == appended + arrCache;
      chunks := chunks + [arrCache];
      appended := appended + arrCache;
      assert View() == CacheView(v.chunks + [arrCache], v.firstOffset, v.lastSample);
    }

    /** Consumes all data of the head chunk: copies the rest of it, from the
        cursor on, to arrOut[pos..], dequeues it and resets the cursor. */
    method ConsumeAll(arrOut: array<Sample>, pos: int)
      requires CursorOk(chunks, firstOffset) && chunks != []
      requires 0 <= pos && pos + (|chunks[0]| - firstOffset) <= arrOut.Length
      modifies this, arrOut
      ensures arrOut[..] == Splice(old(arrOut[..]), pos, old(chunks[0][firstOffset..]))
      ensures chunks == old(chunks[1..]) && firstOffset == 0
      ensures delivered == old(delivered + chunks[0][firstOffset..]) && appended == old(appended)
    {
      var cacheFirst := chunks[0];
      var floatsAvailable := |cacheFirst| - firstOffset;
      BlockCopy(cacheFirst, firstOffset, arrOut, pos, floatsAvailable);
      assert cacheFirst[firstOffset..firstOffset + floatsAvailable] == cacheFirst[firstOffset..];
      delivered := delivered + cacheFirst[firstOffset..];
      firstOffset := 0;
      chunks := chunks[1..];
    }

    /** Consumes partial data of the head chunk: copies its next n samples
        from the cursor on to arrOut[pos..] and advances the cursor past
        them. */
    method ConsumePartial(arrOut: array<Sample>, pos: int, n: int)
      requires CursorOk(chunks, firstOffset) && chunks != []
      requires 0 <= pos && 0 < n < |chunks[0]| - firstOffset && pos + n <= arrOut.Length
      modifies this, arrOut
      ensures arrOut[..] == Splice(old(arrOut[..]), pos, old(chunks[0][firstOffset..firstOffset + n]))
      ensures chunks == old(chunks) && firstOffset == old(firstOffset) + n
      ensures 0 < firstOffset < |chunks[0]|
      ensures delivered == old(delivered + chunks[0][firstOffset..firstOffset + n]) && appended == old(appended)
    {
      var cacheFirst := chunks[0];
      BlockCopy(cacheFirst, firstOffset, arrOut, pos, n);
      delivered := delivered + cacheFirst[firstOffset..firstOffset + n];
      firstOffset := firstOffset + n;
    }

    /** One pass of the copy loop of Read: copies as much of the rest of the
        head chunk as still fits in arrOut[offset + floatRead .. offset + count],
        dequeuing the chunk when all of it fits and advancing the cursor
        into it when not, and returns how many samples it copied. */
    method CopyFromHead(arrOut: array<Sample>, offset: int, count: int, floatRead: int) returns (taken: int)
      requires CursorOk(chunks, firstOffset) && chunks != []
      requires 0 <= offset && 0 <= floatRead < count && offset + count <= arrOut.Length
      modifies this, arrOut
      ensures HeadPass(count, offset, old(chunks), old(firstOffset), floatRead, old(arrOut[..]), old(delivered),
                       taken, chunks, firstOffset, arrOut[..], delivered)
      ensures appended == old(appended)
    {
      var cacheFirst := chunks[0];
      var floatsAvailable := |cacheFirst| - firstOffset;
      var floatsToRead := count - floatRead;
      var arrOutCurPos := offset + floatRead;
      ghost var q, off, before, d := chunks, firstOffset, arrOut[..], delivered;
      if floatsAvailable <= floatsToRead {
        ConsumeAll(arrOut, arrOutCurPos);
        taken := floatsAvailable;
        HeadPassAll(count, offset, q, off, floatRead, before, d, taken, chunks, firstOffset, arrOut[..], delivered);
      } else {
        ConsumePartial(arrOut, arrOutCurPos, floatsToRead);
        taken := floatsToRead;
        HeadPassPart(count, offset, q, off, floatRead, before, d, taken, chunks, firstOffset, arrOut[..], delivered);
      }
    }

    /** The copy loop of Read: moves the next Copied(count) pending samples
        to arrOut[offset..], dequeuing every head chunk it finishes and
        advancing the cursor into one it does not, and returns how many it
        moved. */
    method CopyPending(arrOut: array<Sample>, offset: int, count: int) returns (floatRead: int)
      requires Valid()
      requires 0 <= offset && 0 <= count && offset + count <= arrOut.Length
      modifies this, arrOut
      ensures Valid() && appended == old(appended)
      ensures floatRead == Copied(old(View()), count)
      ensures (chunks, firstOffset) == Consume(old(chunks), old(firstOffset), count)
      ensures arrOut[..] == Splice(old(arrOut[..]), offset, old(View().Stream())[..floatRead])
      ensures delivered == old(delivered) + old(View().Stream())[..floatRead]
    {
      ghost var v := View();
      ghost var out0 := arrOut[..];
      ghost var d0 := delivered;
      floatRead := 0;
      while floatRead < count && |chunks| > 0
        invariant Copying(v.chunks, v.firstOffset, count, out0, offset, d0, chunks, firstOffset, floatRead, arrOut[..], delivered)
        invariant appended == old(appended)
        decreases |chunks|, count - floatRead
      {
        ghost var q, off, k, before, d := chunks, firstOffset, floatRead, arrOut[..], delivered;
        var taken := CopyFromHead(arrOut, offset, count, floatRead);
        floatRead := floatRead + taken;
        Pass(v.chunks, v.firstOffset, count, out0, offset, d0, q, off, k, before, d,
             taken, chunks, firstOffset, floatRead, arrOut[..], delivered);
      }
      LoopDone(v.chunks, v.firstOffset, count, out0, offset, d0, chunks, firstOffset, floatRead, arrOut[..], delivered, appended);
    }

    /** The end of Read, after the copy loop moved floatRead samples: saves
        arrOut[floatRead-C..floatRead] as the filler when it moved any, and
        otherwise writes the filler to arrOut[0..C]. */
    method SaveOrFillFrame(arrOut: array<Sample>, floatRead: int) returns (res: Outcome)
      requires arrOut != lastSample && 0 <= floatRead <= arrOut.Length
      modifies lastSample, arrOut
      ensures (lastSample[..], arrOut[..], res) == SaveOrFill(old(lastSample[..]), old(arrOut[..]), floatRead)
    {
      var C := lastSample.Length;
      if floatRead > 0 {
        if floatRead < C {
          // Buffer.BlockCopy rejects the negative source offset floatRead - C
          return Threw;
        }
        BlockCopy(arrOut[..], floatRead - C, lastSample, 0, C);
        assert lastSample[..] == old(arrOut[..])[floatRead - C..floatRead];
        assert arrOut[..] == old(arrOut[..]);
        res := Returned(floatRead);
      } else {
        if arrOut.Length < C {
          // Buffer.BlockCopy rejects a destination shorter than the filler
          return Threw;
        }
        BlockCopy(lastSample[..], 0, arrOut, 0, C);
        assert old(lastSample[..])[0..C] == old(lastSample[..]);
        assert arrOut[..] == old(lastSample[..]) + old(arrOut[..])[C..];
        assert lastSample[..] == old(lastSample[..]);
        res := Returned(C);
      }
    }

    /** Copies up to `count` pending samples to arrOut[offset..], falling
        back to the filler when none is pending; see CacheSpec.ReadModel. */
    method Read(arrOut: array<Sample>, offset: int, count: int) returns (res: Outcome)
      requires Valid() && arrOut != lastSample
      requires 0 <= offset && 0 <= count && offset + count <= arrOut.Length
      modifies this, lastSample, arrOut
      ensures Valid()
      ensures var s := ReadModel(old(View()), old(arrOut[..]), offset, count);
              View() == s.view && arrOut[..] == s.out && res == s.outcome
      ensures appended == old(appended)
      ensures delivered == old(delivered) + old(View().Stream())[..Copied(old(View()), count)]
    {
      ghost var v := View();
      ghost var out0 := arrOut[..];
      var floatRead := CopyPending(arrOut, offset, count);
      ReadConsumes(v, out0, offset, count);
      res := SaveOrFillFrame(arrOut, floatRead);
    }
  }

  /** The optional file path of the CacheAndSave constructor. */
  datatype Option<T> = None | Some(value: T)

  /** Cache with a write-through to an optional wave file writer (class
      CacheAndSave of the program, which derives from Cache; here it holds
      its base cache). */
  class CacheAndSave {
    const cache: Cache
    var writer: Writer
    /** The files finished so far, oldest first. */
    ghost var recordings: seq<Recording>

    /** A new cache, with a writer opened at `path` when one is given. */
    constructor (channels: nat, path: Option<string>)
      requires channels >= 1
      ensures fresh(cache) && fresh(cache.lastSample) && cache.Valid()
      ensures cache.View() == Initial(channels) && cache.appended == [] && cache.delivered == []
      ensures writer == (if path.Some? then Open(path.value, []) else NoWriter)
      ensures recordings == []
    {
      cache := new Cache(channels);
      writer := NoWriter;
      recordings := [];
      new;
      if path.Some? {
        var ok := CreateWriter(path.value);
      }
    }

    /** Finishes the current file, if any, and opens a new empty one. */
    method CreateWriter(path: string) returns (ok: bool)
      modifies this
      ensures ok
      ensures writer == Open(path, []) && recordings == Finish(old(writer), old(recordings))
    {
      recordings := Finish(writer, recordings);
      writer := Open(path, []);
      ok := true;
    }

    /** The base Read, then the samples it reports go to the writer. */
    method Read(arr: array<Sample>, offset: int, count: int) returns (res: Outcome)
      requires cache.Valid() && arr != cache.lastSample
      requires 0 <= offset && 0 <= count && offset + count <= arr.Length
      modifies this, cache, cache.lastSample, arr
      ensures cache.Valid()
      ensures var s := ReadModel(old(cache.View()), old(arr[..]), offset, count);
              && cache.View() == s.view && arr[..] == s.out
              && (writer, res) == WriteThrough(old(writer), s.out, offset, s.outcome)
      ensures cache.appended == old(cache.appended)
      ensures cache.delivered == old(cache.delivered) + old(cache.View().Stream())[..Copied(old(cache.View()), count)]
      ensures recordings == old(recordings)
    {
      var read := cache.Read(arr, offset, count);
      res := read;
      if read.Returned? && !writer.NoWriter? {
        if writer.Disposed? {
          // a disposed writer refuses the write
          res := Threw;
        } else if offset + read.n <= arr.Length {
          writer := Open(writer.path, writer.samples + arr[offset..offset + read.n]);
        } else {
          // the writer cannot read past the end of arr
          res := Threw;
        }
      }
    }

    /** Finishes the current file, if any; afterwards there is no writer. */
    method CloseWriter()
      modifies this
      ensures writer == NoWriter && recordings == Finish(old(writer), old(recordings))
    {
      recordings := Finish(writer, recordings);
      writer := NoWriter;
    }

    /** Finishes the current file, if any, but keeps the reference to it. */
    method Dispose()
      modifies this
      ensures recordings == Finish(old(writer), old(recordings))
      ensures writer == if old(writer).Open? then Disposed(old(writer).path) else old(writer)
    {
      recordings := Finish(writer, recordings);
      if writer.Open? {
        writer := Disposed(writer.path);
      }
    }
  }
}
