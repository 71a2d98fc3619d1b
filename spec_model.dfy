/** What Cache.Read, Cache.Append and the write-through of CacheAndSave do,
    stated on values, and the properties the cache promises about them. */
module CacheSpec {
  import opened Samples
  import opened SampleQueue

  /** A Cache's state as a value: the queued chunks, the cursor into the head
      chunk, and the one-frame underrun filler, whose length is the channel
      count C of the wave format. */
  datatype CacheView = CacheView(chunks: seq<seq<Sample>>, firstOffset: int, lastSample: seq<Sample>)
  {
    predicate Valid()
    {
      CursorOk(chunks, firstOffset)
    }

    /** The samples a reader will get next, in order. */
    function Stream(): seq<Sample>
      requires Valid()
    {
      Pending(chunks, firstOffset)
    }
  }

  /** A new cache: nothing queued, and the filler is one frame of silence. */
  function Initial(channels: nat): (v: CacheView)
    ensures v.Valid() && v.Stream() == []
    ensures |v.lastSample| == channels && forall i :: 0 <= i < channels ==> v.lastSample[i] == Silence
  {
    CacheView([], 0, seq(channels, _ => Silence))
  }

  /** How a Read call ends: with the count it returns, or with the exception
      Buffer.BlockCopy raises for a range outside an array. */
  datatype Outcome = Returned(n: nat) | Threw

  /** The cache's state, the destination buffer and the outcome after a Read. */
  datatype ReadStep = ReadStep(view: CacheView, out: seq<Sample>, outcome: Outcome)

  /** The region of the destination buffer a caller hands to Read. */
  predicate ReadArgsOk(out: seq<Sample>, offset: int, count: int)
  {
    0 <= offset && 0 <= count && offset + count <= |out|
  }

  /** `out` with the cells from `offset` on replaced by `seg`. */
  function Splice(out: seq<Sample>, offset: nat, seg: seq<Sample>): (r: seq<Sample>)
    requires offset + |seg| <= |out|
    ensures |r| == |out|
  {
    out[..offset] + seg + out[offset + |seg|..]
  }

  /** Splice replaces exactly its window: the cells of `seg` go to
      r[offset..offset+|seg|] and every other cell keeps its value. */
  lemma SpliceAt(out: seq<Sample>, offset: nat, seg: seq<Sample>)
    requires offset + |seg| <= |out|
    ensures var r := Splice(out, offset, seg);
            && r[offset..offset + |seg|] == seg
            && forall i :: 0 <= i < |out| && !(offset <= i < offset + |seg|) ==> r[i] == out[i]
  {
    var r := Splice(out, offset, seg);
    forall i | 0 <= i < |out| && !(offset <= i < offset + |seg|)
      ensures r[i] == out[i]
    {
      if i >= offset + |seg| {
        assert r[i] == out[offset + |seg|..][i - offset - |seg|];
      }
    }
  }

  /** Two adjacent copies make one: writing `a` at `offset` and then `b`
      right after it is writing a + b at `offset`. */
  lemma {:induction false} SpliceTwice(out: seq<Sample>, offset: nat, a: seq<Sample>, b: seq<Sample>)
    requires offset + |a| + |b| <= |out|
    ensures Splice(Splice(out, offset, a), offset + |a|, b) == Splice(out, offset, a + b)
  {
    var once := Splice(out, offset, a);
    assert once[..offset + |a|] == out[..offset] + a;
    assert once[offset + |a| + |b|..] == out[offset + |a| + |b|..];
  }

  /** How many samples the copy loop of Read moves: `count`, or all that is
      pending when less is. */
  function Copied(v: CacheView, count: int): nat
    requires v.Valid() && 0 <= count
  {
    Min(count, |v.Stream()|)
  }

  /** The end of Cache.Read, after the copy loop moved n samples and left
      `out`: with n > 0 the filler becomes out[n-C..n], absolute indices that
      ignore the caller's offset, and a range that starts below 0 (an
      exception) when n < C; with n == 0 the filler is written to out[0..C],
      again ignoring the offset (an exception when out is shorter than C),
      and C is returned. The result is the new filler, the buffer and the
      outcome. */
  function SaveOrFill(filler: seq<Sample>, out: seq<Sample>, n: nat): (r: (seq<Sample>, seq<Sample>, Outcome))
    requires n <= |out|
    ensures |r.0| == |filler| && |r.1| == |out|
    ensures r.2.Threw? ==> r.0 == filler && r.1 == out
    ensures r.2.Returned? && n > 0 ==> |filler| <= n && r.2.n == n && r.1 == out && r.0 == out[n - |filler|..n]
    ensures r.2.Returned? && n == 0 ==> |filler| <= |out| && r.2.n == |filler| && r.1[..|filler|] == filler && r.1[|filler|..] == out[|filler|..]
  {
    var C := |filler|;
    if n > 0 then
      if C <= n then (out[n - C..n], out, Returned(n)) else (filler, out, Threw)
    else if C <= |out| then (filler, filler + out[C..], Returned(C))
    else (filler, out, Threw)
  }

  /** The invariant of the copy loop of Cache.Read, started on the queue q0
      with cursor off0, the destination out0 and the delivered log d0: after
      k samples, the queue is (q, off), the k samples are the first k of the
      pending stream and sit at out[offset..] and at the end of d, and the
      loop still ends where Consume says. */
  ghost predicate Copying(q0: seq<seq<Sample>>, off0: int, count: int, out0: seq<Sample>, offset: int,
                          d0: seq<Sample>, q: seq<seq<Sample>>, off: int, k: int, out: seq<Sample>, d: seq<Sample>)
  {
    && CursorOk(q0, off0) && CursorOk(q, off)
    && 0 <= offset && 0 <= k <= count && offset + count <= |out0|
    && k <= |Pending(q0, off0)| && Pending(q, off) == Pending(q0, off0)[k..]
    && Consume(q, off, count - k) == Consume(q0, off0, count)
    && out == Splice(out0, offset, Pending(q0, off0)[..k])
    && d == d0 + Pending(q0, off0)[..k]
  }

  /** One pass of the copy loop of Cache.Read, which wants count - k more
      samples for out[offset + k..]: the next `take` samples, as many of the
      rest of the head chunk of (q, off) as are still wanted, go to
      after[offset + k..] and to the end of d2; the queue becomes (q2, off2),
      with the head chunk dequeued when all of its rest was taken and the
      cursor advanced past the samples taken otherwise. */
  ghost predicate HeadPass(count: int, offset: int,
                           q: seq<seq<Sample>>, off: int, k: int, before: seq<Sample>, d: seq<Sample>,
                           take: int, q2: seq<seq<Sample>>, off2: int, after: seq<Sample>, d2: seq<Sample>)
  {
    && q != [] && CursorOk(q, off) && 0 <= offset && 0 <= k < count && offset + count <= |before|
    && take == Min(|q[0]| - off, count - k)
    && (if |q[0]| - off <= count - k then q2 == q[1..] && off2 == 0 else q2 == q && off2 == off + take)
    && after == Splice(before, offset + k, q[0][off..off + take])
    && d2 == d + q[0][off..off + take]
  }

  /** Cache.Read(out, offset, count): the copy loop moves the first n pending
      samples to out[offset..offset+n] and updates queue and cursor as
      Consume says, then SaveOrFill saves or writes the filler. */
  function ReadModel(v: CacheView, out: seq<Sample>, offset: int, count: int): (r: ReadStep)
    requires v.Valid() && ReadArgsOk(out, offset, count)
    ensures r.view.Valid() && |r.out| == |out| && |r.view.lastSample| == |v.lastSample|
  {
    var n := Copied(v, count);
    var c := Consume(v.chunks, v.firstOffset, count);
    ConsumeKeepsQueue(v.chunks, v.firstOffset, count);
    var t := SaveOrFill(v.lastSample, Splice(out, offset, v.Stream()[..n]), n);
    ReadStep(CacheView(c.0, c.1, t.0), t.1, t.2)
  }

  /** Whatever its outcome, a Read leaves the queue and cursor where the
      copy loop stops. */
  lemma ReadConsumes(v: CacheView, out: seq<Sample>, offset: int, count: int)
    requires v.Valid() && ReadArgsOk(out, offset, count)
    ensures var r := ReadModel(v, out, offset, count);
            (r.view.chunks, r.view.firstOffset) == Consume(v.chunks, v.firstOffset, count)
  {
  }

  /** Conservation and FIFO order: a Read takes exactly the first
      Copied(v, count) samples of the stream and leaves the rest pending; it
      only dequeues whole head chunks; and it takes fewer than `count` only
      when it empties the queue, leaving the cursor at 0. */
  lemma ReadTakesStream(v: CacheView, out: seq<Sample>, offset: int, count: int)
    requires v.Valid() && ReadArgsOk(out, offset, count)
    ensures var r := ReadModel(v, out, offset, count);
            var n := Copied(v, count);
            && r.view.Stream() == v.Stream()[n..]
            && v.Stream() == v.Stream()[..n] + r.view.Stream()
            && |r.view.chunks| <= |v.chunks|
            && r.view.chunks == v.chunks[|v.chunks| - |r.view.chunks|..]
            && (n < count ==> r.view.chunks == [] && r.view.firstOffset == 0)
  {
    var n := Copied(v, count);
    ReadConsumes(v, out, offset, count);
    ConsumeTakes(v.chunks, v.firstOffset, count);
    ConsumeKeepsQueue(v.chunks, v.firstOffset, count);
    assert v.Stream() == v.Stream()[..n] + v.Stream()[n..];
  }

  /** A Read that copies data puts the next n = Copied(v, count) samples of
      the stream, 0 < n <= count, at out[offset..offset+n] and leaves every
      other cell alone; it returns n when n >= C and throws otherwise. */
  lemma ReadFillsWindow(v: CacheView, out: seq<Sample>, offset: int, count: int)
    requires v.Valid() && ReadArgsOk(out, offset, count)
    requires Copied(v, count) > 0
    ensures var r := ReadModel(v, out, offset, count);
            var n := Copied(v, count);
            && 0 < n <= count
            && r.out[offset..offset + n] == v.Stream()[..n]
            && (forall i :: 0 <= i < |out| && !(offset <= i < offset + n) ==> r.out[i] == out[i])
            && (r.outcome == if |v.lastSample| <= n then Returned(n) else Threw)
  {
    SpliceAt(out, offset, v.Stream()[..Copied(v, count)]);
  }

  /** After a Read that returns copied data, the filler is the last C cells
      of out[0..n] (absolute indices, as written); only when the caller's
      offset is 0 are these the last C samples copied. */
  lemma ReadSavesLastFrame(v: CacheView, out: seq<Sample>, offset: int, count: int)
    requires v.Valid() && ReadArgsOk(out, offset, count)
    requires Copied(v, count) > 0
    ensures var r := ReadModel(v, out, offset, count);
            var n := Copied(v, count);
            var C := |v.lastSample|;
            r.outcome.Returned? ==>
              && C <= n
              && r.view.lastSample == r.out[n - C..n]
              && (offset == 0 ==> r.view.lastSample == v.Stream()[n - C..n])
  {
    var n := Copied(v, count);
    var r := ReadModel(v, out, offset, count);
    var C := |v.lastSample|;
    if r.outcome.Returned? && offset == 0 {
      ReadFillsWindow(v, out, offset, count);
      assert r.out[n - C..n] == r.out[0..n][n - C..n];
    }
  }

  /** The fallback when the copy loop moved nothing (the queue holds no
      sample, or count is 0): the filler goes to out[0..C], whatever the
      offset, and C is returned even when count < C; without room for C
      samples the copy throws. The filler is kept, and an empty queue with
      its cursor is left exactly as it was. */
  lemma ReadUnderrun(v: CacheView, out: seq<Sample>, offset: int, count: int)
    requires v.Valid() && ReadArgsOk(out, offset, count)
    requires Copied(v, count) == 0
    ensures var r := ReadModel(v, out, offset, count);
            var C := |v.lastSample|;
            && r.view.lastSample == v.lastSample
            && (v.chunks == [] ==> r.view == v)
            && (C <= |out| ==> r.outcome == Returned(C) && r.out[..C] == v.lastSample && r.out[C..] == out[C..])
            && (|out| < C ==> r.outcome == Threw && r.out == out)
  {
    var r := ReadModel(v, out, offset, count);
    var C := |v.lastSample|;
    assert Splice(out, offset, v.Stream()[..0]) == out;
    if C <= |out| {
      assert r.out == v.lastSample + out[C..];
    }
  }

  /** Read never reports an empty result while the format has a channel:
      it returns the count it copied, within `count`, or the filler's C. */
  lemma ReadNeverZero(v: CacheView, out: seq<Sample>, offset: int, count: int)
    requires v.Valid() && ReadArgsOk(out, offset, count)
    requires |v.lastSample| > 0
    ensures var r := ReadModel(v, out, offset, count);
            r.outcome.Returned? ==>
              && r.outcome.n > 0
              && (r.outcome.n <= count || r.outcome.n == |v.lastSample|)
  {
  }

  /** Cache.Append with the chunk decoded from the bytes: one chunk more at
      the tail, its samples after all pending ones, nothing else touched. */
  function AppendModel(v: CacheView, chunk: seq<Sample>): (r: CacheView)
    requires v.Valid()
    ensures r.Valid() && r.Stream() == v.Stream() + chunk
    ensures |r.chunks| == |v.chunks| + 1 && r.chunks[..|v.chunks|] == v.chunks && r.chunks[|v.chunks|] == chunk
    ensures r.firstOffset == v.firstOffset && r.lastSample == v.lastSample
  {
    PendingAppend(v.chunks, v.firstOffset, chunk);
    assert (v.chunks + [chunk])[..|v.chunks|] == v.chunks;
    CacheView(v.chunks + [chunk], v.firstOffset, v.lastSample)
  }

  /** A finished wave file: where it was written and the samples it holds. */
  datatype Recording = Recording(path: string, samples: seq<Sample>)

  /** The writer field of CacheAndSave: null, an open file with the samples
      written to it so far, or a writer already disposed but still
      referenced. */
  datatype Writer = NoWriter | Open(path: string, samples: seq<Sample>) | Disposed(path: string)

  /** `writer?.Dispose()`: an open file is finalised and joins the finished
      recordings; a null or already disposed writer changes nothing. */
  function Finish(w: Writer, files: seq<Recording>): (r: seq<Recording>)
    ensures files <= r && |r| == |files| + (if w.Open? then 1 else 0)
    ensures w.Open? ==> r[|files|] == Recording(w.path, w.samples)
  {
    if w.Open? then files + [Recording(w.path, w.samples)] else files
  }

  /** The write-through step of CacheAndSave.Read, after the base Read ended
      with `base` and left `out`: an open writer receives out[offset..offset+n]
      for a returned count n; when those cells run past the end of `out` the
      write throws, and so does a write to a writer already disposed. */
  function WriteThrough(w: Writer, out: seq<Sample>, offset: int, base: Outcome): (r: (Writer, Outcome))
    requires 0 <= offset
    ensures r.1 == base || r.1 == Threw
    ensures r.0 == w || (w.Open? && r.0.Open? && r.0.path == w.path && w.samples <= r.0.samples)
  {
    match base
    case Threw => (w, Threw)
    case Returned(n) =>
      if w.NoWriter? then (w, base)
      else if w.Open? && offset + n <= |out| then (Open(w.path, w.samples + out[offset..offset + n]), base)
      else (w, Threw)
  }

  /** Write-through forwards exactly what the base Read returned: an open
      writer grows by out[offset..offset+n] and keeps its path, an absent one
      stays absent and nothing is written, a base that threw writes nothing;
      the base's outcome is passed on unless the write itself throws, which
      it does on a disposed writer and leaves the writer as it was. */
  lemma WriteThroughForwards(w: Writer, out: seq<Sample>, offset: int, base: Outcome)
    requires 0 <= offset
    ensures var r := WriteThrough(w, out, offset, base);
            && (r.1 == base || (r.1 == Threw && r.0 == w))
            && (base.Threw? || w.NoWriter? ==> r == (w, base))
            && (base.Returned? && w.Disposed? ==> r == (w, Threw))
            && (base.Returned? && w.Open? && offset + base.n <= |out| ==>
                  r.0 == Open(w.path, w.samples + out[offset..offset + base.n]) && r.1 == base)
  {
  }

  /** What a recording gets from a Read that copied data and returned: the
      next samples of the stream, exactly those the caller got, independent of
      where chunk boundaries fell. */
  lemma WriteThroughRecordsStream(v: CacheView, out: seq<Sample>, offset: int, count: int, w: Writer)
    requires v.Valid() && ReadArgsOk(out, offset, count)
    requires w.Open? && Copied(v, count) >= |v.lastSample| && Copied(v, count) > 0
    ensures var s := ReadModel(v, out, offset, count);
            var n := Copied(v, count);
            WriteThrough(w, s.out, offset, s.outcome) == (Open(w.path, w.samples + v.Stream()[..n]), Returned(n))
  {
    ReadFillsWindow(v, out, offset, count);
  }

  /** On underrun with an offset of at least C the recording does not get the
      filler: the filler went to out[0..C], and the writer is handed the
      untouched cells out[offset..offset+C]. */
  lemma UnderrunRecordsUntouchedCells(v: CacheView, out: seq<Sample>, offset: int, count: int, w: Writer)
    requires v.Valid() && ReadArgsOk(out, offset, count)
    requires w.Open? && Copied(v, count) == 0
    requires |v.lastSample| <= offset && offset + |v.lastSample| <= |out|
    ensures var s := ReadModel(v, out, offset, count);
            var C := |v.lastSample|;
            WriteThrough(w, s.out, offset, s.outcome) == (Open(w.path, w.samples + out[offset..offset + C]), Returned(C))
  {
    var s := ReadModel(v, out, offset, count);
    var C := |v.lastSample|;
    assert Splice(out, offset, v.Stream()[..0]) == out;
    assert s.out == v.lastSample + out[C..];
    assert s.out[offset..offset + C] == out[offset..offset + C];
  }

  /** Appending 8 samples with C = 2 and reading 5 returns the first 5 and
      leaves the cursor at 5; reading 10 next returns the remaining 3 with no
      padding (the filler is used only when nothing at all was copied) and
      keeps the last two of them as the filler. */
  lemma ScenarioSplitChunk(a: seq<Sample>, out1: seq<Sample>, out2: seq<Sample>)
    requires |a| == 8 && |out1| >= 5 && |out2| >= 10
    ensures var v0 := AppendModel(Initial(2), a);
            var s1 := ReadModel(v0, out1, 0, 5);
            var s2 := ReadModel(s1.view, out2, 0, 10);
            && s1.outcome == Returned(5) && s1.out[..5] == a[..5]
            && s1.view.chunks == [a] && s1.view.firstOffset == 5
            && s2.outcome == Returned(3) && s2.out[..3] == a[5..]
            && s2.view == CacheView([], 0, a[6..])
  {
    var v0 := AppendModel(Initial(2), a);
    assert v0.chunks == [a] && v0.firstOffset == 0;
    assert v0.Stream() == a by { PendingAtStart([a]); }
    assert Copied(v0, 5) == 5;
    assert Consume([a], 0, 5) == ([a], 5);
    ReadFillsWindow(v0, out1, 0, 5);
    var s1 := ReadModel(v0, out1, 0, 5);
    assert s1.view.chunks == [a] && s1.view.firstOffset == 5;
    assert s1.view.Stream() == a[5..];
    assert Copied(s1.view, 10) == 3;
    assert Consume([a], 5, 10) == ([], 0);
    ReadFillsWindow(s1.view, out2, 0, 10);
    var s2 := ReadModel(s1.view, out2, 0, 10);
    assert s2.out[..3] == a[5..];
    assert s2.out[1..3] == a[6..];
  }

  /** Chunks of 4 and 6 samples read as 3 and then 7 come back as the 10
      samples appended, in order, across the chunk boundary. */
  lemma ScenarioTwoChunks(a: seq<Sample>, b: seq<Sample>, out1: seq<Sample>, out2: seq<Sample>)
    requires |a| == 4 && |b| == 6 && |out1| >= 3 && |out2| >= 7
    ensures var v := AppendModel(AppendModel(Initial(2), a), b);
            var s1 := ReadModel(v, out1, 0, 3);
            var s2 := ReadModel(s1.view, out2, 0, 7);
            && s1.outcome == Returned(3) && s2.outcome == Returned(7)
            && s1.out[..3] + s2.out[..7] == a + b
            && s2.view.chunks == [] && s2.view.firstOffset == 0
  {
    var v := AppendModel(AppendModel(Initial(2), a), b);
    assert v.Stream() == a + b;
    ReadFillsWindow(v, out1, 0, 3);
    ReadTakesStream(v, out1, 0, 3);
    var s1 := ReadModel(v, out1, 0, 3);
    ReadFillsWindow(s1.view, out2, 0, 7);
    ReadTakesStream(s1.view, out2, 0, 7);
    var s2 := ReadModel(s1.view, out2, 0, 7);
    assert (a + b)[..3] + (a + b)[3..] == a + b;
  }
}
