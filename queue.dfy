/** The chunk queue of Cache as a value: the chunks in arrival order and the
    cursor into the head chunk, the stream of samples still pending, and the
    effect of the copy loop of Cache.Read on the queue and cursor. */
module SampleQueue {
  import opened Samples

  /** All samples of a queue of chunks, head chunk first. */
  function Flatten(q: seq<seq<Sample>>): (r: seq<Sample>)
    decreases |q|
  {
    if q == [] then [] else q[0] + Flatten(q[1..])
  }

  /** Enqueuing a chunk at the tail puts its samples after all the others. */
  lemma {:induction false} FlattenAppend(q: seq<seq<Sample>>, c: seq<Sample>)
    ensures Flatten(q + [c]) == Flatten(q) + c
    decreases |q|
  {
    if q == [] {
      assert [] + [c] == [c];
      assert Flatten([c]) == c + Flatten([]);
    } else {
      assert (q + [c])[1..] == q[1..] + [c];
      FlattenAppend(q[1..], c);
    }
  }

  /** The cursor invariant the cache keeps: the offset is 0 when the queue is
      empty; otherwise it is 0 or strictly inside the head chunk. A head
      chunk can be empty (an Append of zero bytes); its offset is then 0.
      So the cursor is a position in the head chunk, and it never rests at
      the end of a non-empty head chunk: that chunk is dequeued instead. */
  predicate CursorOk(q: seq<seq<Sample>>, off: int)
  {
    if q == [] then off == 0 else 0 <= off && (off == 0 || off < |q[0]|)
  }

  /** The samples not yet read: the rest of the head chunk from the cursor
      on, then every later chunk. */
  function Pending(q: seq<seq<Sample>>, off: int): (r: seq<Sample>)
    requires CursorOk(q, off)
  {
    if q == [] then [] else q[0][off..] + Flatten(q[1..])
  }

  /** With the cursor at 0 nothing of the queue has been read. */
  lemma {:induction false} PendingAtStart(q: seq<seq<Sample>>)
    ensures CursorOk(q, 0) && Pending(q, 0) == Flatten(q)
  {
    if q != [] {
      assert q[0][0..] == q[0];
    }
  }

  /** Dequeuing the head chunk after reading the rest of it leaves the stream
      that followed it. */
  lemma PendingDequeue(q: seq<seq<Sample>>, off: int)
    requires CursorOk(q, off) && q != []
    ensures Pending(q, off) == q[0][off..] + Pending(q[1..], 0)
  {
    PendingAtStart(q[1..]);
  }

  /** An appended chunk extends the pending stream at its end, whatever the
      cursor. */
  lemma PendingAppend(q: seq<seq<Sample>>, off: int, c: seq<Sample>)
    requires CursorOk(q, off)
    ensures CursorOk(q + [c], off)
    ensures Pending(q + [c], off) == Pending(q, off) + c
  {
    if q != [] {
      assert (q + [c])[0] == q[0];
      assert (q + [c])[1..] == q[1..] + [c];
      FlattenAppend(q[1..], c);
    } else {
      assert q + [c] == [c];
      PendingAtStart([c]);
    }
  }

  function Min(a: int, b: int): int
  {
    if a <= b then a else b
  }

  /** Queue and cursor after the copy loop of Cache.Read has taken up to
      `want` samples: a head chunk whose rest fits is dequeued and the cursor
      reset, a head chunk whose rest does not fit has the cursor advanced,
      and the loop stops when nothing more is wanted or the queue is empty. */
  function Consume(q: seq<seq<Sample>>, off: int, want: int): (r: (seq<seq<Sample>>, int))
    requires CursorOk(q, off)
    decreases |q|
  {
    if want <= 0 || q == [] then (q, off)
    else if |q[0]| - off <= want then Consume(q[1..], 0, want - (|q[0]| - off))
    else (q, off + want)
  }

  /** The queue and cursor the copy loop leaves still meet the cursor
      invariant, and the queue left is a suffix of the old one: only whole
      head chunks are dequeued, never reordered. */
  lemma {:induction false} ConsumeKeepsQueue(q: seq<seq<Sample>>, off: int, want: int)
    requires CursorOk(q, off)
    ensures var r := Consume(q, off, want);
            CursorOk(r.0, r.1) && |r.0| <= |q| && r.0 == q[|q| - |r.0|..]
    decreases |q|
  {
    if want <= 0 || q == [] {
    } else if |q[0]| - off <= want {
      var r := Consume(q[1..], 0, want - (|q[0]| - off));
      ConsumeKeepsQueue(q[1..], 0, want - (|q[0]| - off));
      assert q[1..][|q[1..]| - |r.0|..] == q[|q| - |r.0|..];
    }
  }

  /** Dropping more than a head h from h + R drops the rest from R. */
  lemma DropPast(h: seq<Sample>, R: seq<Sample>, m: nat)
    requires m <= |R|
    ensures (h + R)[|h| + m..] == R[m..]
  {
  }

  /** Dropping part of a head h from h + R leaves the rest of h, then R. */
  lemma DropWithin(h: seq<Sample>, R: seq<Sample>, m: nat)
    requires m <= |h|
    ensures (h + R)[m..] == h[m..] + R
  {
  }

  /** What the copy loop takes from the queue: the first `want` samples of
      the pending stream, in order, leaving the rest pending, when that many
      are pending; otherwise all of them, which empties the queue and
      leaves the cursor at 0. */
  lemma {:induction false} ConsumeTakes(q: seq<seq<Sample>>, off: int, want: int)
    requires CursorOk(q, off) && 0 <= want
    ensures var r := Consume(q, off, want);
            && CursorOk(r.0, r.1)
            && (want <= |Pending(q, off)| ==> Pending(r.0, r.1) == Pending(q, off)[want..])
            && (|Pending(q, off)| < want ==> r == ([], 0))
    decreases |q|
  {
    if want == 0 || q == [] {
    } else {
      var h, P1 := q[0][off..], Pending(q[1..], 0);
      PendingDequeue(q, off);
      if |h| <= want {
        var r := Consume(q[1..], 0, want - |h|);
        assert Consume(q, off, want) == r;
        ConsumeTakes(q[1..], 0, want - |h|);
        if want - |h| <= |P1| {
          DropPast(h, P1, want - |h|);
        }
      } else {
        assert Consume(q, off, want) == (q, off + want);
        DropWithin(h, P1, want);
        assert h[want..] == q[0][off + want..];
      }
    }
  }
}
