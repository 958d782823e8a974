/** The sliding-window splitter that cuts the scheme document into
    overlapping chunks before they are embedded. */
module Chunking {
  import opened Text

  /** One window: its text and the character offsets it was cut from. */
  datatype Chunk = Chunk(text: string, start: int, end: int)

  const ChunkSize := 3000
  const ChunkOverlap := 1000

  function Min(a: int, b: int): (r: int) {
    if a <= b then a else b
  }

  /** When the loop of `chunk_text` stops. It stops at once on empty text. It
      takes a single step when the first window already reaches the end.
      Otherwise it needs a positive stride `size - overlap`, and without one it
      never ends. */
  predicate Terminates(text: string, size: int, overlap: int) {
    |text| == 0 || size > overlap || size >= |text|
  }

  /** The window the loop cuts at `start`: it ends `size` characters later or
      at the end of the text, whichever comes first, and holds the Python
      slice between the two offsets. */
  function Cut(text: string, size: int, start: int): (r: Chunk) {
    var end := Min(start + size, |text|);
    Chunk(PySlice(text, start, end), start, end)
  }

  /** A window cut at an offset inside the text. */
  predicate Window(text: string, size: int, c: Chunk) {
    0 <= c.start < |text| && c == Cut(text, size, c.start)
  }

  /** The loop, entered at `start`, ends: there is nothing left, or the
      stride is positive, or the window at `start` already reaches the end. */
  predicate Stops(text: string, size: int, overlap: int, start: int) {
    start >= |text| || size > overlap || start + size >= |text|
  }

  /** The windows `chunk_text` emits from offset `start` on: the reference
      definition of the loop. */
  function ChunksFrom(text: string, size: int, overlap: int, start: int): (r: seq<Chunk>)
    requires 0 <= start
    requires Stops(text, size, overlap, start)
    decreases |text| - start
    ensures |r| == 0 <==> start >= |text|
    ensures |r| > 0 ==> r[0] == Cut(text, size, start)
  {
    if start >= |text| then []
    else
      var chunk := Cut(text, size, start);
      if chunk.end == |text| then [chunk]
      else [chunk] + ChunksFrom(text, size, overlap, start + size - overlap)
  }

  /** Every window is cut at an offset inside the text, no earlier than the
      first. */
  lemma {:induction false} ChunkWindows(text: string, size: int, overlap: int, start: int)
    requires 0 <= start
    requires Stops(text, size, overlap, start)
    decreases |text| - start
    ensures forall c :: c in ChunksFrom(text, size, overlap, start) ==> start <= c.start && Window(text, size, c)
  {
    var r := ChunksFrom(text, size, overlap, start);
    if start < |text| {
      var first := Cut(text, size, start);
      assert Window(text, size, first);
      if first.end < |text| {
        var next := start + size - overlap;
        ChunkWindows(text, size, overlap, next);
        var rest := ChunksFrom(text, size, overlap, next);
        assert r == [first] + rest;
      } else {
        assert r == [first];
      }
    }
  }

  /** One round of the loop: with the windows before `start` already
      emitted, emitting the window at `start` either completes the list or
      leaves the windows one stride on still to come. */
  lemma Advance(text: string, size: int, overlap: int, start: int, done: seq<Chunk>)
    requires Terminates(text, size, overlap) && 0 <= start < |text|
    requires size > overlap || start + size >= |text|
    requires done + ChunksFrom(text, size, overlap, start) == ChunksFrom(text, size, overlap, 0)
    ensures var c := Cut(text, size, start);
      && (c.end == |text| ==> done + [c] == ChunksFrom(text, size, overlap, 0))
      && (c.end != |text| ==>
            && size > overlap
            && done + [c] + ChunksFrom(text, size, overlap, start + size - overlap) == ChunksFrom(text, size, overlap, 0))
  {
    var c := Cut(text, size, start);
    if c.end != |text| {
      var rest := ChunksFrom(text, size, overlap, start + size - overlap);
      assert ChunksFrom(text, size, overlap, start) == [c] + rest;
      assert done + [c] + rest == done + ([c] + rest);
    }
  }

  /** `chunk_text(text, chunk_size, overlap)`. */
  method ChunkText(text: string, size: int, overlap: int) returns (chunks: seq<Chunk>)
    requires Terminates(text, size, overlap)
    ensures chunks == ChunksFrom(text, size, overlap, 0)
    ensures |chunks| == 0 <==> |text| == 0
  {
    chunks := [];
    var start := 0;
    while start < |text|
      invariant 0 <= start
      invariant start == 0 || size > overlap
      invariant chunks + ChunksFrom(text, size, overlap, start) == ChunksFrom(text, size, overlap, 0)
      decreases |text| - start
    {
      var chunk := Cut(text, size, start);
      Advance(text, size, overlap, start, chunks);
      chunks := chunks + [chunk];
      if chunk.end == |text| {
        return;
      }
      start := start + size - overlap;
    }
    assert chunks + [] == chunks;
  }

  /** Only the last window reaches the end of the text, and with a
      non-negative overlap the last one does. */
  lemma OnlyLastReachesEnd(text: string, size: int, overlap: int, start: int)
    requires 0 <= start
    requires Stops(text, size, overlap, start)
    ensures forall i :: 0 <= i < |ChunksFrom(text, size, overlap, start)| - 1 ==>
      ChunksFrom(text, size, overlap, start)[i].end < |text|
    ensures |ChunksFrom(text, size, overlap, start)| > 0 && overlap >= 0 ==>
      ChunksFrom(text, size, overlap, start)[|ChunksFrom(text, size, overlap, start)| - 1].end == |text|
  {
    var r := ChunksFrom(text, size, overlap, start);
    forall i | 0 <= i < |r| - 1
      ensures r[i].end < |text|
    {
      EarlyEnds(text, size, overlap, start, i);
    }
    if |r| > 0 && overlap >= 0 {
      LastEnds(text, size, overlap, start);
    }
  }

  lemma {:induction false} EarlyEnds(text: string, size: int, overlap: int, start: int, i: nat)
    requires 0 <= start
    requires Stops(text, size, overlap, start)
    requires i < |ChunksFrom(text, size, overlap, start)| - 1
    decreases i
    ensures ChunksFrom(text, size, overlap, start)[i].end < |text|
  {
    var r := ChunksFrom(text, size, overlap, start);
    var next := start + size - overlap;
    assert r[0].end < |text|;
    if i > 0 {
      var rest := ChunksFrom(text, size, overlap, next);
      assert r == [r[0]] + rest;
      EarlyEnds(text, size, overlap, next, i - 1);
      assert r[i] == rest[i - 1];
    }
  }

  lemma {:induction false} LastEnds(text: string, size: int, overlap: int, start: int)
    requires 0 <= start <= |text|
    requires Stops(text, size, overlap, start)
    requires overlap >= 0
    decreases |text| - start
    ensures |ChunksFrom(text, size, overlap, start)| > 0 ==>
      ChunksFrom(text, size, overlap, start)[|ChunksFrom(text, size, overlap, start)| - 1].end == |text|
  {
    var r := ChunksFrom(text, size, overlap, start);
    if start < |text| && r[0].end < |text| {
      var next := start + size - overlap;
      LastEnds(text, size, overlap, next);
      var rest := ChunksFrom(text, size, overlap, next);
      assert r == [r[0]] + rest;
      assert r[|r| - 1] == rest[|rest| - 1];
    }
  }

  /** Each window starts one stride, `size - overlap`, after the one before. */
  lemma {:induction false} ChunkStarts(text: string, size: int, overlap: int, start: int)
    requires 0 <= start
    requires Stops(text, size, overlap, start)
    ensures var r := ChunksFrom(text, size, overlap, start);
      forall i :: 0 <= i < |r| - 1 ==> r[i + 1].start == r[i].start + (size - overlap)
  {
    var r := ChunksFrom(text, size, overlap, start);
    forall i | 0 <= i < |r| - 1
      ensures r[i + 1].start == r[i].start + (size - overlap)
    {
      ConsecutiveStarts(text, size, overlap, start, i);
    }
  }

  lemma {:induction false} ConsecutiveStarts(text: string, size: int, overlap: int, start: int, i: nat)
    requires 0 <= start
    requires Stops(text, size, overlap, start)
    requires i < |ChunksFrom(text, size, overlap, start)| - 1
    decreases i
    ensures var r := ChunksFrom(text, size, overlap, start);
      r[i + 1].start == r[i].start + (size - overlap)
  {
    var r := ChunksFrom(text, size, overlap, start);
    var next := start + size - overlap;
    assert r[0].end < |text|;
    var rest := ChunksFrom(text, size, overlap, next);
    assert r == [r[0]] + rest;
    if i > 0 {
      ConsecutiveStarts(text, size, overlap, next, i - 1);
      assert r[i] == rest[i - 1] && r[i + 1] == rest[i];
    } else {
      assert r[1] == rest[0];
    }
  }

  /** With a positive window size every window is non-empty and holds exactly
      the characters between its offsets. */
  lemma WindowsAreSlices(text: string, size: int, overlap: int)
    requires Terminates(text, size, overlap) && size > 0
    ensures var r := ChunksFrom(text, size, overlap, 0);
      forall i :: 0 <= i < |r| ==>
        && 0 <= r[i].start < r[i].end <= |text|
        && r[i].text == text[r[i].start..r[i].end]
  {
    ChunkWindows(text, size, overlap, 0);
  }

  /** Some window holds the character at offset `k`. */
  predicate Covers(r: seq<Chunk>, k: int) {
    exists i :: 0 <= i < |r| && r[i].start <= k < r[i].end
  }

  /** With a non-negative overlap smaller than the window the windows leave
      no gap: every character lies in some window. */
  lemma {:induction false} ChunksCover(text: string, size: int, overlap: int, start: int)
    requires 0 <= overlap < size && 0 <= start
    decreases |text| - start
    ensures forall k :: start <= k < |text| ==> Covers(ChunksFrom(text, size, overlap, start), k)
  {
    var r := ChunksFrom(text, size, overlap, start);
    if start < |text| && r[0].end == |text| {
      forall k | start <= k < |text|
        ensures Covers(r, k)
      {
        assert r[0].start <= k < r[0].end;
      }
    } else if start < |text| {
      var next := start + size - overlap;
      ChunksCover(text, size, overlap, next);
      var rest := ChunksFrom(text, size, overlap, next);
      assert r == [r[0]] + rest;
      forall k | start <= k < |text|
        ensures Covers(r, k)
      {
        if k < r[0].end {
          assert r[0].start <= k < r[0].end;
        } else {
          assert r[0].end == start + size && next <= k;
          assert Covers(rest, k);
          var j :| 0 <= j < |rest| && rest[j].start <= k < rest[j].end;
          assert r[j + 1] == rest[j];
        }
      }
    }
  }

  /** A negative overlap leaves gaps: windows of one character with overlap
      -1 skip every second character. */
  lemma NegativeOverlapSkips(text: string)
    requires |text| == 3
    ensures var r := ChunksFrom(text, 1, -1, 0);
      |r| == 2 && r[0].start == 0 && r[0].end == 1 && r[1].start == 2
      && forall i :: 0 <= i < |r| ==> !(r[i].start <= 1 < r[i].end)
  {
    var r := ChunksFrom(text, 1, -1, 0);
    assert r == [Chunk(PySlice(text, 0, 1), 0, 1)] + ChunksFrom(text, 1, -1, 2);
    assert ChunksFrom(text, 1, -1, 2) == [Chunk(PySlice(text, 2, 3), 2, 3)];
  }
}
