/** Rejoining a file from its overlapping chunks (`checklist/source.py`). */
module SourceRebuild {
  import opened Prelude
  import opened Ordering

  ghost predicate EndsWith(s: string, t: string) {
    |t| <= |s| && s[|s| - |t|..] == t
  }

  function Limit(previous: string, current: string, overlap: nat): nat {
    Min(overlap, Min(|previous|, |current|))
  }

  /** The longest start of `current`, no longer than `limit`, that `previous` ends with. */
  function SeamUpTo(previous: string, current: string, limit: nat): (size: nat)
    requires limit <= |previous| && limit <= |current|
    ensures size <= limit
  {
    if limit == 0 || previous[|previous| - limit..] == current[..limit] then limit
    else SeamUpTo(previous, current, limit - 1)
  }

  lemma {:induction false} SeamUpToIsLongest(previous: string, current: string, limit: nat)
    requires limit <= |previous| && limit <= |current|
    ensures EndsWith(previous, current[..SeamUpTo(previous, current, limit)])
    ensures forall n :: SeamUpTo(previous, current, limit) < n <= limit ==> !EndsWith(previous, current[..n])
  {
    if limit > 0 && previous[|previous| - limit..] != current[..limit] {
      SeamUpToIsLongest(previous, current, limit - 1);
    }
  }

  function Seam(previous: string, current: string, overlap: nat): nat {
    SeamUpTo(previous, current, Limit(previous, current, overlap))
  }

  /** `trim_overlap`. */
  method TrimOverlap(previous: string, current: string, overlap: nat) returns (r: string)
    ensures r == current[Seam(previous, current, overlap)..]
  {
    var size := Min(overlap, Min(|previous|, |current|));
    while size > 0 && previous[|previous| - size..] != current[..size]
      invariant 0 <= size <= |previous| && size <= |current|
      invariant SeamUpTo(previous, current, size) == Seam(previous, current, overlap)
    {
      size := size - 1;
    }
    r := current[size..];
  }

  /** What `_join` appends, chunk by chunk: each is trimmed against the part appended before it, which
      is itself trimmed. */
  function Parts(chunks: seq<string>, overlap: nat): (parts: seq<string>)
    ensures |parts| == |chunks|
  {
    if chunks == [] then []
    else
      var before := Parts(chunks[..|chunks| - 1], overlap);
      var chunk := chunks[|chunks| - 1];
      before + [if before == [] then chunk else chunk[Seam(before[|before| - 1], chunk, overlap)..]]
  }

  function Concat(parts: seq<string>): string {
    if parts == [] then "" else Concat(parts[..|parts| - 1]) + parts[|parts| - 1]
  }

  function Joined(chunks: seq<string>, overlap: nat): string {
    Concat(Parts(chunks, overlap))
  }

  lemma PartsNext(chunks: seq<string>, overlap: nat, i: nat)
    requires i < |chunks|
    ensures var before := Parts(chunks[..i], overlap);
            Parts(chunks[..i + 1], overlap) ==
            before + [if i == 0 then chunks[0] else chunks[i][Seam(before[i - 1], chunks[i], overlap)..]]
  {
    assert chunks[..i + 1][..i] == chunks[..i];
  }

  method Join(chunks: seq<string>, overlap: nat) returns (text: string)
    ensures text == Joined(chunks, overlap)
  {
    var parts: seq<string> := [];
    for i := 0 to |chunks|
      invariant parts == Parts(chunks[..i], overlap)
    {
      PartsNext(chunks, overlap, i);
      if parts != [] {
        var trimmed := TrimOverlap(parts[|parts| - 1], chunks[i], overlap);
        parts := parts + [trimmed];
      } else {
        parts := parts + [chunks[i]];
      }
    }
    assert chunks[..|chunks|] == chunks;
    text := Concat(parts);
  }

  // ---------------------------------------------------------------- superstring and length

  function LastPart(chunks: seq<string>, overlap: nat): string
    requires chunks != []
  {
    Parts(chunks, overlap)[|chunks| - 1]
  }

  lemma FirstChunkIsKept(chunks: seq<string>, overlap: nat)
    requires |chunks| == 1
    ensures Joined(chunks, overlap) == chunks[0]
  {
    assert Parts(chunks, overlap) == [chunks[0]];
    assert Concat([chunks[0]][..0]) == "";
  }

  lemma LaterChunkIsTrimmed(chunks: seq<string>, overlap: nat)
    requires |chunks| > 1
    ensures var before, chunk := chunks[..|chunks| - 1], chunks[|chunks| - 1];
            Joined(chunks, overlap) ==
                Joined(before, overlap) + chunk[Seam(LastPart(before, overlap), chunk, overlap)..]
  {
    var parts := Parts(chunks, overlap);
    assert parts[..|parts| - 1] == Parts(chunks[..|chunks| - 1], overlap);
  }

  lemma JoinedEndsWithItsLastPart(chunks: seq<string>, overlap: nat)
    requires chunks != []
    ensures EndsWith(Joined(chunks, overlap), LastPart(chunks, overlap))
  {
  }

  /** Appending a trimmed chunk to a text that ends with `part` leaves a text that ends with the chunk. */
  lemma TrimmedAppend(text: string, part: string, chunk: string, overlap: nat)
    requires EndsWith(text, part)
    ensures Seam(part, chunk, overlap) <= overlap
    ensures EndsWith(text + chunk[Seam(part, chunk, overlap)..], chunk)
  {
    var size := Seam(part, chunk, overlap);
    SeamUpToIsLongest(part, chunk, Limit(part, chunk, overlap));
    var whole := text + chunk[size..];
    assert text[|text| - size..] == part[|part| - size..] == chunk[..size];
    assert whole[|whole| - |chunk|..] == text[|text| - size..] + chunk[size..];
  }

  /** The text joined from the first chunks ends with the last of them. */
  lemma JoinedEndsWithItsLastChunk(chunks: seq<string>, overlap: nat)
    requires chunks != []
    ensures EndsWith(Joined(chunks, overlap), chunks[|chunks| - 1])
  {
    if |chunks| == 1 {
      FirstChunkIsKept(chunks, overlap);
    } else {
      var before := chunks[..|chunks| - 1];
      LaterChunkIsTrimmed(chunks, overlap);
      JoinedEndsWithItsLastPart(before, overlap);
      TrimmedAppend(Joined(before, overlap), LastPart(before, overlap), chunks[|chunks| - 1], overlap);
    }
  }

  lemma {:induction false} JoinedExtends(chunks: seq<string>, overlap: nat, k: nat)
    requires 0 < k <= |chunks|
    ensures Joined(chunks[..k], overlap) <= Joined(chunks, overlap)
    decreases |chunks|
  {
    if k == |chunks| {
      assert chunks[..k] == chunks;
    } else {
      LaterChunkIsTrimmed(chunks, overlap);
      assert chunks[..|chunks| - 1][..k] == chunks[..k];
      JoinedExtends(chunks[..|chunks| - 1], overlap, k);
    }
  }

  ghost predicate OccursAt(text: string, chunk: string, at: nat) {
    at + |chunk| <= |text| && text[at..at + |chunk|] == chunk
  }

  /** No chunk is lost: each occurs, whole and contiguous, in the rebuilt text. */
  lemma EveryChunkOccurs(chunks: seq<string>, overlap: nat, k: nat)
    requires k < |chunks|
    ensures exists at :: OccursAt(Joined(chunks, overlap), chunks[k], at)
  {
    var prefix := Joined(chunks[..k + 1], overlap);
    JoinedExtends(chunks, overlap, k + 1);
    JoinedEndsWithItsLastChunk(chunks[..k + 1], overlap);
    assert OccursAt(Joined(chunks, overlap), chunks[k], |prefix| - |chunks[k]|);
  }

  function TotalLength(chunks: seq<string>): nat {
    if chunks == [] then 0 else TotalLength(chunks[..|chunks| - 1]) + |chunks[|chunks| - 1]|
  }

  /** Each of the n - 1 seams costs at most one overlap. */
  lemma {:induction false} JoinedLength(chunks: seq<string>, overlap: nat)
    requires chunks != []
    ensures TotalLength(chunks) - (|chunks| - 1) * overlap <= |Joined(chunks, overlap)| <= TotalLength(chunks)
    decreases |chunks|
  {
    if |chunks| == 1 {
      FirstChunkIsKept(chunks, overlap);
      assert TotalLength(chunks[..0]) == 0;
    } else {
      var before, chunk := chunks[..|chunks| - 1], chunks[|chunks| - 1];
      LaterChunkIsTrimmed(chunks, overlap);
      JoinedLength(before, overlap);
      assert Seam(LastPart(before, overlap), chunk, overlap) <= overlap;
      OneMore(|before| - 1, overlap);
    }
  }

  lemma OneMore(n: int, m: nat)
    ensures (n + 1) * m == n * m + m
  {
  }

  // ---------------------------------------------------------------- the round trip

  /** A chunk as a window on its source. */
  datatype Window = Window(from: nat, to: nat)

  /** The windows cover the source from its start, each reaching further back than its predecessor's end
      or just to it. */
  ghost predicate Covers(source: string, windows: seq<Window>) {
    && (forall i :: 0 <= i < |windows| ==> windows[i].from <= windows[i].to <= |source|)
    && (windows != [] ==> windows[0].from == 0)
    && (forall i :: 0 < i < |windows| ==> windows[i].from <= windows[i - 1].to <= windows[i].to)
  }

  function Chunks(source: string, windows: seq<Window>): (chunks: seq<string>)
    requires forall i :: 0 <= i < |windows| ==> windows[i].from <= windows[i].to <= |source|
    ensures |chunks| == |windows|
            && forall i :: 0 <= i < |windows| ==> chunks[i] == source[windows[i].from..windows[i].to]
  {
    seq(|windows|, i requires 0 <= i < |windows| => source[windows[i].from..windows[i].to])
  }

  function Overlap(windows: seq<Window>, i: nat): int
    requires 0 < i < |windows|
  {
    windows[i - 1].to - windows[i].from
  }

  /** The seam taken at chunk `i` is the true overlap. */
  ghost predicate SeamIsTrue(source: string, windows: seq<Window>, overlap: nat, i: nat)
    requires Covers(source, windows) && 0 < i < |windows|
  {
    var chunks := Chunks(source, windows);
    Seam(LastPart(chunks[..i], overlap), chunks[i], overlap) == Overlap(windows, i)
  }

  /** What a caller can see at a seam: the overlap is within the bound, fits in the trimmed part before
      it, and no longer start of the chunk happens to match there. */
  ghost predicate SeamIsPlain(source: string, windows: seq<Window>, overlap: nat, i: nat)
    requires Covers(source, windows) && 0 < i < |windows|
  {
    var chunks := Chunks(source, windows);
    NothingLonger(LastPart(chunks[..i], overlap), chunks[i], overlap, Overlap(windows, i))
  }

  ghost predicate NothingLonger(part: string, chunk: string, overlap: nat, n: nat) {
    && n <= overlap && n <= |part|
    && forall m :: n < m <= Limit(part, chunk, overlap) ==> !EndsWith(part, chunk[..m])
  }

  ghost predicate RebuiltUpTo(source: string, windows: seq<Window>, overlap: nat, k: nat)
    requires Covers(source, windows) && 0 < k <= |windows|
  {
    Joined(Chunks(source, windows)[..k], overlap) == source[..windows[k - 1].to]
  }

  /** One seam: the text follows the source past it exactly if the seam is the true overlap. */
  lemma SeamDecides(source: string, windows: seq<Window>, overlap: nat, i: nat)
    requires Covers(source, windows) && 0 < i < |windows| && RebuiltUpTo(source, windows, overlap, i)
    ensures RebuiltUpTo(source, windows, overlap, i + 1) <==> SeamIsTrue(source, windows, overlap, i)
  {
    var chunks := Chunks(source, windows);
    assert chunks[..i + 1][..i] == chunks[..i];
    LaterChunkIsTrimmed(chunks[..i + 1], overlap);
    var size := Seam(LastPart(chunks[..i], overlap), chunks[i], overlap);
    AppendFromSource(source, windows[i].from, windows[i - 1].to, windows[i].to, size);
  }

  lemma AppendFromSource(source: string, from: nat, end: nat, to: nat, size: nat)
    requires from <= end <= to <= |source| && size <= to - from
    ensures source[..end] + source[from..to][size..] == source[..to] <==> size == end - from
  {
    if size == end - from {
      assert source[from..to][size..] == source[end..to];
      assert source[..end] + source[end..to] == source[..to];
    } else {
      assert |source[..end] + source[from..to][size..]| != |source[..to]|;
    }
  }

  lemma SeamIsLongestMatch(part: string, chunk: string, overlap: nat, n: nat)
    requires n <= |chunk| && (n <= |part| ==> EndsWith(part, chunk[..n]))
    ensures Seam(part, chunk, overlap) == n <==> NothingLonger(part, chunk, overlap, n)
  {
    SeamUpToIsLongest(part, chunk, Limit(part, chunk, overlap));
  }

  /** A true overlap that fits in the part before it is always a match. */
  lemma TrueOverlapMatches(source: string, from: nat, end: nat, to: nat, part: string)
    requires from <= end <= to <= |source| && EndsWith(source[..end], part) && end - from <= |part|
    ensures EndsWith(part, source[from..to][..end - from])
  {
    var n := end - from;
    assert part == source[end - |part|..end];
    assert part[|part| - n..] == source[from..end] == source[from..to][..n];
  }

  lemma SeamOfWindow(source: string, from: nat, end: nat, to: nat, part: string, overlap: nat)
    requires from <= end <= to <= |source| && EndsWith(source[..end], part)
    ensures Seam(part, source[from..to], overlap) == end - from <==>
            NothingLonger(part, source[from..to], overlap, end - from)
  {
    if end - from <= |part| {
      TrueOverlapMatches(source, from, end, to, part);
    }
    SeamIsLongestMatch(part, source[from..to], overlap, end - from);
  }

  /** And the seam is the true overlap exactly if it is plain. */
  lemma PlainSeamIsTrue(source: string, windows: seq<Window>, overlap: nat, i: nat)
    requires Covers(source, windows) && 0 < i < |windows| && RebuiltUpTo(source, windows, overlap, i)
    ensures SeamIsTrue(source, windows, overlap, i) <==> SeamIsPlain(source, windows, overlap, i)
  {
    var before := Chunks(source, windows)[..i];
    JoinedEndsWithItsLastPart(before, overlap);
    SeamOfWindow(source, windows[i].from, windows[i - 1].to, windows[i].to, LastPart(before, overlap), overlap);
  }

  ghost predicate RebuiltThrough(source: string, windows: seq<Window>, overlap: nat, k: nat)
    requires Covers(source, windows) && k <= |windows|
  {
    forall j :: 0 < j <= k ==> RebuiltUpTo(source, windows, overlap, j)
  }

  ghost predicate PlainThrough(source: string, windows: seq<Window>, overlap: nat, k: nat)
    requires Covers(source, windows) && k <= |windows|
  {
    forall i :: 0 < i < k ==> SeamIsPlain(source, windows, overlap, i)
  }

  lemma NextSeamDecides(source: string, windows: seq<Window>, overlap: nat, i: nat)
    requires Covers(source, windows) && 0 < i < |windows| && RebuiltUpTo(source, windows, overlap, i)
    ensures RebuiltUpTo(source, windows, overlap, i + 1) <==> SeamIsPlain(source, windows, overlap, i)
  {
    SeamDecides(source, windows, overlap, i);
    PlainSeamIsTrue(source, windows, overlap, i);
  }

  lemma FirstWindowIsRebuilt(source: string, windows: seq<Window>, overlap: nat)
    requires Covers(source, windows) && windows != []
    ensures RebuiltUpTo(source, windows, overlap, 1)
  {
    FirstChunkIsKept(Chunks(source, windows)[..1], overlap);
  }

  /** The round trip, exactly: the rebuilt text follows the source through every chunk if and only if
      every seam is plain. */
  lemma {:induction false} RoundTripIffSeamsArePlain(source: string, windows: seq<Window>, overlap: nat, k: nat)
    requires Covers(source, windows) && 0 < k <= |windows|
    ensures RebuiltThrough(source, windows, overlap, k) <==> PlainThrough(source, windows, overlap, k)
    decreases k
  {
    if k == 1 {
      FirstWindowIsRebuilt(source, windows, overlap);
    } else {
      RoundTripIffSeamsArePlain(source, windows, overlap, k - 1);
      if RebuiltThrough(source, windows, overlap, k - 1) {
        assert RebuiltUpTo(source, windows, overlap, k - 1);
        NextSeamDecides(source, windows, overlap, k - 1);
      }
    }
  }

  // In terms of the windows and the source alone.

  /** Where the text that only window `i - 1` brings begins: at the end of the window before it. */
  function NewTextStart(windows: seq<Window>, i: nat): nat
    requires 0 < i <= |windows|
  {
    if i == 1 then windows[0].from else windows[i - 2].to
  }

  predicate SameText(source: string, n: nat, a: nat, b: nat) {
    n <= a <= |source| && b + n <= |source| && source[a - n..a] == source[b..b + n]
  }

  /** The overlap is within the bound, the window does not reach back past what its predecessor brought,
      and no longer stretch before the seam repeats how the window begins. */
  ghost predicate SeamFits(source: string, windows: seq<Window>, overlap: nat, i: nat)
    requires Covers(source, windows) && 0 < i < |windows|
  {
    var start, seam := NewTextStart(windows, i), windows[i - 1].to;
    && Overlap(windows, i) <= overlap && start <= windows[i].from
    && forall n: nat :: Overlap(windows, i) < n <= Min(overlap, Min(seam - start, windows[i].to - windows[i].from)) ==>
         !SameText(source, n, seam, windows[i].from)
  }

  ghost predicate AllFit(source: string, windows: seq<Window>, overlap: nat, k: nat)
    requires Covers(source, windows) && k <= |windows|
  {
    forall i :: 0 < i < k ==> SeamFits(source, windows, overlap, i)
  }

  /** While the text follows the source, the part before a seam is what its window newly brought. */
  lemma PartIsNewText(source: string, windows: seq<Window>, overlap: nat, i: nat)
    requires Covers(source, windows) && 0 < i <= |windows| && RebuiltThrough(source, windows, overlap, i)
    ensures NewTextStart(windows, i) <= windows[i - 1].to
    ensures LastPart(Chunks(source, windows)[..i], overlap) == source[NewTextStart(windows, i)..windows[i - 1].to]
  {
    var chunks := Chunks(source, windows);
    assert RebuiltUpTo(source, windows, overlap, i);
    if i == 1 {
      FirstChunkIsKept(chunks[..1], overlap);
      assert chunks[..1][..0] == [];
    } else {
      assert RebuiltUpTo(source, windows, overlap, i - 1);
      assert chunks[..i][..i - 1] == chunks[..i - 1];
      LaterChunkIsTrimmed(chunks[..i], overlap);
      assert source[..windows[i - 1].to][windows[i - 2].to..] == source[windows[i - 2].to..windows[i - 1].to];
    }
  }

  lemma MatchIsSameText(source: string, start: nat, seam: nat, from: nat, to: nat, n: nat)
    requires start <= seam <= |source| && from <= to <= |source| && n <= seam - start && n <= to - from
    ensures EndsWith(source[start..seam], source[from..to][..n]) <==> SameText(source, n, seam, from)
  {
    assert source[start..seam][seam - start - n..] == source[seam - n..seam];
    assert source[from..to][..n] == source[from..from + n];
  }

  lemma PlainSeamFits(source: string, windows: seq<Window>, overlap: nat, i: nat)
    requires Covers(source, windows) && 0 < i < |windows| && RebuiltThrough(source, windows, overlap, i)
    ensures SeamIsPlain(source, windows, overlap, i) <==> SeamFits(source, windows, overlap, i)
  {
    PartIsNewText(source, windows, overlap, i);
    var start, seam, w := NewTextStart(windows, i), windows[i - 1].to, windows[i];
    var part, chunk := LastPart(Chunks(source, windows)[..i], overlap), Chunks(source, windows)[i];
    assert |part| == seam - start && |chunk| == w.to - w.from;
    forall n: nat | n <= Limit(part, chunk, overlap)
      ensures EndsWith(part, chunk[..n]) <==> SameText(source, n, seam, w.from)
    {
      MatchIsSameText(source, start, seam, w.from, w.to, n);
    }
  }

  lemma NextWindowDecides(source: string, windows: seq<Window>, overlap: nat, i: nat)
    requires Covers(source, windows) && 0 < i < |windows| && RebuiltThrough(source, windows, overlap, i)
    ensures RebuiltUpTo(source, windows, overlap, i + 1) <==> SeamFits(source, windows, overlap, i)
  {
    assert RebuiltUpTo(source, windows, overlap, i);
    NextSeamDecides(source, windows, overlap, i);
    PlainSeamFits(source, windows, overlap, i);
  }

  lemma OneSeamFurther(source: string, windows: seq<Window>, overlap: nat, i: nat)
    requires Covers(source, windows) && 0 < i < |windows|
    ensures RebuiltThrough(source, windows, overlap, i + 1) <==>
            RebuiltThrough(source, windows, overlap, i) && RebuiltUpTo(source, windows, overlap, i + 1)
    ensures AllFit(source, windows, overlap, i + 1) <==>
            AllFit(source, windows, overlap, i) && SeamFits(source, windows, overlap, i)
  {
  }

  /** The round trip, exactly: the rebuilt text follows the source through every chunk if and only if every
      overlap is within the bound, no window reaches back past its predecessor's new text, and no longer
      repetition stands at a seam. */
  lemma {:induction false} RoundTripIffWindowsFit(source: string, windows: seq<Window>, overlap: nat, k: nat)
    requires Covers(source, windows) && 0 < k <= |windows|
    ensures RebuiltThrough(source, windows, overlap, k) <==> AllFit(source, windows, overlap, k)
    decreases k
  {
    if k == 1 {
      FirstWindowIsRebuilt(source, windows, overlap);
    } else {
      RoundTripIffWindowsFit(source, windows, overlap, k - 1);
      OneSeamFurther(source, windows, overlap, k - 1);
      if RebuiltThrough(source, windows, overlap, k - 1) {
        NextWindowDecides(source, windows, overlap, k - 1);
      }
    }
  }

  /** So a file whose windows fit comes back whole. */
  lemma FittingWindowsRoundTrip(source: string, windows: seq<Window>, overlap: nat)
    requires Covers(source, windows) && windows != [] && windows[|windows| - 1].to == |source|
    requires AllFit(source, windows, overlap, |windows|)
    ensures Joined(Chunks(source, windows), overlap) == source
  {
    RoundTripIffWindowsFit(source, windows, overlap, |windows|);
    assert RebuiltUpTo(source, windows, overlap, |windows|);
    assert Chunks(source, windows)[..|windows|] == Chunks(source, windows);
    assert source[..|source|] == source;
  }

  predicate AllAs(s: string, n: nat) {
    |s| == n && forall i :: 0 <= i < n ==> s[i] == 'a'
  }

  lemma SeamOfRepeats(part: string, chunk: string)
    requires AllAs(part, |part|) && AllAs(chunk, |chunk|) && part != "" && chunk != ""
    ensures Seam(part, chunk, 1) == 1
  {
    assert part[|part| - 1..] == [part[|part| - 1]] == [chunk[0]] == chunk[..1];
  }

  lemma ThreeChunks(chunks: seq<string>, overlap: nat)
    requires |chunks| == 3
    ensures var second := chunks[1][Seam(chunks[0], chunks[1], overlap)..];
            && Joined(chunks[..2], overlap) == chunks[0] + second
            && Joined(chunks, overlap) == chunks[0] + second + chunks[2][Seam(second, chunks[2], overlap)..]
  {
    assert chunks[..2][0] == chunks[0] && chunks[..2][1] == chunks[1];
    TwoChunks(chunks[..2], overlap);
    LaterChunkIsTrimmed(chunks, overlap);
  }

  lemma AsAppend(a: string, b: string, m: nat, n: nat)
    requires AllAs(a, m) && AllAs(b, n)
    ensures AllAs(a + b, m + n)
  {
  }

  lemma RepeatsJoin(chunks: seq<string>)
    requires |chunks| == 3 && AllAs(chunks[0], 2) && AllAs(chunks[1], 2) && AllAs(chunks[2], 3)
    ensures AllAs(Joined(chunks[..2], 1), 3) && AllAs(Joined(chunks, 1), 5)
  {
    var second, third := chunks[1][1..], chunks[2][1..];
    SeamOfRepeats(chunks[0], chunks[1]);
    SeamOfRepeats(second, chunks[2]);
    ThreeChunks(chunks, 1);
    AsAppend(chunks[0], second, 2, 1);
    AsAppend(chunks[0] + second, third, 3, 2);
  }

  lemma ChunksOfRepeats(source: string, windows: seq<Window>)
    requires AllAs(source, 5) && windows == [Window(0, 2), Window(2, 4), Window(2, 5)]
    ensures Covers(source, windows)
    ensures var chunks := Chunks(source, windows);
            |chunks| == 3 && AllAs(chunks[0], 2) && AllAs(chunks[1], 2) && AllAs(chunks[2], 3)
  {
  }

  lemma RepeatsAreOne(a: string, b: string, n: nat)
    requires AllAs(a, n) && AllAs(b, n)
    ensures a == b
  {
  }

  /** The converse is about every chunk and not the whole alone: in a text of repeats one seam can take a
      character too many and a later one leave a character too many. */
  lemma FaultsCanCancel(source: string, windows: seq<Window>)
    requires AllAs(source, 5) && windows == [Window(0, 2), Window(2, 4), Window(2, 5)]
    ensures Covers(source, windows) && Joined(Chunks(source, windows), 1) == source
    ensures !RebuiltUpTo(source, windows, 1, 2)
  {
    ChunksOfRepeats(source, windows);
    RepeatsJoin(Chunks(source, windows));
    RepeatsAreOne(Joined(Chunks(source, windows), 1), source, 5);
    assert |Joined(Chunks(source, windows)[..2], 1)| == 3 && |source[..windows[1].to]| == 4;
  }

  /** An overlap longer than the trimmed part before it cannot be recovered. */
  lemma UnfitOverlapBreaks(source: string, windows: seq<Window>, overlap: nat, i: nat)
    requires Covers(source, windows) && 0 < i < |windows| && RebuiltUpTo(source, windows, overlap, i)
    requires Overlap(windows, i) > |LastPart(Chunks(source, windows)[..i], overlap)|
    ensures !RebuiltUpTo(source, windows, overlap, i + 1)
  {
    PlainSeamIsTrue(source, windows, overlap, i);
    SeamDecides(source, windows, overlap, i);
  }

  lemma TwoChunks(chunks: seq<string>, overlap: nat)
    requires |chunks| == 2
    ensures LastPart(chunks, overlap) == chunks[1][Seam(chunks[0], chunks[1], overlap)..]
    ensures Joined(chunks, overlap) == chunks[0] + chunks[1][Seam(chunks[0], chunks[1], overlap)..]
  {
    FirstChunkIsKept(chunks[..1], overlap);
    LaterChunkIsTrimmed(chunks, overlap);
    assert LastPart(chunks[..1], overlap) == chunks[0];
  }

  lemma SeamOfTwo(a: string, b: string)
    requires a == "abc" && b == "bcd"
    ensures Seam(a, b, 3) == 2
  {
    assert a[1..] == b[..2];
    assert a[0] != b[0];
    SeamIsLongestMatch(a, b, 3, 2);
  }

  lemma SecondWindowOfThree(chunks: seq<string>)
    requires |chunks| == 3 && chunks[0] == "abc" && chunks[1] == "bcd"
    ensures Joined(chunks[..2], 3) == "abcd" && |LastPart(chunks[..2], 3)| == 1
  {
    SeamOfTwo(chunks[0], chunks[1]);
    TwoChunks(chunks[..2], 3);
  }

  lemma ThreeWindows(source: string, windows: seq<Window>)
    requires source == "abcde" && windows == [Window(0, 3), Window(1, 4), Window(2, 5)]
    ensures Covers(source, windows)
    ensures Chunks(source, windows)[0] == "abc" && Chunks(source, windows)[1] == "bcd"
    ensures source[..4] == "abcd"
  {
    assert source[0..3] == [source[0], source[1], source[2]] == "abc";
    assert source[1..4] == [source[1], source[2], source[3]] == "bcd";
    assert source[..4] == [source[0], source[1], source[2], source[3]] == "abcd";
  }

  /** The bound on the search is the trimmed part, not the chunk: chunks that advance by less than their
      overlap are not rejoined. */
  lemma ShortStepsDoNotRoundTrip(source: string, windows: seq<Window>)
    requires source == "abcde" && windows == [Window(0, 3), Window(1, 4), Window(2, 5)]
    ensures Covers(source, windows) && !RebuiltUpTo(source, windows, 3, 3)
  {
    ThreeWindows(source, windows);
    SecondWindowOfThree(Chunks(source, windows));
    assert RebuiltUpTo(source, windows, 3, 2);
    UnfitOverlapBreaks(source, windows, 3, 2);
  }

  // ---------------------------------------------------------------- whole files

  datatype Payload = Payload(path: string, index: int, startLine: int, endLine: int, language: Option<string>,
      content: string)

  datatype ModuleFile = ModuleFile(path: string, language: string, text: string, startLine: int, endLine: int,
      partial: bool)

  datatype ModuleSource = ModuleSource(files: seq<ModuleFile>, partialPaths: seq<string>)

  const PathOf: Payload -> string := (p: Payload) => p.path
  const ByIndex: Payload -> seq<int> := (p: Payload) => [p.index]

  function Contents(chunks: seq<Payload>): (r: seq<string>)
    ensures |r| == |chunks|
  {
    seq(|chunks|, i requires 0 <= i < |chunks| => chunks[i].content)
  }

  /** `_is_contiguous` of chunks already ordered by index. */
  predicate Contiguous(chunks: seq<Payload>) {
    forall i :: 0 <= i < |chunks| ==> chunks[i].index == i
  }

  function FirstLine(chunks: seq<Payload>): int
    requires chunks != []
  {
    if |chunks| == 1 then chunks[0].startLine else Min(chunks[0].startLine, FirstLine(chunks[1..]))
  }

  function LastLine(chunks: seq<Payload>): int
    requires chunks != []
  {
    if |chunks| == 1 then chunks[0].endLine
    else if LastLine(chunks[1..]) < chunks[0].endLine then chunks[0].endLine else LastLine(chunks[1..])
  }

  /** The file's range spans every chunk's, and no more, whatever order the lines come in. */
  lemma {:induction false} RangeSpansChunks(chunks: seq<Payload>) returns (first: nat, last: nat)
    requires chunks != []
    ensures first < |chunks| && chunks[first].startLine == FirstLine(chunks)
    ensures last < |chunks| && chunks[last].endLine == LastLine(chunks)
    ensures forall i :: 0 <= i < |chunks| ==>
            FirstLine(chunks) <= chunks[i].startLine && chunks[i].endLine <= LastLine(chunks)
  {
    first, last := 0, 0;
    if |chunks| > 1 {
      var f, l := RangeSpansChunks(chunks[1..]);
      assert forall k :: 0 < k < |chunks| ==> chunks[k] == chunks[1..][k - 1];
      if FirstLine(chunks) != chunks[0].startLine { first := f + 1; }
      if LastLine(chunks) != chunks[0].endLine { last := l + 1; }
    }
  }

  function FileOf(path: string, group: seq<Payload>, overlap: nat): ModuleFile
    requires group != []
  {
    SortedSorts(group, ByIndex);
    var chunks := Sorted(group, ByIndex);
    var language := chunks[0].language;
    ModuleFile(path, if language.Some? && language.value != "" then language.value else "text",
               Joined(Contents(chunks), overlap), FirstLine(chunks), LastLine(chunks), !Contiguous(chunks))
  }

  ghost predicate AllHaveChunks(payloads: seq<Payload>, paths: seq<string>) {
    forall i :: 0 <= i < |paths| ==> Having(payloads, PathOf, paths[i]) != []
  }

  ghost function FilesOf(payloads: seq<Payload>, paths: seq<string>, overlap: nat): (files: seq<ModuleFile>)
    requires AllHaveChunks(payloads, paths)
    ensures |files| == |paths|
    ensures forall i :: 0 <= i < |paths| ==> files[i] == FileOf(paths[i], Having(payloads, PathOf, paths[i]), overlap)
  {
    seq(|paths|, i requires 0 <= i < |paths| => FileOf(paths[i], Having(payloads, PathOf, paths[i]), overlap))
  }

  function PartialPaths(files: seq<ModuleFile>): seq<string> {
    if files == [] then []
    else PartialPaths(files[..|files| - 1]) + (if files[|files| - 1].partial then [files[|files| - 1].path] else [])
  }

  lemma EveryPathHasChunks(payloads: seq<Payload>)
    ensures AllHaveChunks(payloads, Sorted(FirstSeen(payloads, PathOf), Points))
  {
    var paths := Sorted(FirstSeen(payloads, PathOf), Points);
    forall i | 0 <= i < |paths| ensures Having(payloads, PathOf, paths[i]) != [] {
      SortedHasSameElements(FirstSeen(payloads, PathOf), Points, paths[i]);
      FirstSeenHasNames(payloads, PathOf, paths[i]);
      var p :| p in payloads && PathOf(p) == paths[i];
      HavingSelects(payloads, PathOf, paths[i], p);
    }
  }

  ghost function Rebuilt(payloads: seq<Payload>, overlap: nat): ModuleSource {
    EveryPathHasChunks(payloads);
    var files := FilesOf(payloads, Sorted(FirstSeen(payloads, PathOf), Points), overlap);
    ModuleSource(files, PartialPaths(files))
  }

  lemma PartialPathsNext(files: seq<ModuleFile>, file: ModuleFile)
    ensures PartialPaths(files + [file]) == PartialPaths(files) + (if file.partial then [file.path] else [])
  {
    assert (files + [file])[..|files|] == files;
  }

  ghost predicate IsFileOf(file: ModuleFile, grouped: map<string, seq<Payload>>, path: string, overlap: nat) {
    path in grouped && grouped[path] != [] && file == FileOf(path, grouped[path], overlap)
  }

  ghost predicate BuiltFrom(files: seq<ModuleFile>, grouped: map<string, seq<Payload>>, paths: seq<string>,
      overlap: nat) {
    && |files| == |paths|
    && forall i :: 0 <= i < |paths| ==> IsFileOf(files[i], grouped, paths[i], overlap)
  }

  lemma BuiltFromNext(files: seq<ModuleFile>, file: ModuleFile, grouped: map<string, seq<Payload>>,
                      paths: seq<string>, i: nat, overlap: nat)
    requires i < |paths| && BuiltFrom(files, grouped, paths[..i], overlap)
    requires IsFileOf(file, grouped, paths[i], overlap)
    ensures BuiltFrom(files + [file], grouped, paths[..i + 1], overlap)
  {
    forall j | 0 <= j <= i ensures IsFileOf((files + [file])[j], grouped, paths[..i + 1][j], overlap) {
      if j < i {
        assert paths[..i][j] == paths[j];
      }
    }
  }

  /** The second loop of `rebuild_files`: one file per path, the gapped ones named. */
  method BuildFiles(grouped: map<string, seq<Payload>>, paths: seq<string>, overlap: nat)
    returns (files: seq<ModuleFile>, partialPaths: seq<string>)
    requires forall path :: path in paths ==> path in grouped && grouped[path] != []
    ensures BuiltFrom(files, grouped, paths, overlap) && partialPaths == PartialPaths(files)
  {
    files, partialPaths := [], [];
    for i := 0 to |paths|
      invariant BuiltFrom(files, grouped, paths[..i], overlap) && partialPaths == PartialPaths(files)
    {
      var path := paths[i];
      assert path in paths;
      var file := BuildFile(path, grouped[path], overlap);
      PartialPathsNext(files, file);
      BuiltFromNext(files, file, grouped, paths, i, overlap);
      if file.partial {
        partialPaths := partialPaths + [path];
      }
      files := files + [file];
    }
    assert paths[..|paths|] == paths;
  }

  /** `rebuild_files`. */
  method RebuildFiles(payloads: seq<Payload>, overlap: nat) returns (source: ModuleSource)
    ensures source == Rebuilt(payloads, overlap)
    ensures IsRightSource(source, payloads, overlap)
  {
    var grouped, order := Group(payloads, PathOf);
    var paths := Sorted(order, Points);
    EveryPathHasChunks(payloads);
    forall path | path in paths ensures path in grouped && grouped[path] != [] {
      SortedHasSameElements(order, Points, path);
      var i :| 0 <= i < |paths| && paths[i] == path;
    }
    var files, partialPaths := BuildFiles(grouped, paths, overlap);
    assert files == FilesOf(payloads, paths, overlap);
    source := ModuleSource(files, partialPaths);
    RebuiltIsRight(payloads, overlap);
  }

  lemma NamesAreStrict(payloads: seq<Payload>)
    ensures StrictlyAscending(Sorted(FirstSeen(payloads, PathOf), Points), Points)
  {
    FirstSeenIsDistinct(payloads, PathOf);
    NamesAreDistinctKeys(FirstSeen(payloads, PathOf));
    SortedIsStrict(FirstSeen(payloads, PathOf), Points);
  }

  method BuildFile(path: string, group: seq<Payload>, overlap: nat) returns (file: ModuleFile)
    requires group != []
    ensures file == FileOf(path, group, overlap) && file.path == path
  {
    SortedSorts(group, ByIndex);
    var chunks := Sorted(group, ByIndex);
    var text := Join(Contents(chunks), overlap);
    var language := if chunks[0].language.Some? && chunks[0].language.value != "" then chunks[0].language.value
        else "text";
    file := ModuleFile(path, language, text, FirstLine(chunks), LastLine(chunks), !Contiguous(chunks));
  }

  /** No two chunks of one file carry the same index. */
  ghost predicate DistinctIndexes(payloads: seq<Payload>) {
    forall i, j :: 0 <= i < j < |payloads| && PathOf(payloads[i]) == PathOf(payloads[j]) ==>
        ByIndex(payloads[i]) != ByIndex(payloads[j])
  }

  /** The store's scroll order does not matter. */
  lemma RebuildForgetsOrder(p: seq<Payload>, q: seq<Payload>, overlap: nat)
    requires multiset(p) == multiset(q) && DistinctIndexes(p) && DistinctIndexes(q)
    ensures Rebuilt(p, overlap) == Rebuilt(q, overlap)
  {
    EveryPathHasChunks(p);
    EveryPathHasChunks(q);
    NamesForgetOrder(p, q, PathOf);
    FilesForgetOrder(p, q, Sorted(FirstSeen(p, PathOf), Points), overlap);
  }

  lemma FilesForgetOrder(p: seq<Payload>, q: seq<Payload>, paths: seq<string>, overlap: nat)
    requires multiset(p) == multiset(q) && DistinctIndexes(p) && DistinctIndexes(q)
    requires AllHaveChunks(p, paths) && AllHaveChunks(q, paths)
    ensures FilesOf(p, paths, overlap) == FilesOf(q, paths, overlap)
  {
    forall i | 0 <= i < |paths| ensures FilesOf(p, paths, overlap)[i] == FilesOf(q, paths, overlap)[i] {
      FileForgetsOrder(p, q, paths[i], overlap);
    }
  }

  lemma FileForgetsOrder(p: seq<Payload>, q: seq<Payload>, path: string, overlap: nat)
    requires multiset(p) == multiset(q) && DistinctIndexes(p) && DistinctIndexes(q)
    requires Having(p, PathOf, path) != [] && Having(q, PathOf, path) != []
    ensures FileOf(path, Having(p, PathOf, path), overlap) == FileOf(path, Having(q, PathOf, path), overlap)
  {
    HavingPermutes(p, q, PathOf, path);
    HavingKeepsDistinct(p, PathOf, path, ByIndex);
    HavingKeepsDistinct(q, PathOf, path, ByIndex);
    SortForgetsOrder(Having(p, PathOf, path), Having(q, PathOf, path), ByIndex);
  }

  ghost predicate HasIndex(chunks: seq<Payload>, k: int) {
    exists p :: p in chunks && p.index == k
  }

  ghost predicate IndexesAscend(chunks: seq<Payload>) {
    forall i, j :: 0 <= i < j < |chunks| ==> chunks[i].index <= chunks[j].index
  }

  lemma {:induction false} IndexSitsNoEarlier(chunks: seq<Payload>, k: nat, at: nat)
    requires IndexesAscend(chunks) && at < |chunks| && chunks[at].index == k
    requires forall i :: 0 <= i < k ==> HasIndex(chunks, i)
    ensures k <= at
  {
    if k > 0 {
      assert HasIndex(chunks, k - 1);
      var before :| 0 <= before < |chunks| && chunks[before].index == k - 1;
      IndexSitsNoEarlier(chunks, k - 1, before);
      assert before < at;
    }
  }

  lemma {:induction false} IndexSitsAtItsPlace(chunks: seq<Payload>, k: nat)
    requires IndexesAscend(chunks) && k < |chunks|
    requires forall i :: 0 <= i < |chunks| ==> HasIndex(chunks, i)
    ensures chunks[k].index == k
    decreases |chunks| - k
  {
    assert HasIndex(chunks, k);
    var at :| 0 <= at < |chunks| && chunks[at].index == k;
    IndexSitsNoEarlier(chunks, k, at);
    if k + 1 < |chunks| {
      IndexSitsAtItsPlace(chunks, k + 1);
    }
  }

  lemma ContiguousIffNoGap(chunks: seq<Payload>)
    requires IndexesAscend(chunks)
    ensures Contiguous(chunks) <==> forall k :: 0 <= k < |chunks| ==> HasIndex(chunks, k)
  {
    if Contiguous(chunks) {
      forall k | 0 <= k < |chunks| ensures HasIndex(chunks, k) {
        assert chunks[k] in chunks;
      }
    } else if forall k :: 0 <= k < |chunks| ==> HasIndex(chunks, k) {
      forall k | 0 <= k < |chunks| ensures chunks[k].index == k {
        IndexSitsAtItsPlace(chunks, k);
      }
    }
  }

  lemma SortedByIndexAscends(group: seq<Payload>)
    ensures IndexesAscend(Sorted(group, ByIndex)) && multiset(Sorted(group, ByIndex)) == multiset(group)
  {
    var chunks := Sorted(group, ByIndex);
    SortedSorts(group, ByIndex);
    forall i, j | 0 <= i < j < |chunks| ensures chunks[i].index <= chunks[j].index {
      assert !Less(ByIndex(chunks[j]), ByIndex(chunks[i]));
    }
  }

  /** A file is reported whole exactly when no index below its chunk count is missing. */
  lemma PartialIffGap(path: string, group: seq<Payload>, overlap: nat)
    requires group != []
    ensures !FileOf(path, group, overlap).partial <==> forall k :: 0 <= k < |group| ==> HasIndex(group, k)
  {
    var chunks := Sorted(group, ByIndex);
    SortedSorts(group, ByIndex);
    SortedByIndexAscends(group);
    forall k ensures HasIndex(chunks, k) <==> HasIndex(group, k) {
      forall p ensures p in chunks <==> p in group {
        SortedHasSameElements(group, ByIndex, p);
      }
    }
    ContiguousIffNoGap(chunks);
  }

  // ---------------------------------------------------------------- what a rebuilt file is

  /** A chunk of the file, as the store holds it. */
  predicate IsChunkOf(p: Payload, path: string, payloads: seq<Payload>) {
    p in payloads && p.path == path
  }

  /** The chunks of one path, all of them, by ascending index. */
  ghost predicate OrderOf(order: seq<Payload>, path: string, payloads: seq<Payload>) {
    multiset(order) == multiset(Having(payloads, PathOf, path)) && IndexesAscend(order)
  }

  /** The text is their join, as long as they are together less an overlap at most for each seam. */
  ghost predicate JoinsItsChunks(file: ModuleFile, order: seq<Payload>, overlap: nat) {
    && order != [] && file.text == Joined(Contents(order), overlap)
    && TotalLength(Contents(order)) - (|order| - 1) * overlap <= |file.text| <= TotalLength(Contents(order))
  }

  /** The text holds every chunk whole, and ends with one of the highest index. */
  ghost predicate TextIsRight(file: ModuleFile, payloads: seq<Payload>) {
    && (forall p :: IsChunkOf(p, file.path, payloads) ==> Occurs(file.text, p.content))
    && (exists p :: IsLast(p, file.path, payloads) && EndsWith(file.text, p.content))
  }

  ghost predicate Occurs(text: string, content: string) {
    exists at :: OccursAt(text, content, at)
  }

  ghost predicate IsFirst(p: Payload, path: string, payloads: seq<Payload>) {
    IsChunkOf(p, path, payloads) && forall q :: IsChunkOf(q, path, payloads) ==> p.index <= q.index
  }

  ghost predicate IsLast(p: Payload, path: string, payloads: seq<Payload>) {
    IsChunkOf(p, path, payloads) && forall q :: IsChunkOf(q, path, payloads) ==> q.index <= p.index
  }

  /** The lines span the chunks' and no more; the language is the first chunk's, or text; the file is partial
      exactly when an index below the number of its chunks is missing. */
  ghost predicate RestIsRight(file: ModuleFile, payloads: seq<Payload>) {
    && (forall p :: IsChunkOf(p, file.path, payloads) ==> file.startLine <= p.startLine && p.endLine <= file.endLine)
    && (exists p :: IsChunkOf(p, file.path, payloads) && p.startLine == file.startLine)
    && (exists p :: IsChunkOf(p, file.path, payloads) && p.endLine == file.endLine)
    && SpeaksAsItsFirst(file, payloads)
    && (file.partial <==> exists k :: IsMissing(k, file.path, payloads))
  }

  ghost predicate SpeaksAsItsFirst(file: ModuleFile, payloads: seq<Payload>) {
    exists p :: IsFirst(p, file.path, payloads)
                && file.language == if p.language == None || p.language == Some("") then "text" else p.language.value
  }

  ghost predicate IsMissing(k: int, path: string, payloads: seq<Payload>) {
    0 <= k < |Having(payloads, PathOf, path)| && forall p :: IsChunkOf(p, path, payloads) ==> p.index != k
  }

  ghost predicate IsJoined(file: ModuleFile, payloads: seq<Payload>, overlap: nat) {
    exists order :: OrderOf(order, file.path, payloads) && JoinsItsChunks(file, order, overlap)
  }

  ghost predicate IsRight(file: ModuleFile, payloads: seq<Payload>, overlap: nat) {
    IsJoined(file, payloads, overlap) && TextIsRight(file, payloads) && RestIsRight(file, payloads)
  }

  lemma ChunksAreHaving(order: seq<Payload>, path: string, payloads: seq<Payload>, p: Payload)
    requires multiset(order) == multiset(Having(payloads, PathOf, path))
    ensures p in order <==> IsChunkOf(p, path, payloads)
  {
    HavingSelects(payloads, PathOf, path, p);
    assert p in order <==> p in multiset(order);
    assert p in Having(payloads, PathOf, path) <==> p in multiset(Having(payloads, PathOf, path));
  }

  lemma JoinedTextIsRight(file: ModuleFile, payloads: seq<Payload>, overlap: nat, order: seq<Payload>)
    requires OrderOf(order, file.path, payloads) && order != [] && file.text == Joined(Contents(order), overlap)
    ensures TextIsRight(file, payloads) && JoinsItsChunks(file, order, overlap)
  {
    var contents, last := Contents(order), order[|order| - 1];
    forall p ensures p in order <==> IsChunkOf(p, file.path, payloads) {
      ChunksAreHaving(order, file.path, payloads, p);
    }
    forall p | IsChunkOf(p, file.path, payloads) ensures Occurs(file.text, p.content) {
      var k :| 0 <= k < |order| && order[k] == p;
      EveryChunkOccurs(contents, overlap, k);
    }
    JoinedEndsWithItsLastChunk(contents, overlap);
    assert IsLast(last, file.path, payloads);
    JoinedLength(contents, overlap);
  }

  lemma SortedIsAnOrder(path: string, payloads: seq<Payload>)
    ensures OrderOf(Sorted(Having(payloads, PathOf, path), ByIndex), path, payloads)
    ensures forall p :: p in Sorted(Having(payloads, PathOf, path), ByIndex) <==> IsChunkOf(p, path, payloads)
  {
    var group := Having(payloads, PathOf, path);
    SortedByIndexAscends(group);
    forall p ensures p in Sorted(group, ByIndex) <==> IsChunkOf(p, path, payloads) {
      ChunksAreHaving(Sorted(group, ByIndex), path, payloads, p);
    }
  }

  lemma LinesAreRight(path: string, payloads: seq<Payload>, overlap: nat)
    requires Having(payloads, PathOf, path) != []
    ensures var file := FileOf(path, Having(payloads, PathOf, path), overlap);
            && (forall p :: IsChunkOf(p, path, payloads) ==> file.startLine <= p.startLine && p.endLine <= file.endLine)
            && (exists p :: IsChunkOf(p, path, payloads) && p.startLine == file.startLine)
            && (exists p :: IsChunkOf(p, path, payloads) && p.endLine == file.endLine)
  {
    var chunks := Sorted(Having(payloads, PathOf, path), ByIndex);
    SortedIsAnOrder(path, payloads);
    SortedSorts(Having(payloads, PathOf, path), ByIndex);
    var first, last := RangeSpansChunks(chunks);
    assert chunks[first] in chunks && chunks[last] in chunks;
  }

  lemma GapIsRight(path: string, payloads: seq<Payload>, overlap: nat)
    requires Having(payloads, PathOf, path) != []
    ensures FileOf(path, Having(payloads, PathOf, path), overlap).partial <==>
            exists k :: IsMissing(k, path, payloads)
  {
    var group := Having(payloads, PathOf, path);
    PartialIffGap(path, group, overlap);
    forall p ensures p in group <==> IsChunkOf(p, path, payloads) {
      HavingSelects(payloads, PathOf, path, p);
    }
    forall k | 0 <= k < |group| ensures HasIndex(group, k) <==> !IsMissing(k, path, payloads) {
      if !IsMissing(k, path, payloads) {
        var p :| IsChunkOf(p, path, payloads) && p.index == k;
        assert p in group;
      }
    }
  }

  lemma FileIsRight(path: string, payloads: seq<Payload>, overlap: nat)
    requires Having(payloads, PathOf, path) != []
    ensures IsRight(FileOf(path, Having(payloads, PathOf, path), overlap), payloads, overlap)
  {
    var file := FileOf(path, Having(payloads, PathOf, path), overlap);
    var chunks := Sorted(Having(payloads, PathOf, path), ByIndex);
    SortedSorts(Having(payloads, PathOf, path), ByIndex);
    SortedIsAnOrder(path, payloads);
    JoinedTextIsRight(file, payloads, overlap, chunks);
    LinesAreRight(path, payloads, overlap);
    GapIsRight(path, payloads, overlap);
    LanguageIsRight(path, payloads, overlap);
  }

  lemma LanguageIsRight(path: string, payloads: seq<Payload>, overlap: nat)
    requires Having(payloads, PathOf, path) != []
    ensures SpeaksAsItsFirst(FileOf(path, Having(payloads, PathOf, path), overlap), payloads)
  {
    var chunks := Sorted(Having(payloads, PathOf, path), ByIndex);
    SortedSorts(Having(payloads, PathOf, path), ByIndex);
    SortedIsAnOrder(path, payloads);
    assert chunks[0] in chunks;
    forall q | IsChunkOf(q, path, payloads) ensures chunks[0].index <= q.index {
      assert q in chunks;
    }
    assert IsFirst(chunks[0], path, payloads);
  }

  ghost predicate IndexesAreDistinct(order: seq<Payload>) {
    forall i, j :: 0 <= i < j < |order| ==> order[i].index < order[j].index
  }

  /** With one chunk for each index, the text is the join of the chunks by index. */
  lemma JoinIsDetermined(file: ModuleFile, payloads: seq<Payload>, overlap: nat, order: seq<Payload>)
    requires IsJoined(file, payloads, overlap) && OrderOf(order, file.path, payloads) && IndexesAreDistinct(order)
    ensures file.text == Joined(Contents(order), overlap)
  {
    var joined :| OrderOf(joined, file.path, payloads) && JoinsItsChunks(file, joined, overlap);
    assert StrictlyAscending(order, ByIndex);
    assert Ascending(joined, ByIndex);
    AscendingIsUnique(order, joined, ByIndex);
  }

  /** A file whose chunks are fitting windows of a source, one for each index, comes back as that source. */
  lemma FittingFileComesBack(file: ModuleFile, payloads: seq<Payload>, overlap: nat, order: seq<Payload>,
                             source: string, windows: seq<Window>)
    requires IsJoined(file, payloads, overlap) && OrderOf(order, file.path, payloads) && IndexesAreDistinct(order)
    requires Covers(source, windows) && windows != [] && windows[|windows| - 1].to == |source|
    requires Contents(order) == Chunks(source, windows) && AllFit(source, windows, overlap, |windows|)
    ensures file.text == source
  {
    JoinIsDetermined(file, payloads, overlap, order);
    FittingWindowsRoundTrip(source, windows, overlap);
  }

  ghost predicate HasFile(files: seq<ModuleFile>, path: string) {
    exists i :: 0 <= i < |files| && files[i].path == path
  }

  ghost predicate HasPartialFile(files: seq<ModuleFile>, path: string) {
    exists i :: 0 <= i < |files| && files[i].path == path && files[i].partial
  }

  lemma {:induction false} PartialPathsAre(files: seq<ModuleFile>, path: string)
    ensures path in PartialPaths(files) <==> HasPartialFile(files, path)
    decreases |files|
  {
    if files != [] {
      var b, last := files[..|files| - 1], files[|files| - 1];
      PartialPathsAre(b, path);
      if i :| 0 <= i < |b| && b[i].path == path && b[i].partial {
        assert files[i].path == path && files[i].partial;
      }
    }
  }

  ghost predicate HasChunks(path: string, payloads: seq<Payload>) {
    exists p :: IsChunkOf(p, path, payloads)
  }

  /** One file for each path that has chunks, in path order, each right in itself; and exactly the partial ones
      named. */
  ghost predicate IsRightSource(source: ModuleSource, payloads: seq<Payload>, overlap: nat) {
    && (forall i :: 0 <= i < |source.files| ==> IsRight(source.files[i], payloads, overlap))
    && (forall i, j :: 0 <= i < j < |source.files| ==>
          Less(Points(source.files[i].path), Points(source.files[j].path)))
    && (forall path :: HasFile(source.files, path) <==> HasChunks(path, payloads))
    && (forall path :: path in source.partialPaths <==> HasPartialFile(source.files, path))
  }

  lemma RebuiltIsRight(payloads: seq<Payload>, overlap: nat)
    ensures IsRightSource(Rebuilt(payloads, overlap), payloads, overlap)
  {
    var paths, source := Sorted(FirstSeen(payloads, PathOf), Points), Rebuilt(payloads, overlap);
    EveryPathHasChunks(payloads);
    NamesAreStrict(payloads);
    forall i | 0 <= i < |paths|
      ensures IsRight(source.files[i], payloads, overlap) && source.files[i].path == paths[i]
    {
      FileIsRight(paths[i], payloads, overlap);
    }
    forall path ensures HasFile(source.files, path) <==> HasChunks(path, payloads) {
      HasFileIffHasChunks(paths, source.files, payloads, path);
    }
    forall path ensures path in source.partialPaths <==> HasPartialFile(source.files, path) {
      PartialPathsAre(source.files, path);
    }
  }

  lemma HasFileIffHasChunks(paths: seq<string>, files: seq<ModuleFile>, payloads: seq<Payload>, path: string)
    requires paths == Sorted(FirstSeen(payloads, PathOf), Points) && |files| == |paths|
    requires forall i :: 0 <= i < |paths| ==> files[i].path == paths[i]
    ensures HasFile(files, path) <==> HasChunks(path, payloads)
  {
    SortedHasSameElements(FirstSeen(payloads, PathOf), Points, path);
    FirstSeenHasNames(payloads, PathOf, path);
    if p :| IsChunkOf(p, path, payloads) {
      assert PathOf(p) == path;
      var i :| 0 <= i < |paths| && paths[i] == path;
      assert files[i].path == path;
    }
    if HasFile(files, path) {
      assert path in paths;
      var p :| p in payloads && PathOf(p) == path;
      assert IsChunkOf(p, path, payloads);
    }
  }
}
