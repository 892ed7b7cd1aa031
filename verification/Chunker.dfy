/** Recovering each chunk's offset and line range from the splitter's bare pieces (`ingestion/chunker.py`).
    The splitter's output, the symbol pattern and what counts as white space are inputs. */
module Chunker {
  import opened Prelude

  datatype Chunk = Chunk(
    filePath: string,
    startLine: nat,
    endLine: nat,
    language: string,
    symbol: Option<string>,
    index: nat,
    text: string)

  predicate OccursAt(source: string, piece: string, at: nat) {
    at + |piece| <= |source| && source[at..at + |piece|] == piece
  }

  /** `source.find(piece, start)`: the first occurrence from `start` on. */
  function Find(source: string, piece: string, start: nat): (r: Option<nat>)
    ensures r.Some? ==> start <= r.value && OccursAt(source, piece, r.value)
    ensures r.Some? ==> forall at :: start <= at < r.value ==> !OccursAt(source, piece, at)
    ensures r.None? ==> forall at :: start <= at ==> !OccursAt(source, piece, at)
    decreases |source| + 1 - start
  {
    if start + |piece| > |source| then None
    else if OccursAt(source, piece, start) then Some(start)
    else Find(source, piece, start + 1)
  }

  /** `source.count("\\n", 0, end)`: a bound past the end counts the whole text. */
  function Newlines(source: string, end: nat): nat {
    if end == 0 || source == [] then 0
    else (if source[0] == '\n' then 1 else 0) + Newlines(source[1..], end - 1)
  }

  /** Where the search lands: the first occurrence, or the cursor itself when there is none. */
  function Landing(source: string, piece: string, cursor: nat): nat {
    match Find(source, piece, cursor)
    case Some(at) => at
    case None => cursor
  }

  /** The recovered offsets: each search starts one past the previous landing. */
  function Offsets(source: string, pieces: seq<string>): (r: seq<nat>)
    ensures |r| == |pieces|
  {
    if pieces == [] then []
    else
      var before := Offsets(source, pieces[..|pieces| - 1]);
      before + [Landing(source, pieces[|pieces| - 1], Cursor(before))]
  }

  function Cursor(offsets: seq<nat>): nat {
    if offsets == [] then 0 else offsets[|offsets| - 1] + 1
  }

  ghost predicate Increasing(offsets: seq<nat>) {
    forall i, j :: 0 <= i < j < |offsets| ==> offsets[i] < offsets[j]
  }

  /** Each piece occurs at its offset, at strictly increasing offsets. */
  ghost predicate Placement(source: string, pieces: seq<string>, offsets: seq<nat>) {
    && |offsets| == |pieces|
    && Increasing(offsets)
    && forall i :: 0 <= i < |pieces| ==> OccursAt(source, pieces[i], offsets[i])
  }

  lemma {:induction false} OffsetsIncrease(source: string, pieces: seq<string>)
    ensures Increasing(Offsets(source, pieces))
    decreases |pieces|
  {
    if pieces != [] {
      OffsetsIncrease(source, pieces[..|pieces| - 1]);
    }
  }

  /** If the pieces can be placed at all, the greedy search misses none of them, and its offsets are the
      least of all placements. */
  lemma {:induction false} GreedyIsTheLeastPlacement(source: string, pieces: seq<string>, true_: seq<nat>)
    requires Placement(source, pieces, true_)
    ensures Placement(source, pieces, Offsets(source, pieces))
    ensures forall i :: 0 <= i < |pieces| ==> Offsets(source, pieces)[i] <= true_[i]
    decreases |pieces|
  {
    OffsetsIncrease(source, pieces);
    if pieces != [] {
      var n := |pieces| - 1;
      GreedyIsTheLeastPlacement(source, pieces[..n], true_[..n]);
      assert Cursor(Offsets(source, pieces[..n])) <= true_[n];
      assert OccursAt(source, pieces[n], true_[n]);
    }
  }

  /** Between its predecessor's offset and its own, the piece does not occur. */
  ghost predicate NoEarlierOccurrence(source: string, piece: string, offsets: seq<nat>, i: nat)
    requires i < |offsets|
  {
    forall at :: (if i == 0 then 0 else offsets[i - 1] + 1) <= at < offsets[i] ==> !OccursAt(source, piece, at)
  }

  lemma LandingIsTrueIff(source: string, piece: string, cursor: nat, true_: nat)
    requires cursor <= true_ && OccursAt(source, piece, true_)
    ensures Landing(source, piece, cursor) == true_ <==>
            forall at :: cursor <= at < true_ ==> !OccursAt(source, piece, at)
  {
  }

  lemma {:induction false} OffsetsOfPrefix(source: string, pieces: seq<string>, k: nat)
    requires k <= |pieces|
    ensures Offsets(source, pieces)[..k] == Offsets(source, pieces[..k])
    decreases |pieces|
  {
    if k == |pieces| {
      assert pieces[..k] == pieces;
    } else {
      OffsetsOfPrefix(source, pieces[..|pieces| - 1], k);
      assert pieces[..|pieces| - 1][..k] == pieces[..k];
    }
  }

  lemma OffsetAt(source: string, pieces: seq<string>, i: nat)
    requires i < |pieces|
    ensures Offsets(source, pieces)[i]
            == Landing(source, pieces[i], if i == 0 then 0 else Offsets(source, pieces)[i - 1] + 1)
  {
    OffsetsOfPrefix(source, pieces, i + 1);
    OffsetsOfPrefix(source, pieces, i);
    assert pieces[..i + 1][..i] == pieces[..i];
    assert Offsets(source, pieces)[i] == Offsets(source, pieces)[..i + 1][i];
  }

  lemma {:induction false} GreedyFollowsTrue(source: string, pieces: seq<string>, true_: seq<nat>, i: nat)
    requires Placement(source, pieces, true_) && i < |pieces|
    requires forall k :: 0 <= k <= i ==> NoEarlierOccurrence(source, pieces[k], true_, k)
    ensures Offsets(source, pieces)[i] == true_[i]
  {
    OffsetAt(source, pieces, i);
    if i > 0 {
      GreedyFollowsTrue(source, pieces, true_, i - 1);
    }
    assert NoEarlierOccurrence(source, pieces[i], true_, i);
    LandingIsTrueIff(source, pieces[i], if i == 0 then 0 else true_[i - 1] + 1, true_[i]);
  }

  /** The greedy offsets are the splitter's own exactly when no piece occurs too early. */
  lemma GreedyIsTrueIffNoEarlierOccurrence(source: string, pieces: seq<string>, true_: seq<nat>)
    requires Placement(source, pieces, true_)
    ensures Offsets(source, pieces) == true_ <==>
            forall i :: 0 <= i < |pieces| ==> NoEarlierOccurrence(source, pieces[i], true_, i)
  {
    if Offsets(source, pieces) == true_ {
      forall i | 0 <= i < |pieces| ensures NoEarlierOccurrence(source, pieces[i], true_, i) {
        OffsetAt(source, pieces, i);
      }
    } else if forall i :: 0 <= i < |pieces| ==> NoEarlierOccurrence(source, pieces[i], true_, i) {
      forall i | 0 <= i < |pieces| ensures Offsets(source, pieces)[i] == true_[i] {
        GreedyFollowsTrue(source, pieces, true_, i);
      }
    }
  }

  // ---------------------------------------------------------------- lines

  lemma {:induction false} NewlinesSplit(source: string, a: nat, b: nat)
    requires a <= b
    ensures Newlines(source, a) <= Newlines(source, b) <= Newlines(source, |source|)
    decreases |source|
  {
    if source != [] && b > 0 {
      if a > 0 {
        NewlinesSplit(source[1..], a - 1, b - 1);
      } else {
        NewlinesSplit(source[1..], 0, b - 1);
      }
    }
  }

  /** Counting to the end of an occurrence is counting to its start and then within it. */
  lemma {:induction false} NewlinesOfOccurrence(source: string, piece: string, at: nat)
    requires OccursAt(source, piece, at)
    ensures Newlines(source, at + |piece|) == Newlines(source, at) + Newlines(piece, |piece|)
    decreases |source|
  {
    if source != [] {
      if at > 0 {
        assert source[1..][at - 1..at - 1 + |piece|] == piece;
        NewlinesOfOccurrence(source[1..], piece, at - 1);
      } else if piece != [] {
        assert source[0] == piece[0];
        assert source[1..][0..|piece| - 1] == piece[1..];
        NewlinesOfOccurrence(source[1..], piece[1..], 0);
      }
    }
  }

  function LineCount(source: string): nat {
    Newlines(source, |source|) + 1
  }

  function StartLine(source: string, offset: nat): nat {
    Newlines(source, offset) + 1
  }

  function ChunkAt(path: string, language: string, source: string, pieces: seq<string>,
      symbolOf: string -> Option<string>, i: nat): Chunk
    requires i < |pieces|
  {
    var start := StartLine(source, Offsets(source, pieces)[i]);
    Chunk(path, start, start + Newlines(pieces[i], |pieces[i]|), language, symbolOf(pieces[i]), i, pieces[i])
  }

  function ChunksOf(path: string, language: string, source: string, pieces: seq<string>,
      symbolOf: string -> Option<string>): (r: seq<Chunk>)
    ensures |r| == |pieces| && forall i :: 0 <= i < |r| ==> r[i] == ChunkAt(path, language, source, pieces, symbolOf, i)
  {
    seq(|pieces|, i requires 0 <= i < |pieces| => ChunkAt(path, language, source, pieces, symbolOf, i))
  }

  /** Whatever the splitter returns, start lines never go back. */
  lemma StartLinesNeverGoBack(path: string, language: string, source: string, pieces: seq<string>,
                              symbolOf: string -> Option<string>, i: nat, j: nat)
    requires i <= j < |pieces|
    ensures ChunkAt(path, language, source, pieces, symbolOf, i).startLine
            <= ChunkAt(path, language, source, pieces, symbolOf, j).startLine
  {
    OffsetsIncrease(source, pieces);
    NewlinesSplit(source, Offsets(source, pieces)[i], Offsets(source, pieces)[j]);
  }

  lemma LinesOfOccurrence(source: string, piece: string, at: nat, later: nat)
    requires OccursAt(source, piece, at) && at <= later <= |source|
    ensures StartLine(source, at) + Newlines(piece, |piece|) == StartLine(source, at + |piece|) <= LineCount(source)
    ensures StartLine(source, at) <= StartLine(source, later)
  {
    NewlinesOfOccurrence(source, piece, at);
    NewlinesSplit(source, at + |piece|, |source|);
    NewlinesSplit(source, at, later);
  }

  /** If the pieces can be placed, every line range lies inside the file and is that of a real occurrence
      of the chunk's text, no later than the splitter's own. */
  lemma LineRangeIsReal(path: string, language: string, source: string, pieces: seq<string>,
                        symbolOf: string -> Option<string>, true_: seq<nat>, i: nat)
    requires Placement(source, pieces, true_) && i < |pieces|
    ensures var c, at := ChunkAt(path, language, source, pieces, symbolOf, i), Offsets(source, pieces)[i];
            && 1 <= c.startLine <= c.endLine <= LineCount(source)
            && OccursAt(source, c.text, at)
            && c.startLine == StartLine(source, at) && c.endLine == StartLine(source, at + |c.text|)
            && c.startLine <= StartLine(source, true_[i])
  {
    GreedyIsTheLeastPlacement(source, pieces, true_);
    LinesOfOccurrence(source, pieces[i], Offsets(source, pieces)[i], true_[i]);
  }

  /** Where the search for the `i`-th piece starts. */
  function SearchFrom(source: string, pieces: seq<string>, i: nat): nat
    requires i < |pieces|
  {
    if i == 0 then 0 else Offsets(source, pieces)[i - 1] + 1
  }

  predicate IsFound(source: string, pieces: seq<string>, i: nat)
    requires i < |pieces|
  {
    Find(source, pieces[i], SearchFrom(source, pieces, i)).Some?
  }

  /** The search finds every piece if and only if the pieces occur at some strictly increasing offsets. */
  lemma EveryPieceIsFoundIff(source: string, pieces: seq<string>)
    ensures (forall i :: 0 <= i < |pieces| ==> IsFound(source, pieces, i)) <==>
            exists true_ :: Placement(source, pieces, true_)
  {
    var greedy := Offsets(source, pieces);
    OffsetsIncrease(source, pieces);
    if true_ :| Placement(source, pieces, true_) {
      GreedyIsTheLeastPlacement(source, pieces, true_);
      forall i | 0 <= i < |pieces| ensures IsFound(source, pieces, i) {
        OffsetAt(source, pieces, i);
        assert OccursAt(source, pieces[i], greedy[i]);
      }
    } else if forall i :: 0 <= i < |pieces| ==> IsFound(source, pieces, i) {
      forall i | 0 <= i < |pieces| ensures OccursAt(source, pieces[i], greedy[i]) {
        assert IsFound(source, pieces, i);
        OffsetAt(source, pieces, i);
      }
      assert Placement(source, pieces, greedy);
    }
  }

  /** The rest of the text from the cursor on. */
  function TextFrom(source: string, cursor: nat): string {
    if cursor <= |source| then source[cursor..] else ""
  }

  lemma {:induction false} NewlinesFrom(source: string, cursor: nat)
    ensures Newlines(source, |source|) ==
            Newlines(source, cursor) + Newlines(TextFrom(source, cursor), |TextFrom(source, cursor)|)
    decreases |source|
  {
    if source != [] && cursor > 0 {
      assert TextFrom(source[1..], cursor - 1) == TextFrom(source, cursor);
      NewlinesFrom(source[1..], cursor - 1);
    } else {
      assert TextFrom(source, cursor) == source;
    }
  }

  predicate InsideFile(c: Chunk, source: string) {
    1 <= c.startLine <= c.endLine <= LineCount(source)
  }

  /** A chunk's lines lie inside the file if and only if its search found it, or the text from the cursor on
      has at least as many line breaks as the piece. */
  lemma RangeIsInsideIff(path: string, language: string, source: string, pieces: seq<string>,
                         symbolOf: string -> Option<string>, i: nat)
    requires i < |pieces|
    ensures InsideFile(ChunkAt(path, language, source, pieces, symbolOf, i), source) <==>
              || IsFound(source, pieces, i)
              || (var rest := TextFrom(source, SearchFrom(source, pieces, i));
                  Newlines(pieces[i], |pieces[i]|) <= Newlines(rest, |rest|))
  {
    var cursor, at := SearchFrom(source, pieces, i), Offsets(source, pieces)[i];
    OffsetAt(source, pieces, i);
    if IsFound(source, pieces, i) {
      NewlinesOfOccurrence(source, pieces[i], at);
      NewlinesSplit(source, at + |pieces[i]|, |source|);
    } else {
      NewlinesFrom(source, cursor);
    }
  }

  lemma {:induction false} OneMoreCharacter(source: string, n: nat)
    requires n < |source|
    ensures Newlines(source, n + 1) == Newlines(source, n) + (if source[n] == '\n' then 1 else 0)
    decreases n
  {
    if n > 0 {
      OneMoreCharacter(source[1..], n - 1);
    }
  }

  const TWICE := "\n\na\nb\na\nb"

  /** What a recursive splitter makes of it with chunks of four characters overlapping by two: the first two
      pieces, stripped, start at the same character. */
  const TWICE_PIECES := ["a", "a\nb", "b\na", "a\nb"]

  lemma TwiceIsSearchedPast()
    ensures Offsets(TWICE, TWICE_PIECES) == [2, 6, 7, 8]
  {
    var p := TWICE_PIECES;
    assert |TWICE| == 9 && p[0][0] == 'a' && p[1][0] == 'a';
    assert TWICE[0] != 'a' && TWICE[1] != 'a' && TWICE[3] != 'a' && TWICE[4] != 'a' && TWICE[5] != 'a';
    assert OccursAt(TWICE, p[0], 2) && OccursAt(TWICE, p[1], 6);
    assert Landing(TWICE, p[0], 0) == 2;
    assert Landing(TWICE, p[1], 3) == 6;
    assert Landing(TWICE, p[2], 7) == 7;
    assert Offsets(TWICE, p[..0]) == [];
    assert p[..1][..0] == p[..0] && Offsets(TWICE, p[..1]) == [2];
    assert p[..2][..1] == p[..1] && Offsets(TWICE, p[..2]) == [2, 6];
    assert p[..3][..2] == p[..2] && Offsets(TWICE, p[..3]) == [2, 6, 7];
    assert p[..4] == p && p[..4][..3] == p[..3];
  }

  lemma TwicePiecesOccurInOrder()
    ensures OccursAt(TWICE, TWICE_PIECES[0], 2) && OccursAt(TWICE, TWICE_PIECES[1], 2)
    ensures OccursAt(TWICE, TWICE_PIECES[2], 4) && OccursAt(TWICE, TWICE_PIECES[3], 6)
  {
  }

  lemma LastOfTwiceLeaves(symbolOf: string -> Option<string>)
    ensures !InsideFile(ChunkAt("a.py", "python", TWICE, TWICE_PIECES, symbolOf, 3), TWICE)
  {
    TwiceIsSearchedPast();
    RangeIsInsideIff("a.py", "python", TWICE, TWICE_PIECES, symbolOf, 3);
    var rest, piece := TextFrom(TWICE, 8), TWICE_PIECES[3];
    assert rest == "b";
    OneMoreCharacter(rest, 0);
    OneMoreCharacter(piece, 0);
    OneMoreCharacter(piece, 1);
    OneMoreCharacter(piece, 2);
  }

  /** Occurring in order is not enough: of pieces that start at the same character the second is found
      further on, and the searches after it can miss and leave the file. */
  lemma SharedStartLeavesTheFile(symbolOf: string -> Option<string>)
    ensures OccursAt(TWICE, TWICE_PIECES[0], 2) && OccursAt(TWICE, TWICE_PIECES[1], 2)
    ensures OccursAt(TWICE, TWICE_PIECES[2], 4) && OccursAt(TWICE, TWICE_PIECES[3], 6)
    ensures !InsideFile(ChunkAt("a.py", "python", TWICE, TWICE_PIECES, symbolOf, 3), TWICE)
  {
    TwicePiecesOccurInOrder();
    LastOfTwiceLeaves(symbolOf);
  }

  // ---------------------------------------------------------------- the splitter's caller

  predicate Blank(s: string, isSpace: char -> bool) {
    forall i :: 0 <= i < |s| ==> isSpace(s[i])
  }

  function NonBlank(pieces: seq<string>, isSpace: char -> bool): seq<string> {
    if pieces == [] then []
    else NonBlank(pieces[..|pieces| - 1], isSpace)
         + (if Blank(pieces[|pieces| - 1], isSpace) then [] else [pieces[|pieces| - 1]])
  }

  /** Dropping blank pieces keeps what is left placeable. */
  lemma {:induction false} NonBlankStaysPlaceable(source: string, pieces: seq<string>, isSpace: char -> bool,
      true_: seq<nat>)
    returns (kept: seq<nat>)
    requires Placement(source, pieces, true_)
    ensures Placement(source, NonBlank(pieces, isSpace), kept)
    ensures forall k :: k in kept ==> k in true_
    decreases |pieces|
  {
    kept := [];
    if pieces != [] {
      var n := |pieces| - 1;
      kept := NonBlankStaysPlaceable(source, pieces[..n], isSpace, true_[..n]);
      forall i | 0 <= i < |kept| ensures kept[i] < true_[n] {
        assert kept[i] in true_[..n];
      }
      if !Blank(pieces[n], isSpace) {
        kept := kept + [true_[n]];
      }
    }
  }

  method KeepNonBlank(splitterOutput: seq<string>, isSpace: char -> bool) returns (pieces: seq<string>)
    ensures pieces == NonBlank(splitterOutput, isSpace)
  {
    pieces := [];
    for i := 0 to |splitterOutput|
      invariant pieces == NonBlank(splitterOutput[..i], isSpace)
    {
      assert splitterOutput[..i + 1][..i] == splitterOutput[..i];
      if !Blank(splitterOutput[i], isSpace) {
        pieces := pieces + [splitterOutput[i]];
      }
    }
    assert splitterOutput[..|splitterOutput|] == splitterOutput;
  }

  /** `split`. */
  method Split(path: string, language: string, source: string, splitterOutput: seq<string>,
               isSpace: char -> bool, symbolOf: string -> Option<string>) returns (chunks: seq<Chunk>)
    ensures chunks == if Blank(source, isSpace) then []
            else ChunksOf(path, language, source, NonBlank(splitterOutput, isSpace), symbolOf)
    ensures if HasText(source, isSpace) then AreThePieces(chunks, path, language, splitterOutput, isSpace, symbolOf)
            else chunks == []
  {
    NotBlankHasText(source, isSpace);
    if Blank(source, isSpace) {
      return [];
    }
    var pieces := KeepNonBlank(splitterOutput, isSpace);
    chunks := [];
    var cursor := 0;
    for index := 0 to |pieces|
      invariant |chunks| == index && cursor == if index == 0 then 0 else Offsets(source, pieces)[index - 1] + 1
      invariant forall i :: 0 <= i < index ==> chunks[i] == ChunkAt(path, language, source, pieces, symbolOf, i)
    {
      var piece := pieces[index];
      OffsetAt(source, pieces, index);
      var found := Find(source, piece, cursor);
      var offset := if found.Some? then found.value else cursor;
      cursor := offset + 1;
      var startLine := Newlines(source, offset) + 1;
      var endLine := startLine + Newlines(piece, |piece|);
      chunks := chunks + [Chunk(path, startLine, endLine, language, symbolOf(piece), index, piece)];
    }
    ChunksAreThePieces(path, language, source, splitterOutput, isSpace, symbolOf);
  }

  function Texts(chunks: seq<Chunk>): (texts: seq<string>)
    ensures |texts| == |chunks| && forall i :: 0 <= i < |chunks| ==> texts[i] == chunks[i].text
  {
    seq(|chunks|, i requires 0 <= i < |chunks| => chunks[i].text)
  }

  /** The texts are the pieces at these places, in order; a piece is left out exactly if it is all space. */
  ghost predicate IsKeptAt(texts: seq<string>, pieces: seq<string>, isSpace: char -> bool, at: seq<nat>) {
    && |at| == |texts|
    && (forall i, j :: 0 <= i < j < |at| ==> at[i] < at[j])
    && (forall i :: 0 <= i < |at| ==> at[i] < |pieces| && texts[i] == pieces[at[i]])
    && forall k: nat :: k < |pieces| ==> (k in at <==> HasText(pieces[k], isSpace))
  }

  ghost predicate HasText(piece: string, isSpace: char -> bool) {
    exists c :: c in piece && !isSpace(c)
  }

  /** The pieces that are not all space, in order, numbered from 0, each with its own symbol. */
  ghost predicate AreThePieces(chunks: seq<Chunk>, path: string, language: string, splitterOutput: seq<string>,
                               isSpace: char -> bool, symbolOf: string -> Option<string>) {
    && (exists at :: IsKeptAt(Texts(chunks), splitterOutput, isSpace, at))
    && forall i :: 0 <= i < |chunks| ==>
         chunks[i].filePath == path && chunks[i].language == language && chunks[i].index == i
         && chunks[i].symbol == symbolOf(chunks[i].text)
  }

  lemma ChunksAreThePieces(path: string, language: string, source: string, splitterOutput: seq<string>,
                           isSpace: char -> bool, symbolOf: string -> Option<string>)
    ensures AreThePieces(ChunksOf(path, language, source, NonBlank(splitterOutput, isSpace), symbolOf), path, language,
                         splitterOutput, isSpace, symbolOf)
  {
    var pieces := NonBlank(splitterOutput, isSpace);
    var at := KeptAt(splitterOutput, isSpace);
    assert Texts(ChunksOf(path, language, source, pieces, symbolOf)) == pieces;
  }

  lemma NotBlankHasText(piece: string, isSpace: char -> bool)
    ensures Blank(piece, isSpace) <==> !HasText(piece, isSpace)
  {
    if !Blank(piece, isSpace) {
      var i :| 0 <= i < |piece| && !isSpace(piece[i]);
      assert piece[i] in piece;
    }
  }

  lemma KeptSnoc(texts: seq<string>, pieces: seq<string>, isSpace: char -> bool, at: seq<nat>, piece: string)
    requires IsKeptAt(texts, pieces, isSpace, at)
    ensures if HasText(piece, isSpace) then IsKeptAt(texts + [piece], pieces + [piece], isSpace, at + [|pieces|])
            else IsKeptAt(texts, pieces + [piece], isSpace, at)
  {
    var all, n := pieces + [piece], |pieces|;
    assert forall k: nat :: k < n ==> all[k] == pieces[k];
    assert forall i :: 0 <= i < |at| ==> at[i] != n;
    assert forall k: nat :: k in at + [n] <==> k in at || k == n;
  }

  lemma {:induction false} KeptAt(pieces: seq<string>, isSpace: char -> bool) returns (at: seq<nat>)
    ensures IsKeptAt(NonBlank(pieces, isSpace), pieces, isSpace, at)
    decreases |pieces|
  {
    if pieces == [] {
      at := [];
    } else {
      var n := |pieces| - 1;
      at := KeptAt(pieces[..n], isSpace);
      NotBlankHasText(pieces[n], isSpace);
      KeptSnoc(NonBlank(pieces[..n], isSpace), pieces[..n], isSpace, at, pieces[n]);
      assert pieces == pieces[..n] + [pieces[n]];
      at := if Blank(pieces[n], isSpace) then at else at + [n];
    }
  }
}
