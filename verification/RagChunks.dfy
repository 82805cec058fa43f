/**
 `RAGIndex._chunk` (src/lightworker/rag.py): cutting a text into overlapping windows that prefer to end behind
 a paragraph or a sentence.  Which characters count as white space is a parameter.
 */
module RagChunks {
  import opened Prelude

  type Blank = char -> bool

  datatype Config = Config(tokens: nat, overlapTokens: nat) {
    function Size(): nat {
      tokens * 4
    }

    function Overlap(): nat {
      Min(overlapTokens * 4, Max(Size() - 1, 0))
    }
  }

  /** The positions from `lo` up to but not including `hi`. */
  datatype Span = Span(lo: nat, hi: nat)

  /** `str.strip` on a part of the text. */
  function Strip(text: string, blank: Blank, lo: nat, hi: nat): (s: Span)
    requires lo <= hi <= |text|
    ensures lo <= s.lo <= s.hi <= hi
    ensures s.lo < s.hi ==> !blank(text[s.lo]) && !blank(text[s.hi - 1])
    decreases hi - lo
  {
    if lo == hi then Span(lo, hi)
    else if blank(text[lo]) then Strip(text, blank, lo + 1, hi)
    else if blank(text[hi - 1]) then Strip(text, blank, lo, hi - 1)
    else Span(lo, hi)
  }

  lemma {:induction false} StripKeeps(text: string, blank: Blank, lo: nat, hi: nat, p: nat)
    requires lo <= p < hi <= |text| && !blank(text[p])
    ensures Strip(text, blank, lo, hi).lo <= p < Strip(text, blank, lo, hi).hi
    decreases hi - lo
  {
    if blank(text[lo]) {
      StripKeeps(text, blank, lo + 1, hi, p);
    } else if blank(text[hi - 1]) {
      StripKeeps(text, blank, lo, hi - 1, p);
    }
  }

  /** The pattern stands at position `q`. */
  predicate At(text: string, pattern: string, q: nat) {
    q + |pattern| <= |text| && text[q..q + |pattern|] == pattern
  }

  /** `str.rfind`: the last place of the pattern between `lo` and `hi`, or -1. */
  function RFind(text: string, pattern: string, lo: nat, hi: nat): (r: int)
    requires lo <= hi <= |text| && pattern != []
    ensures r == -1 || (lo <= r && r + |pattern| <= hi && At(text, pattern, r))
    decreases hi - lo
  {
    if hi - lo < |pattern| then -1
    else if At(text, pattern, hi - |pattern|) then hi - |pattern|
    else RFind(text, pattern, lo, hi - 1)
  }

  lemma {:induction false} RFindIsLast(text: string, pattern: string, lo: nat, hi: nat, q: nat)
    requires lo <= hi <= |text| && pattern != []
    requires lo <= q && q + |pattern| <= hi && At(text, pattern, q)
    ensures q <= RFind(text, pattern, lo, hi)
    decreases hi - lo
  {
    if !At(text, pattern, hi - |pattern|) {
      RFindIsLast(text, pattern, lo, hi - 1, q);
    }
  }

  const PARAGRAPH := "\n\n"
  const SENTENCE := "\U{3002}"

  function Boundary(text: string, lo: nat, hi: nat): int
    requires lo <= hi <= |text|
  {
    Max(RFind(text, PARAGRAPH, lo, hi), RFind(text, SENTENCE, lo, hi))
  }

  /** Where the window that starts at `cursor` ends. */
  function EndOf(text: string, size: nat, cursor: nat): (end: nat)
    requires cursor < |text| && size > 0
    ensures cursor < end <= Min(cursor + size, |text|)
    ensures end < |text| ==> end == cursor + size || cursor + size / 2 + 2 <= end
  {
    var end := Min(cursor + size, |text|);
    if end < |text| then
      var boundary := Boundary(text, cursor, end);
      if boundary > cursor + size / 2 then boundary + 1 else end
    else
      end
  }

  function Next(end: nat, overlap: nat, cursor: nat): nat {
    Max(end - overlap, cursor + 1)
  }

  /** The windows from `cursor` on. */
  function Windows(text: string, c: Config, cursor: nat): seq<Span>
    requires c.tokens > 0
    decreases |text| - cursor
  {
    if cursor >= |text| then
      []
    else
      var end := EndOf(text, c.Size(), cursor);
      [Span(cursor, end)] + (if end >= |text| then [] else Windows(text, c, Next(end, c.Overlap(), cursor)))
  }

  predicate Inside(windows: seq<Span>, text: string) {
    forall w | w in windows :: w.lo <= w.hi <= |text|
  }

  /** The stripped windows, without the empty ones. */
  function Pieces(text: string, windows: seq<Span>, blank: Blank): (pieces: seq<Span>)
    requires Inside(windows, text)
    ensures forall k | 0 <= k < |pieces| :: pieces[k].lo < pieces[k].hi <= |text|
  {
    if windows == [] then
      []
    else
      var last := |windows| - 1;
      var s := Strip(text, blank, windows[last].lo, windows[last].hi);
      var before := Pieces(text, windows[..last], blank);
      if s.lo < s.hi then before + [s] else before
  }

  /** What the chunks are, given where they are. */
  function Cut(text: string, pieces: seq<Span>): (chunks: seq<string>)
    requires forall k | 0 <= k < |pieces| :: pieces[k].lo < pieces[k].hi <= |text|
    ensures |chunks| == |pieces|
    ensures forall k | 0 <= k < |pieces| :: chunks[k] == text[pieces[k].lo..pieces[k].hi]
  {
    if pieces == [] then
      []
    else
      var last := |pieces| - 1;
      Cut(text, pieces[..last]) + [text[pieces[last].lo..pieces[last].hi]]
  }

  function Stripped(source: string, blank: Blank): (text: string)
  {
    var s := Strip(source, blank, 0, |source|);
    source[s.lo..s.hi]
  }

  // The windows

  /** Windows are not empty, not longer than `size`, move forward, leave no gap and share at most `overlap`. */
  ghost predicate Overlapping(windows: seq<Span>, text: string, c: Config) {
    && (forall i | 0 <= i < |windows| ::
          windows[i].lo < windows[i].hi <= windows[i].lo + c.Size() && windows[i].hi <= |text|)
    && (forall i | 0 < i < |windows| ::
          windows[i - 1].lo < windows[i].lo <= windows[i - 1].hi && windows[i - 1].hi - windows[i].lo <= c.Overlap())
  }

  lemma PrependWindow(w: Span, windows: seq<Span>, text: string, c: Config)
    requires windows != [] && Overlapping(windows, text, c)
    requires w.lo < w.hi <= w.lo + c.Size() && w.hi <= |text|
    requires w.lo < windows[0].lo <= w.hi && w.hi - windows[0].lo <= c.Overlap()
    ensures Overlapping([w] + windows, text, c)
  {
    var all := [w] + windows;
    assert forall i | 0 < i < |all| :: all[i] == windows[i - 1];
  }

  lemma {:induction false} WindowsOverlap(text: string, c: Config, cursor: nat)
    requires c.tokens > 0 && cursor < |text|
    ensures var windows := Windows(text, c, cursor);
            && windows != [] && windows[0].lo == cursor && windows[|windows| - 1].hi == |text|
            && Overlapping(windows, text, c)
    decreases |text| - cursor
  {
    var end := EndOf(text, c.Size(), cursor);
    if end < |text| {
      var next := Next(end, c.Overlap(), cursor);
      WindowsOverlap(text, c, next);
      PrependWindow(Span(cursor, end), Windows(text, c, next), text, c);
    }
  }

  lemma OneMoreStep(n: nat, step: int, rest: int, whole: int)
    requires (n - 1) * step < rest && rest + step <= whole
    ensures n * step < whole
  {
  }

  /** How far a window moves on. */
  lemma NextWindow(text: string, c: Config, cursor: nat)
    requires c.tokens > 0 && cursor < |text| && EndOf(text, c.Size(), cursor) < |text|
    ensures var next := Next(EndOf(text, c.Size(), cursor), c.Overlap(), cursor);
            && next < |text| && |Windows(text, c, cursor)| == 1 + |Windows(text, c, next)|
            && cursor + c.Size() / 2 + 2 - c.Overlap() <= next
  {
  }

  /** With an overlap of at most half a window, every window moves on by at least a fixed distance. */
  lemma {:induction false} FewWindows(text: string, c: Config, cursor: nat)
    requires c.tokens > 0 && cursor < |text| && c.Overlap() <= c.Size() / 2
    ensures (|Windows(text, c, cursor)| - 1) * (c.Size() / 2 + 2 - c.Overlap()) < |text| - cursor
    decreases |text| - cursor
  {
    var end, step := EndOf(text, c.Size(), cursor), c.Size() / 2 + 2 - c.Overlap();
    if end < |text| {
      var next := Next(end, c.Overlap(), cursor);
      NextWindow(text, c, cursor);
      FewWindows(text, c, next);
      OneMoreStep(|Windows(text, c, next)|, step, |text| - next, |text| - cursor);
    } else {
      assert |Windows(text, c, cursor)| == 1;
    }
  }

  /** A separator stands at `q` and ends within `hi`. */
  predicate Separator(text: string, q: nat, hi: nat) {
    || (q + |PARAGRAPH| <= hi && At(text, PARAGRAPH, q))
    || (q + |SENTENCE| <= hi && At(text, SENTENCE, q))
  }

  lemma BoundaryIsLastSeparator(text: string, lo: nat, hi: nat, q: nat)
    requires lo <= q <= hi <= |text| && Separator(text, q, hi)
    ensures q <= Boundary(text, lo, hi)
  {
    if q + |PARAGRAPH| <= hi && At(text, PARAGRAPH, q) {
      RFindIsLast(text, PARAGRAPH, lo, hi, q);
    } else {
      RFindIsLast(text, SENTENCE, lo, hi, q);
    }
  }

  lemma BoundaryIsSeparator(text: string, lo: nat, hi: nat)
    requires lo <= hi <= |text|
    ensures Boundary(text, lo, hi) >= 0 ==> Separator(text, Boundary(text, lo, hi), hi)
  {
  }

  /**
   A window that could reach `full` is cut behind the first character of the last separator in its second half, which
   begins behind `half`, and only there; without a separator it keeps its full length.
   */
  ghost predicate CutAtLastSeparator(text: string, half: nat, full: nat, end: nat) {
    if exists q :: half < q && Separator(text, q, full) then
      && half < end - 1 && Separator(text, end - 1, full)
      && forall q | end - 1 < q :: !Separator(text, q, full)
    else
      end == full
  }

  lemma WindowEndsAtLastSeparator(text: string, size: nat, cursor: nat)
    requires size > 0 && cursor + size < |text|
    ensures CutAtLastSeparator(text, cursor + size / 2, cursor + size, EndOf(text, size, cursor))
  {
    var full := cursor + size;
    var last := Boundary(text, cursor, full);
    BoundaryIsSeparator(text, cursor, full);
    forall q | cursor <= q && last < q ensures !Separator(text, q, full) {
      if Separator(text, q, full) {
        BoundaryIsLastSeparator(text, cursor, full, q);
      }
    }
    if last > cursor + size / 2 {
      assert Separator(text, last, full) && EndOf(text, size, cursor) == last + 1;
    }
  }

  // The chunks

  lemma {:induction false} SomeWindowHolds(windows: seq<Span>, text: string, c: Config, p: nat) returns (i: nat)
    requires windows != [] && Overlapping(windows, text, c)
    requires windows[0].lo <= p < windows[|windows| - 1].hi
    ensures i < |windows| && windows[i].lo <= p < windows[i].hi
  {
    i := 0;
    while p >= windows[i].hi
      invariant i < |windows| && windows[i].lo <= p
      decreases |windows| - i
    {
      i := i + 1;
    }
  }

  lemma {:induction false} SomePieceHolds(windows: seq<Span>, text: string, blank: Blank, i: nat, p: nat)
    returns (k: nat)
    requires Inside(windows, text) && i < |windows| && windows[i].lo <= p < windows[i].hi && !blank(text[p])
    ensures k < |Pieces(text, windows, blank)|
    ensures Pieces(text, windows, blank)[k].lo <= p < Pieces(text, windows, blank)[k].hi
  {
    var last := |windows| - 1;
    if i == last {
      StripKeeps(text, blank, windows[i].lo, windows[i].hi, p);
      k := |Pieces(text, windows, blank)| - 1;
    } else {
      k := SomePieceHolds(windows[..last], text, blank, i, p);
    }
  }

  lemma {:induction false} PieceIsShort(windows: seq<Span>, text: string, blank: Blank, size: nat, k: nat)
    requires Inside(windows, text) && forall w | w in windows :: w.hi - w.lo <= size
    requires k < |Pieces(text, windows, blank)|
    ensures var s := Pieces(text, windows, blank)[k];
            s.hi - s.lo <= size && !blank(text[s.lo]) && !blank(text[s.hi - 1])
  {
    var before := windows[..|windows| - 1];
    if k < |Pieces(text, before, blank)| {
      PieceIsShort(before, text, blank, size, k);
    }
  }

  lemma WindowsInside(text: string, c: Config)
    requires c.tokens > 0
    ensures Inside(Windows(text, c, 0), text)
    ensures forall w | w in Windows(text, c, 0) :: w.hi - w.lo <= c.Size()
  {
    if text != [] {
      WindowsOverlap(text, c, 0);
    }
  }

  /** Where the chunks of a text lie in it. */
  function ChunkSpans(text: string, c: Config, blank: Blank): (spans: seq<Span>)
    requires c.tokens > 0
    ensures forall k | 0 <= k < |spans| :: spans[k].lo < spans[k].hi <= |text|
  {
    WindowsInside(text, c);
    Pieces(text, Windows(text, c, 0), blank)
  }

  /** The chunks of a source text, which is stripped first. */
  function Chunks(source: string, c: Config, blank: Blank): (chunks: seq<string>)
    requires c.tokens > 0
  {
    var text := Stripped(source, blank);
    Cut(text, ChunkSpans(text, c, blank))
  }

  lemma PieceHolds(text: string, c: Config, blank: Blank, p: nat) returns (k: nat)
    requires c.tokens > 0 && p < |text| && !blank(text[p])
    requires Inside(Windows(text, c, 0), text)
    ensures k < |Pieces(text, Windows(text, c, 0), blank)|
    ensures Pieces(text, Windows(text, c, 0), blank)[k].lo <= p < Pieces(text, Windows(text, c, 0), blank)[k].hi
  {
    WindowsOverlap(text, c, 0);
    var i := SomeWindowHolds(Windows(text, c, 0), text, c, p);
    k := SomePieceHolds(Windows(text, c, 0), text, blank, i, p);
  }

  lemma AtInSlice(text: string, s: Span, j: nat)
    requires s.lo + j < s.hi <= |text|
    ensures text[s.lo..s.hi][j] == text[s.lo + j]
  {
  }

  lemma ChunkAt(source: string, c: Config, blank: Blank, k: nat)
    requires c.tokens > 0
    ensures |Chunks(source, c, blank)| == |ChunkSpans(Stripped(source, blank), c, blank)|
    ensures k < |Chunks(source, c, blank)| ==>
      var s := ChunkSpans(Stripped(source, blank), c, blank)[k];
      Chunks(source, c, blank)[k] == Stripped(source, blank)[s.lo..s.hi]
  {
  }

  /** The same for a text that is stripped already. */
  lemma TextIsCovered(text: string, c: Config, blank: Blank, p: nat) returns (k: nat, j: nat)
    requires c.tokens > 0 && p < |text| && !blank(text[p])
    ensures k < |ChunkSpans(text, c, blank)|
    ensures ChunkSpans(text, c, blank)[k].lo + j == p < ChunkSpans(text, c, blank)[k].hi
  {
    WindowsInside(text, c);
    k := PieceHolds(text, c, blank, p);
    j := p - ChunkSpans(text, c, blank)[k].lo;
  }

  /** Every character that is not blank is in some chunk, at its own place. */
  lemma NoCharacterIsLost(source: string, c: Config, blank: Blank, p: nat) returns (k: nat, j: nat)
    requires c.tokens > 0 && p < |source| && !blank(source[p])
    ensures k < |Chunks(source, c, blank)| && j < |Chunks(source, c, blank)[k]|
    ensures Chunks(source, c, blank)[k][j] == source[p]
    ensures Strip(source, blank, 0, |source|).lo + ChunkSpans(Stripped(source, blank), c, blank)[k].lo + j == p
  {
    var s, text := Strip(source, blank, 0, |source|), Stripped(source, blank);
    StripKeeps(source, blank, 0, |source|, p);
    AtInSlice(source, s, p - s.lo);
    k, j := TextIsCovered(text, c, blank, p - s.lo);
    ChunkAt(source, c, blank, k);
    AtInSlice(text, ChunkSpans(text, c, blank)[k], j);
  }

  // The order of the chunks

  predicate Ascending(spans: seq<Span>) {
    forall i, k | 0 <= i < k < |spans| :: spans[i].lo <= spans[k].lo
  }

  lemma {:induction false} WindowsAscend(windows: seq<Span>, i: nat, k: nat)
    requires i <= k < |windows| && forall j | 0 < j < |windows| :: windows[j - 1].lo < windows[j].lo
    ensures windows[i].lo <= windows[k].lo
    decreases k
  {
    if i < k {
      WindowsAscend(windows, i, k - 1);
    }
  }

  lemma StripKeepsOrder(text: string, blank: Blank, w: Span, next: Span)
    requires w.lo <= next.lo && w.lo <= w.hi <= |text| && next.lo <= next.hi <= |text|
    requires Strip(text, blank, next.lo, next.hi).lo < Strip(text, blank, next.lo, next.hi).hi
    requires Strip(text, blank, w.lo, w.hi).lo < Strip(text, blank, w.lo, w.hi).hi
    ensures Strip(text, blank, w.lo, w.hi).lo <= Strip(text, blank, next.lo, next.hi).lo
  {
    var p := Strip(text, blank, next.lo, next.hi).lo;
    if p < w.hi {
      StripKeeps(text, blank, w.lo, w.hi, p);
    }
  }

  lemma {:induction false} PiecesComeBefore(windows: seq<Span>, text: string, blank: Blank, next: Span, k: nat)
    requires Inside(windows, text) && next.lo <= next.hi <= |text| && forall w | w in windows :: w.lo <= next.lo
    requires Strip(text, blank, next.lo, next.hi).lo < Strip(text, blank, next.lo, next.hi).hi
    requires k < |Pieces(text, windows, blank)|
    ensures Pieces(text, windows, blank)[k].lo <= Strip(text, blank, next.lo, next.hi).lo
  {
    var last := |windows| - 1;
    if k < |Pieces(text, windows[..last], blank)| {
      PiecesComeBefore(windows[..last], text, blank, next, k);
    } else {
      StripKeepsOrder(text, blank, windows[last], next);
    }
  }

  lemma {:induction false} PiecesAscend(windows: seq<Span>, text: string, blank: Blank)
    requires Inside(windows, text) && Ascending(windows)
    ensures Ascending(Pieces(text, windows, blank))
  {
    if windows != [] {
      var last := |windows| - 1;
      var before, s := Pieces(text, windows[..last], blank), Strip(text, blank, windows[last].lo, windows[last].hi);
      PiecesAscend(windows[..last], text, blank);
      if s.lo < s.hi {
        forall i | 0 <= i < |before| ensures before[i].lo <= s.lo {
          PiecesComeBefore(windows[..last], text, blank, windows[last], i);
        }
      }
    }
  }

  /** The chunks come in the order in which they stand in the text. */
  lemma ChunksComeInOrder(text: string, c: Config, blank: Blank)
    requires c.tokens > 0
    ensures Ascending(ChunkSpans(text, c, blank))
  {
    var windows := Windows(text, c, 0);
    WindowsInside(text, c);
    if text != [] {
      WindowsOverlap(text, c, 0);
      forall i, k | 0 <= i < k < |windows| ensures windows[i].lo <= windows[k].lo {
        WindowsAscend(windows, i, k);
      }
    }
    PiecesAscend(windows, text, blank);
  }

  predicate ShortAndStripped(chunk: string, blank: Blank, size: nat) {
    0 < |chunk| <= size && !blank(chunk[0]) && !blank(chunk[|chunk| - 1])
  }

  lemma ShortSlice(text: string, blank: Blank, s: Span, size: nat)
    requires s.lo < s.hi <= |text| && s.hi - s.lo <= size && !blank(text[s.lo]) && !blank(text[s.hi - 1])
    ensures ShortAndStripped(text[s.lo..s.hi], blank, size)
  {
  }

  /** Every chunk is a stripped, non-empty part of the text of at most `size` characters. */
  lemma ChunksAreShort(source: string, c: Config, blank: Blank, k: nat)
    requires c.tokens > 0 && k < |Chunks(source, c, blank)|
    ensures ShortAndStripped(Chunks(source, c, blank)[k], blank, 4 * c.tokens)
  {
    var text := Stripped(source, blank);
    WindowsInside(text, c);
    PieceIsShort(Windows(text, c, 0), text, blank, c.Size(), k);
    ChunkAt(source, c, blank, k);
    ShortSlice(text, blank, ChunkSpans(text, c, blank)[k], c.Size());
  }

  /** Window `i` ends where the loop cuts when its cursor stands at the window's start, and so on from there. */
  predicate Follows(windows: seq<Span>, text: string, c: Config, i: nat)
    requires c.tokens > 0 && i < |windows|
  {
    var w := windows[i];
    && w.lo < |text| && w.hi == EndOf(text, c.Size(), w.lo)
    && (i + 1 < |windows| <==> w.hi < |text|)
    && (i + 1 < |windows| ==> windows[i + 1].lo == Next(w.hi, c.Overlap(), w.lo))
  }

  lemma {:induction false} WindowAt(text: string, c: Config, cursor: nat, i: nat)
    requires c.tokens > 0 && i < |Windows(text, c, cursor)|
    ensures Follows(Windows(text, c, cursor), text, c, i)
    ensures Windows(text, c, cursor)[0].lo == cursor
    decreases |text| - cursor
  {
    var end := EndOf(text, c.Size(), cursor);
    if end < |text| {
      var next := Next(end, c.Overlap(), cursor);
      var windows, rest := Windows(text, c, cursor), Windows(text, c, next);
      assert windows == [Span(cursor, end)] + rest;
      if i == 0 {
        WindowAt(text, c, next, 0);
      } else {
        WindowAt(text, c, next, i - 1);
        assert windows[i] == rest[i - 1];
        assert i + 1 < |windows| ==> windows[i + 1] == rest[i];
      }
    }
  }

  ghost predicate WellCut(text: string, w: Span, size: nat) {
    && w.lo < |text|
    && if w.lo + size >= |text| then w.hi == |text|
       else CutAtLastSeparator(text, w.lo + size / 2, w.lo + size, w.hi)
  }

  lemma EndIsCut(text: string, size: nat, lo: nat)
    requires size > 0 && lo < |text|
    ensures WellCut(text, Span(lo, EndOf(text, size, lo)), size)
  {
    if lo + size < |text| {
      WindowEndsAtLastSeparator(text, size, lo);
    }
  }

  lemma WindowIs(text: string, c: Config, i: nat)
    requires c.tokens > 0 && i < |Windows(text, c, 0)|
    ensures var w := Windows(text, c, 0)[i];
            w.lo < |text| && w == Span(w.lo, EndOf(text, 4 * c.tokens, w.lo))
  {
    WindowAt(text, c, 0, i);
    assert c.Size() == 4 * c.tokens;
  }

  /**
   Every window of a text: when a full one of four characters for each token would not reach the end, it is cut at the
   last separator; otherwise it ends with the text.
   */
  lemma EachWindowEndsAtLastSeparator(text: string, c: Config, i: nat)
    requires c.tokens > 0 && i < |Windows(text, c, 0)|
    ensures WellCut(text, Windows(text, c, 0)[i], 4 * c.tokens)
  {
    WindowIs(text, c, i);
    EndIsCut(text, 4 * c.tokens, Windows(text, c, 0)[i].lo);
  }

  /** A window begins `overlap` before the end of the one before it, or one character on if that is no progress. */
  lemma WindowsShareTheOverlap(text: string, c: Config, i: nat)
    requires c.tokens > 0 && 0 < i < |Windows(text, c, 0)|
    ensures
      var before, w := Windows(text, c, 0)[i - 1], Windows(text, c, 0)[i];
      var overlap := if c.overlapTokens < c.tokens then 4 * c.overlapTokens else 4 * c.tokens - 1;
      w.lo == if before.hi - overlap > before.lo then before.hi - overlap else before.lo + 1
  {
    WindowAt(text, c, 0, i - 1);
  }

  /** The separators: an empty line, and the full stop of Chinese text. */
  lemma SeparatorsAre(text: string, q: nat, hi: nat)
    requires hi <= |text|
    ensures Separator(text, q, hi) <==>
              || (q + 2 <= hi && text[q] == '\n' && text[q + 1] == '\n')
              || (q + 1 <= hi && text[q] == '\U{3002}')
  {
    if q + 2 <= hi {
      assert text[q..q + 2] == [text[q], text[q + 1]];
    }
    if q + 1 <= hi {
      assert text[q..q + 1] == [text[q]];
    }
  }

  lemma PiecesStep(windows: seq<Span>, text: string, blank: Blank, i: nat)
    requires Inside(windows, text) && i < |windows|
    ensures Inside(windows[..i], text) && Inside(windows[..i + 1], text)
    ensures
      var s := Strip(text, blank, windows[i].lo, windows[i].hi);
      Pieces(text, windows[..i + 1], blank) == Pieces(text, windows[..i], blank) + (if s.lo < s.hi then [s] else [])
  {
    assert windows[..i + 1][..i] == windows[..i];
  }

  lemma CutAppend(text: string, pieces: seq<Span>, s: Span)
    requires forall k | 0 <= k < |pieces| :: pieces[k].lo < pieces[k].hi <= |text|
    requires s.lo < s.hi <= |text|
    ensures Cut(text, pieces + [s]) == Cut(text, pieces) + [text[s.lo..s.hi]]
  {
    assert (pieces + [s])[..|pieces|] == pieces;
  }

  /** The chunks of the first `i` windows. */
  ghost function ChunksOf(windows: seq<Span>, text: string, blank: Blank, i: nat): seq<string>
    requires Inside(windows, text) && i <= |windows|
  {
    Cut(text, Pieces(text, windows[..i], blank))
  }

  lemma ChunksStep(windows: seq<Span>, text: string, blank: Blank, i: nat)
    requires Inside(windows, text) && i < |windows|
    ensures
      var s := Strip(text, blank, windows[i].lo, windows[i].hi);
      ChunksOf(windows, text, blank, i + 1)
      == ChunksOf(windows, text, blank, i) + (if s.lo < s.hi then [text[s.lo..s.hi]] else [])
  {
    PiecesStep(windows, text, blank, i);
    var s := Strip(text, blank, windows[i].lo, windows[i].hi);
    if s.lo < s.hi {
      CutAppend(text, Pieces(text, windows[..i], blank), s);
    }
  }

  lemma AllChunks(source: string, c: Config, blank: Blank)
    requires c.tokens > 0
    ensures
      var text := Stripped(source, blank);
      var windows := Windows(text, c, 0);
      && Inside(windows, text)
      && ChunksOf(windows, text, blank, |windows|) == Chunks(source, c, blank)
      && (windows == [] <==> text == [])
      && (text == [] ==> Chunks(source, c, blank) == [])
  {
    var text := Stripped(source, blank);
    WindowsInside(text, c);
    assert Windows(text, c, 0)[..|Windows(text, c, 0)|] == Windows(text, c, 0);
  }

  /** `_chunk`: nothing is left of a blank text; otherwise the cursor runs over the stripped text. */
  method Chunk(source: string, c: Config, blank: Blank) returns (chunks: seq<string>)
    requires c.tokens > 0
    ensures chunks == Chunks(source, c, blank)
  {
    var text := Stripped(source, blank);
    ghost var windows := Windows(text, c, 0);
    AllChunks(source, c, blank);
    if text == [] {
      return [];
    }
    forall i | 0 <= i < |windows|
      ensures Follows(windows, text, c, i) && windows[0].lo == 0
    {
      WindowAt(text, c, 0, i);
    }
    chunks := RunCursor(text, c, blank, windows);
  }

  method RunCursor(text: string, c: Config, blank: Blank, ghost windows: seq<Span>) returns (chunks: seq<string>)
    requires c.tokens > 0 && text != [] && Inside(windows, text)
    requires windows != [] && windows[0].lo == 0 && forall i | 0 <= i < |windows| :: Follows(windows, text, c, i)
    ensures chunks == ChunksOf(windows, text, blank, |windows|)
  {
    var size, overlap := c.Size(), c.Overlap();
    chunks := [];
    var cursor := 0;
    ghost var i := 0;
    while cursor < |text|
      invariant i < |windows| && cursor == windows[i].lo < |text|
      invariant chunks == ChunksOf(windows, text, blank, i)
    {
      assert Follows(windows, text, c, i);
      ChunksStep(windows, text, blank, i);
      var end := EndOf(text, size, cursor);
      var s := Strip(text, blank, cursor, end);
      if s.lo < s.hi {
        chunks := chunks + [text[s.lo..s.hi]];
      }
      if end >= |text| {
        break;
      }
      cursor := Max(end - overlap, cursor + 1);
      i := i + 1;
      assert Follows(windows, text, c, i);
    }
  }
}
