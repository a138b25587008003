/**
 The sliding-window text chunker: windows of at most `chunkSize` characters that end at the best natural
 break past 55% of the window, and that start `chunkOverlap` characters before the previous end.

 Positions below are positions in the stripped text.
 */
module TextChunking {
  import opened Outcomes
  import opened SlidingWindows

  datatype ChunkingError = SizeBelowMinimum | NegativeOverlap | OverlapNotBelowSize

  datatype TextChunk = TextChunk(index: nat, content: string, charCount: nat)

  // Most preferred first.
  const SEPARATORS: seq<string> := ["\n\n", "\n", ". ", " "]

  // The characters Python's `str.strip` removes.
  predicate IsSpace(c: char) {
    var n := c as int;
    || 9 <= n <= 13 || 28 <= n <= 32 || n == 0x85 || n == 0xA0 || n == 0x1680
    || 0x2000 <= n <= 0x200A || n == 0x2028 || n == 0x2029 || n == 0x202F || n == 0x205F || n == 0x3000
  }

  // These are the characters below U+10000 for which `str.isspace` holds.
  lemma SpacesAreThese(c: char)
    requires c as int < 0x1_0000
    ensures IsSpace(c) <==>
            c as int in {
              0x0009, 0x000A, 0x000B, 0x000C, 0x000D, 0x001C, 0x001D, 0x001E, 0x001F, 0x0020, 0x0085, 0x00A0, 0x1680,
              0x2000, 0x2001, 0x2002, 0x2003, 0x2004, 0x2005, 0x2006, 0x2007, 0x2008, 0x2009, 0x200A, 0x2028, 0x2029,
              0x202F, 0x205F, 0x3000}
  {
  }

  // First position of t[lo..hi] that is not white space, or hi.
  function SkipSpaces(t: string, lo: nat, hi: nat): (r: nat)
    requires lo <= hi <= |t|
    ensures lo <= r <= hi
    ensures r < hi ==> !IsSpace(t[r])
    decreases hi - lo
  {
    if lo < hi && IsSpace(t[lo]) then SkipSpaces(t, lo + 1, hi) else lo
  }

  lemma {:induction false} SkippedAreSpaces(t: string, lo: nat, hi: nat, i: nat)
    requires lo <= i < hi <= |t| && !IsSpace(t[i])
    ensures SkipSpaces(t, lo, hi) <= i
    decreases hi - lo
  {
    if IsSpace(t[lo]) {
      SkippedAreSpaces(t, lo + 1, hi, i);
    }
  }

  // End of t[lo..hi] once its trailing white space is dropped.
  function DropSpaces(t: string, lo: nat, hi: nat): (r: nat)
    requires lo <= hi <= |t|
    ensures lo <= r <= hi
    ensures lo < r ==> !IsSpace(t[r - 1])
    decreases hi - lo
  {
    if lo < hi && IsSpace(t[hi - 1]) then DropSpaces(t, lo, hi - 1) else hi
  }

  lemma {:induction false} DroppedAreSpaces(t: string, lo: nat, hi: nat, i: nat)
    requires lo <= i < hi <= |t| && !IsSpace(t[i])
    ensures i < DropSpaces(t, lo, hi)
    decreases hi - lo
  {
    if IsSpace(t[hi - 1]) {
      DroppedAreSpaces(t, lo, hi - 1, i);
    }
  }

  // The range of t[lo..hi].strip() inside t.
  function StrippedSpan(t: string, lo: nat, hi: nat): (w: Window)
    requires lo <= hi <= |t|
    ensures lo <= w.start <= w.end <= hi
    ensures w.start < w.end ==> !IsSpace(t[w.start]) && !IsSpace(t[w.end - 1])
  {
    var start := SkipSpaces(t, lo, hi);
    Window(start, DropSpaces(t, start, hi))
  }

  // Stripping loses no character but white space.
  lemma StrippedSpanKeeps(t: string, lo: nat, hi: nat, i: nat)
    requires lo <= i < hi <= |t| && !IsSpace(t[i])
    ensures var w := StrippedSpan(t, lo, hi); w.start <= i < w.end
  {
    SkippedAreSpaces(t, lo, hi, i);
    DroppedAreSpaces(t, SkipSpaces(t, lo, hi), hi, i);
  }

  function Strip(text: string): (t: string)
    ensures t != "" ==> !IsSpace(t[0]) && !IsSpace(t[|t| - 1])
  {
    var span := StrippedSpan(text, 0, |text|);
    text[span.start..span.end]
  }

  predicate IsBlank(text: string) { Strip(text) == "" }

  // Some character is not white space.
  predicate HasText(text: string) { exists i :: 0 <= i < |text| && !IsSpace(text[i]) }

  lemma BlankExactly(text: string)
    ensures IsBlank(text) <==> !HasText(text)
  {
    var span := StrippedSpan(text, 0, |text|);
    forall i | 0 <= i < |text| && !IsSpace(text[i]) ensures !IsBlank(text) {
      StrippedSpanKeeps(text, 0, |text|, i);
    }
    if !IsBlank(text) {
      assert !IsSpace(text[span.start]);
    }
  }

  predicate OccursAt(s: string, sep: string, i: int) {
    0 <= i && i + |sep| <= |s| && forall k :: 0 <= k < |sep| ==> s[i + k] == sep[k]
  }

  // Python's `s.rfind(sep)`, looking no further right than `from`.
  function RFind(s: string, sep: string, from: int): (index: int)
    requires from + |sep| <= |s|
    ensures -1 <= index <= from || (index == -1 && from < -1)
    ensures index >= 0 ==> OccursAt(s, sep, index)
    decreases from + 1
  {
    if from < 0 then -1
    else if OccursAt(s, sep, from) then from
    else RFind(s, sep, from - 1)
  }

  lemma {:induction false} RFindIsLast(s: string, sep: string, from: int, i: int)
    requires from + |sep| <= |s| && 0 <= i <= from && OccursAt(s, sep, i)
    ensures i <= RFind(s, sep, from)
    decreases from + 1
  {
    if !OccursAt(s, sep, from) {
      RFindIsLast(s, sep, from - 1, i);
    }
  }

  // int(chunk_size * 0.55)
  function MinimumBreak(chunkSize: nat): nat { chunkSize * 11 / 20 }

  // Separator `rank` stands at position p, inside the window and past the minimum break.
  predicate Qualifies(t: string, start: nat, hardEnd: nat, minimum: nat, rank: nat, p: int) {
    rank < |SEPARATORS| && start + minimum <= p && p + |SEPARATORS[rank]| <= hardEnd && OccursAt(t, SEPARATORS[rank], p)
  }

  // The preferred break of a window: no better separator qualifies, and this one nowhere later.
  ghost predicate IsBestBreak(t: string, start: nat, hardEnd: nat, minimum: nat, rank: nat, p: int) {
    && Qualifies(t, start, hardEnd, minimum, rank, p)
    && (forall r, q :: 0 <= r < rank ==> !Qualifies(t, start, hardEnd, minimum, r, q))
    && (forall q :: p < q ==> !Qualifies(t, start, hardEnd, minimum, rank, q))
  }

  ghost predicate NoBreakQualifies(t: string, start: nat, hardEnd: nat, minimum: nat, below: nat) {
    forall r, q :: 0 <= r < below ==> !Qualifies(t, start, hardEnd, minimum, r, q)
  }

  ghost predicate IsWindowEnd(t: string, start: nat, hardEnd: nat, minimum: nat, end: nat) {
    if hardEnd >= |t| then end == hardEnd
    else
      || (NoBreakQualifies(t, start, hardEnd, minimum, |SEPARATORS|) && end == hardEnd)
      || exists r: nat, p: int :: IsBestBreak(t, start, hardEnd, minimum, r, p) && end == p + |SEPARATORS[r]|
  }

  // An occurrence inside a window is an occurrence in the text.
  lemma OccursInWindow(t: string, start: nat, hardEnd: nat, sep: string, p: nat)
    requires start <= p && p + |sep| <= hardEnd <= |t|
    ensures OccursAt(t[start..hardEnd], sep, p - start) == OccursAt(t, sep, p)
  {
    var window := t[start..hardEnd];
    if OccursAt(t, sep, p) {
      forall k | 0 <= k < |sep| ensures window[p - start + k] == sep[k] {
        assert window[p - start + k] == t[p + k];
      }
    }
    if OccursAt(window, sep, p - start) {
      forall k | 0 <= k < |sep| ensures t[p + k] == sep[k] {
        assert window[p - start + k] == t[p + k];
      }
    }
  }

  // Where the separator of this rank occurs last in a window.
  function LastInWindow(window: string, rank: nat): int
    requires rank < |SEPARATORS|
  {
    RFind(window, SEPARATORS[rank], |window| - |SEPARATORS[rank]|)
  }

  // The last occurrence of a separator inside the window decides whether the separator qualifies at all.
  lemma LastOccurrenceDecides(t: string, start: nat, hardEnd: nat, minimum: nat, rank: nat)
    requires start <= hardEnd <= |t| && rank < |SEPARATORS|
    ensures var index := LastInWindow(t[start..hardEnd], rank);
            if index >= minimum then
              Qualifies(t, start, hardEnd, minimum, rank, start + index)
              && forall q :: start + index < q ==> !Qualifies(t, start, hardEnd, minimum, rank, q)
            else forall q :: !Qualifies(t, start, hardEnd, minimum, rank, q)
  {
    var sep, window := SEPARATORS[rank], t[start..hardEnd];
    var index := LastInWindow(window, rank);
    if index >= 0 {
      OccursInWindow(t, start, hardEnd, sep, start + index);
    }
    forall q | Qualifies(t, start, hardEnd, minimum, rank, q) ensures q <= start + index {
      OccursInWindow(t, start, hardEnd, sep, q);
      RFindIsLast(window, sep, |window| - |sep|, q - start);
    }
  }

  // How much of a window is kept: up to the last break of the best separator from `rank` on, or all of it.
  function BreakFrom(window: string, minimum: nat, rank: nat): (length: nat)
    requires rank <= |SEPARATORS| && minimum < |window|
    ensures minimum < length <= |window|
    decreases |SEPARATORS| - rank
  {
    if rank == |SEPARATORS| then |window|
    else
      var index := LastInWindow(window, rank);
      if index >= minimum then index + |SEPARATORS[rank]| else BreakFrom(window, minimum, rank + 1)
  }

  lemma BreakStep(window: string, minimum: nat, rank: nat)
    requires rank < |SEPARATORS| && minimum < |window|
    ensures var index := LastInWindow(window, rank);
            BreakFrom(window, minimum, rank) ==
            if index >= minimum then index + |SEPARATORS[rank]| else BreakFrom(window, minimum, rank + 1)
  {
  }

  lemma {:induction false} BreakIsBest(t: string, start: nat, hardEnd: nat, minimum: nat, rank: nat)
    requires start <= hardEnd < |t| && rank <= |SEPARATORS| && start + minimum < hardEnd
    requires NoBreakQualifies(t, start, hardEnd, minimum, rank)
    ensures IsWindowEnd(t, start, hardEnd, minimum, start + BreakFrom(t[start..hardEnd], minimum, rank))
    decreases |SEPARATORS| - rank
  {
    if rank < |SEPARATORS| {
      var index := LastInWindow(t[start..hardEnd], rank);
      LastOccurrenceDecides(t, start, hardEnd, minimum, rank);
      if index >= minimum {
        assert IsBestBreak(t, start, hardEnd, minimum, rank, start + index);
      } else {
        BreakIsBest(t, start, hardEnd, minimum, rank + 1);
      }
    }
  }

  // A chunker: two settings fixed at construction.
  datatype TextChunker = TextChunker(chunkSize: nat, chunkOverlap: nat) {
    predicate Valid() { 200 <= chunkSize && chunkOverlap < chunkSize }

    function HardEnd(t: string, start: nat): nat
      requires start < |t|
    {
      if start + chunkSize < |t| then start + chunkSize else |t|
    }

    function WindowEnd(t: string, start: nat): (end: nat)
      requires Valid() && start < |t|
      ensures start < end <= HardEnd(t, start)
      ensures end < |t| ==> start + MinimumBreak(chunkSize) < end
    {
      var hardEnd := HardEnd(t, start);
      if hardEnd >= |t| then hardEnd else start + BreakFrom(t[start..hardEnd], MinimumBreak(chunkSize), 0)
    }

    lemma WindowEndIsBest(t: string, start: nat)
      requires Valid() && start < |t|
      ensures IsWindowEnd(t, start, HardEnd(t, start), MinimumBreak(chunkSize), WindowEnd(t, start))
    {
      if HardEnd(t, start) < |t| {
        BreakIsBest(t, start, HardEnd(t, start), MinimumBreak(chunkSize), 0);
      }
    }

    // Where the window that starts at each position ends.
    function Ends(t: string): nat -> nat
      requires Valid()
    {
      (start: nat) => if start < |t| then WindowEnd(t, start) else |t|
    }

    // Every pass of the chunking loop over t.
    function Windows(t: string): seq<Window>
      requires Valid()
    {
      Slide(|t|, chunkOverlap, Ends(t), 0)
    }

    method FindNaturalBreak(t: string, start: nat, hardEnd: nat) returns (end: nat)
      requires Valid() && start < |t| && hardEnd == HardEnd(t, start)
      ensures end == WindowEnd(t, start)
      ensures IsWindowEnd(t, start, hardEnd, MinimumBreak(chunkSize), end)
    {
      WindowEndIsBest(t, start);
      if hardEnd >= |t| {
        return hardEnd;
      }
      var searchWindow := t[start..hardEnd];
      ghost var kept := WindowEnd(t, start) - start;
      for rank := 0 to |SEPARATORS|
        invariant kept == BreakFrom(searchWindow, MinimumBreak(chunkSize), rank)
      {
        var index := LastInWindow(searchWindow, rank);
        var minimumBreak := MinimumBreak(chunkSize);
        BreakStep(searchWindow, minimumBreak, rank);
        if index >= minimumBreak {
          return start + index + |SEPARATORS[rank]|;
        }
      }
      end := hardEnd;
    }

    method Chunk(text: string) returns (chunks: seq<TextChunk>)
      requires Valid()
      ensures chunks == ChunksOf(this, text)
    {
      var normalized := Strip(text);
      if normalized == "" {
        assert Windows(normalized) == [];
        return [];
      }
      chunks := [];
      var start := 0;
      ghost var ends := Ends(normalized);
      ghost var done: seq<Window> := [];
      while start < |normalized|
        invariant done + Slide(|normalized|, chunkOverlap, ends, start) == Windows(normalized)
        invariant chunks == Emitted(normalized, done)
        decreases |normalized| - start
      {
        var hardEnd := if start + chunkSize < |normalized| then start + chunkSize else |normalized|;
        var end := FindNaturalBreak(normalized, start, hardEnd);
        var content := Content(normalized, Window(start, end));
        EmittedSnoc(normalized, done, Window(start, end));
        assert end == ends(start);
        SlideStep(|normalized|, chunkOverlap, ends, done, start);
        done := done + [Window(start, end)];
        if content != "" {
          chunks := chunks + [TextChunk(|chunks|, content, |content|)];
        }
        if end >= |normalized| {
          break;
        }
        start := NextStart(chunkOverlap, start, end);
      }
      assert start >= |normalized| ==> Slide(|normalized|, chunkOverlap, ends, start) == [];
      assert done == Windows(normalized);
    }
  }

  function NewChunker(chunkSize: int, chunkOverlap: int): (r: Result<TextChunker, ChunkingError>)
    ensures r.Ok? ==> r.value.Valid()
    ensures r.Ok? <==> 200 <= chunkSize && 0 <= chunkOverlap < chunkSize
  {
    if chunkSize < 200 then Err(SizeBelowMinimum)
    else if chunkOverlap < 0 then Err(NegativeOverlap)
    else if chunkOverlap >= chunkSize then Err(OverlapNotBelowSize)
    else Ok(TextChunker(chunkSize, chunkOverlap))
  }

  // The separator stands nowhere in this part of the text.
  predicate Absent(t: string, lo: nat, hi: nat, sep: string) {
    forall p :: lo <= p && p + |sep| <= hi ==> !OccursAt(t, sep, p)
  }

  // The part of the text holds the separator, last just before `end`.
  predicate IsLastEnd(t: string, lo: nat, hi: nat, sep: string, end: nat) {
    && lo + |sep| <= end <= hi && OccursAt(t, sep, end - |sep|)
    && forall p :: end - |sep| < p && p + |sep| <= hi ==> !OccursAt(t, sep, p)
  }

  lemma AbsentExactly(t: string, start: nat, hardEnd: nat, minimum: nat, rank: nat)
    requires rank < |SEPARATORS|
    ensures (forall p :: !Qualifies(t, start, hardEnd, minimum, rank, p)) <==>
            Absent(t, start + minimum, hardEnd, SEPARATORS[rank])
  {
    if forall p :: !Qualifies(t, start, hardEnd, minimum, rank, p) {
      forall p | start + minimum <= p && p + |SEPARATORS[rank]| <= hardEnd ensures !OccursAt(t, SEPARATORS[rank], p) {
        assert !Qualifies(t, start, hardEnd, minimum, rank, p);
      }
    }
  }

  lemma BestBreakIsLastEnd(t: string, start: nat, hardEnd: nat, minimum: nat, rank: nat, p: int)
    requires IsBestBreak(t, start, hardEnd, minimum, rank, p)
    ensures rank < |SEPARATORS| && p + |SEPARATORS[rank]| >= 0
    ensures IsLastEnd(t, start + minimum, hardEnd, SEPARATORS[rank], p + |SEPARATORS[rank]|)
    ensures !Absent(t, start + minimum, hardEnd, SEPARATORS[rank])
    ensures forall r :: 0 <= r < rank ==> Absent(t, start + minimum, hardEnd, SEPARATORS[r])
  {
    forall q | p < q && q + |SEPARATORS[rank]| <= hardEnd ensures !OccursAt(t, SEPARATORS[rank], q) {
      assert !Qualifies(t, start, hardEnd, minimum, rank, q);
    }
    forall r: nat | r < rank ensures Absent(t, start + minimum, hardEnd, SEPARATORS[r]) {
      AbsentExactly(t, start, hardEnd, minimum, r);
    }
    AbsentExactly(t, start, hardEnd, minimum, rank);
  }

  // After the last paragraph break in this part of the text if there is one, else the last line break, else the last
  // sentence end, else the last space, else at the end of the part.
  predicate EndsByPreference(t: string, lo: nat, hi: nat, end: nat) {
    if !Absent(t, lo, hi, "\n\n") then IsLastEnd(t, lo, hi, "\n\n", end)
    else if !Absent(t, lo, hi, "\n") then IsLastEnd(t, lo, hi, "\n", end)
    else if !Absent(t, lo, hi, ". ") then IsLastEnd(t, lo, hi, ". ", end)
    else if !Absent(t, lo, hi, " ") then IsLastEnd(t, lo, hi, " ", end)
    else end == hi
  }

  lemma PreferenceByRank(t: string, lo: nat, hi: nat, rank: nat, end: nat)
    requires rank <= |SEPARATORS| && forall r :: 0 <= r < rank ==> Absent(t, lo, hi, SEPARATORS[r])
    requires if rank == |SEPARATORS| then end == hi
             else !Absent(t, lo, hi, SEPARATORS[rank]) && IsLastEnd(t, lo, hi, SEPARATORS[rank], end)
    ensures EndsByPreference(t, lo, hi, end)
  {
    assert SEPARATORS[0] == "\n\n" && SEPARATORS[1] == "\n" && SEPARATORS[2] == ". " && SEPARATORS[3] == " ";
  }

  lemma EndByPreference(t: string, start: nat, hi: nat, minimum: nat, end: nat)
    requires hi < |t| && IsWindowEnd(t, start, hi, minimum, end)
    ensures EndsByPreference(t, start + minimum, hi, end)
  {
    if r: nat, p: int :| IsBestBreak(t, start, hi, minimum, r, p) && end == p + |SEPARATORS[r]| {
      BestBreakIsLastEnd(t, start, hi, minimum, r, p);
      PreferenceByRank(t, start + minimum, hi, r, end);
    } else {
      forall r: nat | r < |SEPARATORS| ensures Absent(t, start + minimum, hi, SEPARATORS[r]) {
        AbsentExactly(t, start, hi, minimum, r);
      }
      PreferenceByRank(t, start + minimum, hi, |SEPARATORS|, end);
    }
  }

  // How a window short of the end of the text ends, between its minimum break and its full length.
  lemma WindowEndByPreference(c: TextChunker, t: string, start: nat)
    requires c.Valid() && start < |t| && start + c.chunkSize < |t|
    ensures EndsByPreference(t, start + MinimumBreak(c.chunkSize), start + c.chunkSize, c.WindowEnd(t, start))
  {
    c.WindowEndIsBest(t, start);
    EndByPreference(t, start, start + c.chunkSize, MinimumBreak(c.chunkSize), c.WindowEnd(t, start));
  }

  // Where a window's stripped text is (a range outside t has none).
  function SpanOf(t: string, w: Window): (span: Window)
    ensures span.start <= span.end <= |t|
  {
    if w.start <= w.end <= |t| then StrippedSpan(t, w.start, w.end) else Window(0, 0)
  }

  function Content(t: string, w: Window): string { t[SpanOf(t, w).start..SpanOf(t, w).end] }

  // The chunks of a run of windows: the stripped content of each window that has any, numbered in order.
  function Emitted(t: string, ws: seq<Window>): (chunks: seq<TextChunk>)
  {
    if ws == [] then []
    else
      var earlier := Emitted(t, ws[..|ws| - 1]);
      var content := Content(t, ws[|ws| - 1]);
      if content == "" then earlier else earlier + [TextChunk(|earlier|, content, |content|)]
  }

  lemma EmittedSnoc(t: string, ws: seq<Window>, w: Window)
    ensures var earlier, content := Emitted(t, ws), Content(t, w);
            Emitted(t, ws + [w]) ==
            if content == "" then earlier else earlier + [TextChunk(|earlier|, content, |content|)]
  {
    assert (ws + [w])[..|ws|] == ws;
  }

  // ---------- where the windows are ----------

  lemma EndsFitText(c: TextChunker, t: string)
    requires c.Valid()
    ensures EndsFit(|t|, c.chunkSize, MinimumBreak(c.chunkSize), c.Ends(t))
  {
    forall s: nat | s < |t| ensures EndFits(|t|, c.chunkSize, MinimumBreak(c.chunkSize), s, c.Ends(t)(s)) {
    }
  }

  lemma BestBreaksAreMonotone(t: string, s1: nat, s2: nat, h1: nat, h2: nat, m: nat, e1: nat, e2: nat)
    requires s1 < s2 && h1 <= h2 <= |t| && e1 <= h1 && e2 <= h2
    requires IsWindowEnd(t, s1, h1, m, e1) && IsWindowEnd(t, s2, h2, m, e2)
    ensures e1 <= e2
  {
    if h2 < |t| && e2 < h1 {
      var r2: nat, p2: int :| IsBestBreak(t, s2, h2, m, r2, p2) && e2 == p2 + |SEPARATORS[r2]|;
      // the later window's break also fits in the earlier window
      assert Qualifies(t, s1, h1, m, r2, p2);
      var r1: nat, p1: int :| IsBestBreak(t, s1, h1, m, r1, p1) && e1 == p1 + |SEPARATORS[r1]|;
      if p1 >= s2 + m {
        assert Qualifies(t, s2, h2, m, r1, p1);
        assert r1 == r2;
      } else {
        assert p1 < p2 && |SEPARATORS[r1]| <= 2 && 1 <= |SEPARATORS[r2]|;
      }
    }
  }

  // The heart of the matter: sliding the window right never moves the chosen end left. A break that no
  // longer clears the minimum is behind every break that does; one that still clears it is still there.
  lemma WindowEndIsMonotone(c: TextChunker, t: string, s1: nat, s2: nat)
    requires c.Valid() && s1 < s2 < |t|
    ensures c.WindowEnd(t, s1) <= c.WindowEnd(t, s2)
  {
    c.WindowEndIsBest(t, s1);
    c.WindowEndIsBest(t, s2);
    BestBreaksAreMonotone(t, s1, s2, c.HardEnd(t, s1), c.HardEnd(t, s2), MinimumBreak(c.chunkSize),
                          c.WindowEnd(t, s1), c.WindowEnd(t, s2));
  }

  lemma EndsAreMonotone(c: TextChunker, t: string)
    requires c.Valid()
    ensures EndsNeverFall(|t|, c.Ends(t))
  {
    forall s1: nat, s2: nat | s1 < s2 < |t| ensures c.Ends(t)(s1) <= c.Ends(t)(s2) {
      WindowEndIsMonotone(c, t, s1, s2);
    }
  }

  // Every window is a non-empty range of at most `chunkSize` characters; the last one and only it ends the text.
  lemma WindowIsRange(c: TextChunker, t: string, k: nat)
    requires c.Valid() && k < |c.Windows(t)|
    ensures var ws := c.Windows(t);
            && ws[0].start == 0 && ws[k].start < ws[k].end <= |t|
            && ws[k].end - ws[k].start <= c.chunkSize
            && (ws[k].end == |t| <==> k == |ws| - 1)
  {
    EndsFitText(c, t);
    SlideIsRange(|t|, c.chunkSize, MinimumBreak(c.chunkSize), c.chunkOverlap, c.Ends(t), 0, k);
  }

  // The least distance between successive window starts.
  function Stride(c: TextChunker): (d: nat)
    ensures d >= 1
  {
    LeastStep(MinimumBreak(c.chunkSize), c.chunkOverlap)
  }

  lemma AdjacentWindows(c: TextChunker, t: string, k: nat)
    requires c.Valid() && k + 1 < |c.Windows(t)|
    ensures var ws := c.Windows(t);
            && ws[k].start < ws[k + 1].start <= ws[k].end <= ws[k + 1].end
            && ws[k].end - ws[k + 1].start <= c.chunkOverlap
            && ws[k + 1].start - ws[k].start >= Stride(c)
  {
    EndsFitText(c, t);
    EndsAreMonotone(c, t);
    AdjacentInSlide(|t|, c.chunkSize, MinimumBreak(c.chunkSize), c.chunkOverlap, c.Ends(t), 0, k);
  }

  lemma EndIsBest(c: TextChunker, t: string, w: Window)
    requires c.Valid() && w.start < |t| && w.end == c.WindowEnd(t, w.start)
    ensures IsWindowEnd(t, w.start, if w.start + c.chunkSize < |t| then w.start + c.chunkSize else |t|,
                        c.chunkSize * 11 / 20, w.end)
  {
    c.WindowEndIsBest(t, w.start);
  }

  lemma WindowEndsAt(c: TextChunker, t: string, k: nat)
    requires c.Valid() && k < |c.Windows(t)|
    ensures c.Windows(t)[k].start < |t| && c.Windows(t)[k].end == c.WindowEnd(t, c.Windows(t)[k].start)
  {
    WindowIsRange(c, t, k);
    NeighboursExactly(|t|, c.chunkOverlap, c.Ends(t), 0, k);
  }

  // Every window ends at its best break, or at its full length.
  lemma WindowsEndBest(c: TextChunker, t: string, k: nat)
    requires c.Valid() && k < |c.Windows(t)|
    ensures var ws := c.Windows(t);
            IsWindowEnd(t, ws[k].start, if ws[k].start + c.chunkSize < |t| then ws[k].start + c.chunkSize else |t|,
                        c.chunkSize * 11 / 20, ws[k].end)
  {
    WindowEndsAt(c, t, k);
    EndIsBest(c, t, c.Windows(t)[k]);
  }

  // The next window starts exactly the overlap before that end, unless the window is too short for it: then one past
  // its start.
  lemma NeighboursShareTheOverlap(c: TextChunker, t: string, k: nat)
    requires c.Valid() && k + 1 < |c.Windows(t)|
    ensures var w, next := c.Windows(t)[k], c.Windows(t)[k + 1];
            if w.end - w.start > c.chunkOverlap + 1 then w.end - next.start == c.chunkOverlap
            else next.start == w.start + 1
  {
    NeighboursExactly(|t|, c.chunkOverlap, c.Ends(t), 0, k);
  }

  lemma {:induction false} StartsIncreaseAndEndsNeverDecrease(c: TextChunker, t: string, i: nat, j: nat)
    requires c.Valid() && i < j < |c.Windows(t)|
    ensures c.Windows(t)[i].start < c.Windows(t)[j].start
    ensures c.Windows(t)[i].end <= c.Windows(t)[j].end
    decreases j
  {
    AdjacentWindows(c, t, j - 1);
    if i < j - 1 {
      StartsIncreaseAndEndsNeverDecrease(c, t, i, j - 1);
    }
  }

  // The loop ends after at most this many passes.
  lemma WindowCountBound(c: TextChunker, t: string)
    requires c.Valid() && t != ""
    ensures 1 <= |c.Windows(t)| <= 1 + (|t| - 1) / Stride(c)
  {
    EndsFitText(c, t);
    assert c.Windows(t) == Slide(|t|, c.chunkOverlap, c.Ends(t), 0);
    SlideCountBound(|t|, c.chunkSize, MinimumBreak(c.chunkSize), c.chunkOverlap, c.Ends(t));
  }

  // ---------- nothing is lost ----------

  // Putting the windows' parts beyond the previous end one after the other gives back the stripped text.
  lemma WindowsRebuildText(c: TextChunker, t: string)
    requires c.Valid()
    ensures NewParts(t, c.Windows(t), 0) == t
  {
    EndsFitText(c, t);
    EndsAreMonotone(c, t);
    if t != "" {
      NewPartsRebuild(t, c.chunkSize, MinimumBreak(c.chunkSize), c.chunkOverlap, c.Ends(t), 0, 0);
      assert t[0..] == t;
    }
  }

  // Where the chunks come from: the stripped spans of the windows that have text, in order.
  function Spans(t: string, ws: seq<Window>): seq<Window> {
    if ws == [] then []
    else
      var earlier, span := Spans(t, ws[..|ws| - 1]), SpanOf(t, ws[|ws| - 1]);
      if span.start == span.end then earlier else earlier + [span]
  }

  lemma {:induction false} SameCount(t: string, ws: seq<Window>)
    ensures |Emitted(t, ws)| == |Spans(t, ws)|
    decreases |ws|
  {
    if ws != [] {
      SameCount(t, ws[..|ws| - 1]);
    }
  }

  // Chunk j is exactly the text of span j.
  lemma {:induction false} ChunkIsItsSpan(t: string, ws: seq<Window>, j: nat)
    requires j < |Emitted(t, ws)| || j < |Spans(t, ws)|
    ensures |Emitted(t, ws)| == |Spans(t, ws)|
    ensures var span := Spans(t, ws)[j];
            && span.start < span.end <= |t|
            && Emitted(t, ws)[j] == TextChunk(j, t[span.start..span.end], span.end - span.start)
    decreases |ws|
  {
    var front := ws[..|ws| - 1];
    SameCount(t, front);
    if j < |Spans(t, front)| {
      ChunkIsItsSpan(t, front, j);
    }
  }

  lemma {:induction false} WindowIsEmitted(t: string, ws: seq<Window>, k: nat) returns (j: nat)
    requires k < |ws| && SpanOf(t, ws[k]).start < SpanOf(t, ws[k]).end
    ensures j < |Spans(t, ws)| && Spans(t, ws)[j] == SpanOf(t, ws[k])
    decreases |ws|
  {
    var n := |ws| - 1;
    if k < n {
      j := WindowIsEmitted(t, ws[..n], k);
    } else {
      j := |Spans(t, ws[..n])|;
    }
  }

  lemma {:induction false} SpanComesFromWindow(t: string, ws: seq<Window>, j: nat) returns (k: nat)
    requires j < |Spans(t, ws)|
    ensures k < |ws| && Spans(t, ws)[j] == SpanOf(t, ws[k])
    decreases |ws|
  {
    var n := |ws| - 1;
    if j < |Spans(t, ws[..n])| {
      k := SpanComesFromWindow(t, ws[..n], j);
    } else {
      k := n;
    }
  }

  // The chunks of a text, as the chunking loop returns them.
  function ChunksOf(c: TextChunker, text: string): seq<TextChunk>
    requires c.Valid()
  {
    Emitted(Strip(text), c.Windows(Strip(text)))
  }

  // Chunk j is the text of a range that contains position i.
  predicate HoldsPosition(t: string, chunk: TextChunk, span: Window, i: nat) {
    span.start <= i < span.end <= |t| && chunk.content == t[span.start..span.end]
  }

  // Every character of the stripped text that is not white space lies, at its own position, in some chunk.
  lemma EveryCharacterIsChunked(c: TextChunker, text: string, i: nat) returns (j: nat)
    requires c.Valid() && i < |Strip(text)| && !IsSpace(Strip(text)[i])
    ensures var t := Strip(text);
            && j < |ChunksOf(c, text)| && j < |Spans(t, c.Windows(t))|
            && HoldsPosition(t, ChunksOf(c, text)[j], Spans(t, c.Windows(t))[j], i)
  {
    var t := Strip(text);
    var ws := c.Windows(t);
    EndsFitText(c, t);
    var k := SomeWindowCovers(|t|, c.chunkSize, MinimumBreak(c.chunkSize), c.chunkOverlap, c.Ends(t), 0, i);
    WindowIsRange(c, t, k);
    StrippedSpanKeeps(t, ws[k].start, ws[k].end, i);
    j := WindowIsEmitted(t, ws, k);
    ChunkIsItsSpan(t, ws, j);
  }

  lemma SpanIsTight(t: string, w: Window)
    requires SpanOf(t, w).start < SpanOf(t, w).end
    ensures w.start <= SpanOf(t, w).start && SpanOf(t, w).end <= w.end <= |t|
    ensures !IsSpace(t[SpanOf(t, w).start]) && !IsSpace(t[SpanOf(t, w).end - 1])
  {
  }

  predicate IsStripped(text: string) { text != "" && !IsSpace(text[0]) && !IsSpace(text[|text| - 1]) }

  lemma EndsOfSlice(t: string, span: Window)
    requires span.start < span.end <= |t| && !IsSpace(t[span.start]) && !IsSpace(t[span.end - 1])
    ensures IsStripped(t[span.start..span.end])
  {
  }

  // A chunk of some windows is as long as its count says, no longer than its window, and stripped.
  lemma ChunkIsWellFormed(t: string, ws: seq<Window>, j: nat) returns (k: nat)
    requires j < |Emitted(t, ws)|
    ensures var chunk := Emitted(t, ws)[j];
            && k < |ws| && ws[k].start <= ws[k].end <= |t|
            && chunk.index == j && chunk.charCount == |chunk.content|
            && IsStripped(chunk.content) && |chunk.content| <= ws[k].end - ws[k].start
  {
    ChunkIsItsSpan(t, ws, j);
    k := SpanComesFromWindow(t, ws, j);
    SpanIsTight(t, ws[k]);
    EndsOfSlice(t, SpanOf(t, ws[k]));
  }

  lemma ChunksAreWellFormed(c: TextChunker, text: string, j: nat)
    requires c.Valid() && j < |ChunksOf(c, text)|
    ensures var chunk := ChunksOf(c, text)[j];
            && chunk.index == j
            && chunk.charCount == |chunk.content|
            && 1 <= |chunk.content| <= c.chunkSize
            && !IsSpace(chunk.content[0]) && !IsSpace(chunk.content[|chunk.content| - 1])
  {
    var k := ChunkIsWellFormed(Strip(text), c.Windows(Strip(text)), j);
    WindowIsRange(c, Strip(text), k);
  }

  lemma NonBlankTextHasChunks(c: TextChunker, text: string)
    requires c.Valid()
    ensures ChunksOf(c, text) != [] <==> HasText(text)
  {
    BlankExactly(text);
    if Strip(text) != "" {
      var _ := EveryCharacterIsChunked(c, text, 0);
    }
  }
}
