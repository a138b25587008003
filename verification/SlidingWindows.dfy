/**
 Windows sliding over 0..n, for any function that gives the end of the window starting at each position: the next
 window starts `overlap` before the last end, but always at least one further on.
 */
module SlidingWindows {
  // One pass of the loop: the half-open range [start, end).
  datatype Window = Window(start: nat, end: nat)

  function NextStart(overlap: nat, start: nat, end: nat): nat {
    if end - overlap > start + 1 then end - overlap else start + 1
  }

  // Every window from `start` on; the one that reaches n is the last.
  function Slide(n: nat, overlap: nat, ends: nat -> nat, start: nat): seq<Window>
    decreases n - start
  {
    if start >= n then []
    else if ends(start) >= n then [Window(start, ends(start))]
    else [Window(start, ends(start))] + Slide(n, overlap, ends, NextStart(overlap, start, ends(start)))
  }

  lemma SlideStep(n: nat, overlap: nat, ends: nat -> nat, before: seq<Window>, start: nat)
    requires start < n
    ensures var end := ends(start);
            before + Slide(n, overlap, ends, start) ==
            (before + [Window(start, end)])
            + if end >= n then [] else Slide(n, overlap, ends, NextStart(overlap, start, end))
  {
  }

  // A window is not empty, has at most `size` positions, and more than `minimum` unless it reaches n.
  predicate EndFits(n: nat, size: nat, minimum: nat, start: nat, end: nat) {
    start < end <= n && end <= start + size && (end < n ==> start + minimum < end)
  }

  ghost predicate EndsFit(n: nat, size: nat, minimum: nat, ends: nat -> nat) {
    forall s: nat :: s < n ==> EndFits(n, size, minimum, s, ends(s))
  }

  ghost predicate EndsNeverFall(n: nat, ends: nat -> nat) {
    forall s1: nat, s2: nat :: s1 < s2 < n ==> ends(s1) <= ends(s2)
  }

  lemma {:induction false} SlideIsRange(
    n: nat, size: nat, minimum: nat, overlap: nat, ends: nat -> nat, start: nat, k: nat)
    requires EndsFit(n, size, minimum, ends) && k < |Slide(n, overlap, ends, start)|
    ensures var ws := Slide(n, overlap, ends, start);
            && ws[0].start == start && start <= ws[k].start < ws[k].end <= n
            && ws[k].end - ws[k].start <= size
            && (ws[k].end == n <==> k == |ws| - 1)
    decreases k
  {
    assert EndFits(n, size, minimum, start, ends(start));
    if k > 0 {
      SlideIsRange(n, size, minimum, overlap, ends, NextStart(overlap, start, ends(start)), k - 1);
    }
  }

  // The least distance between successive starts.
  function LeastStep(minimum: nat, overlap: nat): (d: nat)
    ensures d >= 1
  {
    if minimum > overlap then minimum + 1 - overlap else 1
  }

  lemma {:induction false} AdjacentInSlide(
    n: nat, size: nat, minimum: nat, overlap: nat, ends: nat -> nat, start: nat, k: nat)
    requires EndsFit(n, size, minimum, ends) && EndsNeverFall(n, ends) && k + 1 < |Slide(n, overlap, ends, start)|
    ensures var ws := Slide(n, overlap, ends, start);
            && ws[k].start < ws[k + 1].start <= ws[k].end <= ws[k + 1].end
            && ws[k].end - ws[k + 1].start <= overlap
            && ws[k + 1].start - ws[k].start >= LeastStep(minimum, overlap)
    decreases k
  {
    assert EndFits(n, size, minimum, start, ends(start));
    var next := NextStart(overlap, start, ends(start));
    if k == 0 {
      assert Slide(n, overlap, ends, start)[1] == Slide(n, overlap, ends, next)[0] == Window(next, ends(next));
      assert ends(start) <= ends(next);
    } else {
      AdjacentInSlide(n, size, minimum, overlap, ends, next, k - 1);
    }
  }

  // Where each window starts and ends: it ends where `ends` says, and the next one goes back `overlap` from there,
  // or one past its start when that is further.
  lemma {:induction false} NeighboursExactly(n: nat, overlap: nat, ends: nat -> nat, start: nat, k: nat)
    requires k < |Slide(n, overlap, ends, start)|
    ensures var ws := Slide(n, overlap, ends, start);
            && ws[k].end == ends(ws[k].start)
            && (k + 1 < |ws| ==>
                  ws[k + 1].start == if ws[k].end > overlap + ws[k].start + 1 then ws[k].end - overlap
                                     else ws[k].start + 1)
    decreases k
  {
    if k > 0 {
      NeighboursExactly(n, overlap, ends, NextStart(overlap, start, ends(start)), k - 1);
    }
  }

  // ---------- how many windows there are ----------

  // k * d by repeated addition, which is how the starts move.
  function Times(k: nat, d: nat): nat { if k == 0 then 0 else Times(k - 1, d) + d }

  lemma {:induction false} StartAdvances(
    n: nat, size: nat, minimum: nat, overlap: nat, ends: nat -> nat, start: nat, k: nat)
    requires EndsFit(n, size, minimum, ends) && k < |Slide(n, overlap, ends, start)|
    ensures Slide(n, overlap, ends, start)[k].start >= start + Times(k, LeastStep(minimum, overlap))
    decreases k
  {
    assert EndFits(n, size, minimum, start, ends(start));
    if k > 0 {
      var next := NextStart(overlap, start, ends(start));
      StartAdvances(n, size, minimum, overlap, ends, next, k - 1);
      assert next >= start + LeastStep(minimum, overlap);
    }
  }

  lemma {:induction false} TimesIsProduct(k: nat, d: nat)
    ensures Times(k, d) == k * d
  {
    if k > 0 {
      TimesIsProduct(k - 1, d);
      assert (k - 1) * d + d == k * d;
    }
  }

  lemma TimesIsMonotone(a: nat, b: nat, d: nat)
    requires a <= b
    ensures a * d <= b * d
  {
  }

  lemma QuotientBound(k: nat, d: nat, total: nat)
    requires d > 0 && k * d <= total
    ensures k <= total / d
  {
    var q := total / d;
    assert total < q * d + d == (q + 1) * d;
    if k >= q + 1 {
      TimesIsMonotone(q + 1, k, d);
    }
  }

  lemma CountFromProgress(k: nat, d: nat, total: nat)
    requires d > 0 && Times(k, d) <= total
    ensures k <= total / d
  {
    TimesIsProduct(k, d);
    QuotientBound(k, d, total);
  }

  lemma SlideCountBound(n: nat, size: nat, minimum: nat, overlap: nat, ends: nat -> nat)
    requires n > 0 && EndsFit(n, size, minimum, ends)
    ensures 1 <= |Slide(n, overlap, ends, 0)| <= 1 + (n - 1) / LeastStep(minimum, overlap)
  {
    var last: nat := |Slide(n, overlap, ends, 0)| - 1;
    SlideIsRange(n, size, minimum, overlap, ends, 0, last);
    StartAdvances(n, size, minimum, overlap, ends, 0, last);
    CountFromProgress(last, LeastStep(minimum, overlap), n - 1);
  }

  // ---------- nothing is lost ----------

  // Each window's part beyond the previous window's end.
  function NewParts<T>(t: seq<T>, ws: seq<Window>, previousEnd: nat): seq<T> {
    if ws == [] then []
    else (if previousEnd <= ws[0].end <= |t| then t[previousEnd..ws[0].end] else []) + NewParts(t, ws[1..], ws[0].end)
  }

  lemma {:induction false} NewPartsRebuild<T>(
    t: seq<T>, size: nat, minimum: nat, overlap: nat, ends: nat -> nat, start: nat, previousEnd: nat)
    requires EndsFit(|t|, size, minimum, ends) && EndsNeverFall(|t|, ends)
    requires start < |t| && start <= previousEnd <= ends(start)
    ensures NewParts(t, Slide(|t|, overlap, ends, start), previousEnd) == t[previousEnd..]
    decreases |t| - start
  {
    var end := ends(start);
    assert EndFits(|t|, size, minimum, start, end);
    if end < |t| {
      var next := NextStart(overlap, start, end);
      assert next <= end <= ends(next);
      NewPartsRebuild(t, size, minimum, overlap, ends, next, end);
      var rest := Slide(|t|, overlap, ends, next);
      assert ([Window(start, end)] + rest)[1..] == rest;
      assert t[previousEnd..end] + t[end..] == t[previousEnd..];
    }
  }

  lemma {:induction false} SomeWindowCovers(
    n: nat, size: nat, minimum: nat, overlap: nat, ends: nat -> nat, start: nat, i: nat) returns (k: nat)
    requires EndsFit(n, size, minimum, ends) && start <= i < n
    ensures var ws := Slide(n, overlap, ends, start); k < |ws| && ws[k].start <= i < ws[k].end
    decreases n - start
  {
    assert EndFits(n, size, minimum, start, ends(start));
    if i < ends(start) {
      k := 0;
    } else {
      var k' := SomeWindowCovers(n, size, minimum, overlap, ends, NextStart(overlap, start, ends(start)), i);
      k := k' + 1;
    }
  }
}
