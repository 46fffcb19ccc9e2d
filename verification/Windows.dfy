/** Half-open time windows in milliseconds, and the coalescing of window lists that the
    audio cutter and the statistics code both perform. */
module Windows {
  import opened Basics
  import opened Sorting

  datatype Window = Window(start: int, end: int) {
    predicate Nonempty() { start < end }

    function Length(): int { end - start }

    predicate Has(t: int) { start <= t < end }
  }

  predicate ByStart(a: Window, b: Window) { a.start <= b.start }

  predicate AllNonempty(ws: seq<Window>) {
    forall i :: 0 <= i < |ws| ==> ws[i].Nonempty()
  }

  ghost predicate Covered(ws: seq<Window>, t: int) {
    exists i :: 0 <= i < |ws| && ws[i].Has(t)
  }

  /** Nonempty windows in order, each more than `gap` behind the one before. */
  ghost predicate Separated(ws: seq<Window>, gap: int) {
    && AllNonempty(ws)
    && forall i, j :: 0 <= i < j < |ws| ==> ws[i].end + gap < ws[j].start
  }

  /** Nonempty windows in order that may touch but do not overlap. */
  ghost predicate Disjoint(ws: seq<Window>) {
    && AllNonempty(ws)
    && forall i, j :: 0 <= i < j < |ws| ==> ws[i].end <= ws[j].start
  }

  /** `t` lies between the end of one window and the start of another at most `gap` later. */
  ghost predicate Bridged(ws: seq<Window>, t: int, gap: int) {
    exists i, j :: 0 <= i < |ws| && 0 <= j < |ws| && ws[i].end <= t < ws[j].start <= ws[i].end + gap
  }

  /** The set of points a coalesced list has to cover. */
  ghost predicate Filled(ws: seq<Window>, t: int, gap: int) {
    Covered(ws, t) || Bridged(ws, t, gap)
  }

  /** The nonempty windows, in their order. */
  function Proper(ws: seq<Window>): seq<Window> {
    if ws == [] then []
    else
      var init, last := ws[..|ws| - 1], ws[|ws| - 1];
      if last.Nonempty() then Proper(init) + [last] else Proper(init)
  }

  lemma {:induction false} ProperKeeps(ws: seq<Window>)
    ensures AllNonempty(Proper(ws))
    ensures forall w :: w in Proper(ws) <==> w in ws && w.Nonempty()
  {
    if ws == [] {
    } else {
      var init, last := ws[..|ws| - 1], ws[|ws| - 1];
      assert ws == init + [last];
      ProperKeeps(init);
    }
  }

  function TotalLength(ws: seq<Window>): int {
    if ws == [] then 0 else TotalLength(ws[..|ws| - 1]) + ws[|ws| - 1].Length()
  }

  // ---------- coalescing ----------

  /** One turn of the coalescing loop: extend the last window or append a new one. */
  function Absorb(merged: seq<Window>, w: Window, gap: int): seq<Window> {
    if merged == [] then
      [w]
    else
      var last := merged[|merged| - 1];
      if w.start <= last.end + gap then
        merged[|merged| - 1 := Window(last.start, Max(last.end, w.end))]
      else
        merged + [w]
  }

  function CoalesceSorted(ws: seq<Window>, gap: int): seq<Window> {
    if ws == [] then [] else Absorb(CoalesceSorted(ws[..|ws| - 1], gap), ws[|ws| - 1], gap)
  }

  function Coalesce(ws: seq<Window>, gap: int): seq<Window> {
    CoalesceSorted(Sort(ByStart, ws), gap)
  }

  lemma {:induction false} ByStartIsPreorder()
    ensures TotalPreorder(ByStart)
  {
  }

  /** What the fold knows after a prefix: the output is separated, starts where the input does,
      ends at the greatest end seen, and covers exactly the filled points. */
  ghost predicate CoalescedFrom(m: seq<Window>, ws: seq<Window>, gap: int) {
    && Separated(m, gap)
    && (m == [] <==> ws == [])
    && (forall t :: Covered(m, t) <==> Filled(ws, t, gap))
    && (m != [] ==>
          && (exists i :: 0 <= i < |ws| && ws[i].end == m[|m| - 1].end)
          && (forall i :: 0 <= i < |ws| ==> m[0].start <= ws[i].start && ws[i].end <= m[|m| - 1].end))
  }

  lemma {:induction false} CoveredAppend(ws: seq<Window>, w: Window, t: int)
    ensures Covered(ws + [w], t) <==> Covered(ws, t) || w.Has(t)
  {
    if Covered(ws, t) {
      var i :| 0 <= i < |ws| && ws[i].Has(t);
      assert (ws + [w])[i].Has(t);
    }
    if w.Has(t) {
      assert (ws + [w])[|ws|].Has(t);
    }
  }

  lemma {:induction false} CoveredConcat(a: seq<Window>, b: seq<Window>, t: int)
    ensures Covered(a + b, t) <==> Covered(a, t) || Covered(b, t)
  {
    if Covered(a, t) {
      var i :| 0 <= i < |a| && a[i].Has(t);
      assert (a + b)[i].Has(t);
    }
    if Covered(b, t) {
      var i :| 0 <= i < |b| && b[i].Has(t);
      assert (a + b)[|a| + i].Has(t);
    }
  }

  lemma {:induction false} BridgedAppend(ws: seq<Window>, w: Window, top: int, gap: int, t: int)
    requires top <= t < w.start <= top + gap
    requires exists i :: 0 <= i < |ws| && ws[i].end == top
    ensures Bridged(ws + [w], t, gap)
  {
    var all := ws + [w];
    var i :| 0 <= i < |ws| && ws[i].end == top;
    assert all[i].end <= t < all[|ws|].start <= all[i].end + gap;
  }

  lemma {:induction false} FilledGrows(ws: seq<Window>, w: Window, gap: int, t: int)
    requires Filled(ws, t, gap) || w.Has(t)
    ensures Filled(ws + [w], t, gap)
  {
    var all := ws + [w];
    CoveredAppend(ws, w, t);
    if Bridged(ws, t, gap) {
      var i, j :| 0 <= i < |ws| && 0 <= j < |ws| && ws[i].end <= t < ws[j].start <= ws[i].end + gap;
      assert all[i].end <= t < all[j].start <= all[i].end + gap;
    }
  }

  /** A stretch newly bridged by a window that starts last runs from the greatest end so far. */
  lemma {:induction false} BridgedAnew(ws: seq<Window>, w: Window, top: int, gap: int, t: int)
    requires Bridged(ws + [w], t, gap) && !Filled(ws, t, gap) && !w.Has(t) && w.Nonempty()
    requires forall i :: 0 <= i < |ws| ==> ws[i].start <= w.start && ws[i].end <= top
    requires exists i :: 0 <= i < |ws| && ws[i].end == top
    ensures top <= t < w.start <= top + gap
  {
    var all := ws + [w];
    var i, j :| 0 <= i < |all| && 0 <= j < |all| && all[i].end <= t < all[j].start <= all[i].end + gap;
    assert i < |ws| && j == |ws|;
    // The window reaching `top` holds t unless t lies behind it.
    var k :| 0 <= k < |ws| && ws[k].end == top;
    assert !ws[k].Has(t);
  }

  /** Adding a window that starts last bridges exactly the stretch from the greatest end so far. */
  lemma {:induction false} FilledAppend(ws: seq<Window>, w: Window, top: int, gap: int, t: int)
    requires ws != [] && w.Nonempty() && 0 <= gap
    requires forall i :: 0 <= i < |ws| ==> ws[i].start <= w.start && ws[i].end <= top
    requires exists i :: 0 <= i < |ws| && ws[i].end == top
    ensures Filled(ws + [w], t, gap) <==>
              Filled(ws, t, gap) || w.Has(t) || (top <= t < w.start <= top + gap)
  {
    CoveredAppend(ws, w, t);
    if Filled(ws, t, gap) || w.Has(t) {
      FilledGrows(ws, w, gap, t);
    } else if top <= t < w.start <= top + gap {
      BridgedAppend(ws, w, top, gap, t);
    } else if Bridged(ws + [w], t, gap) {
      BridgedAnew(ws, w, top, gap, t);
    }
  }

  lemma {:induction false} AbsorbFirst(w: Window, gap: int)
    requires w.Nonempty() && 0 <= gap
    ensures CoalescedFrom([w], [w], gap)
  {
    assert [w][0] == w;
  }

  lemma {:induction false} CoveredReplaceLast(m: seq<Window>, w: Window, t: int)
    requires m != []
    ensures Covered(m[|m| - 1 := w], t) <==> Covered(m[..|m| - 1], t) || w.Has(t)
  {
    assert m[|m| - 1 := w] == m[..|m| - 1] + [w];
    CoveredAppend(m[..|m| - 1], w, t);
  }

  /** Absorbing covers the new window and, when it joins the last one, the gap between them. */
  lemma {:induction false} AbsorbCovers(m: seq<Window>, w: Window, gap: int, t: int)
    requires m != [] && AllNonempty(m) && w.Nonempty() && 0 <= gap
    requires m[|m| - 1].start <= w.start
    ensures var top := m[|m| - 1].end;
            Covered(Absorb(m, w, gap), t)
            <==> Covered(m, t) || w.Has(t) || (top <= t < w.start <= top + gap)
  {
    var init, last := m[..|m| - 1], m[|m| - 1];
    assert m == init + [last];
    CoveredAppend(init, last, t);
    CoveredAppend(m, w, t);
    CoveredReplaceLast(m, Window(last.start, Max(last.end, w.end)), t);
  }

  lemma {:induction false} AbsorbSeparated(m: seq<Window>, w: Window, gap: int)
    requires m != [] && Separated(m, gap) && w.Nonempty() && 0 <= gap
    requires m[|m| - 1].start <= w.start
    ensures Separated(Absorb(m, w, gap), gap)
    ensures Absorb(m, w, gap) != [] && Absorb(m, w, gap)[0].start == m[0].start
    ensures Absorb(m, w, gap)[|Absorb(m, w, gap)| - 1].end == Max(m[|m| - 1].end, w.end)
  {
    assert forall i :: 0 <= i < |m| - 1 ==> m[i].end + gap < m[|m| - 1].start;
  }

  lemma {:induction false} AbsorbStep(m: seq<Window>, ws: seq<Window>, w: Window, gap: int)
    requires CoalescedFrom(m, ws, gap) && w.Nonempty() && 0 <= gap && ws != []
    requires forall i :: 0 <= i < |ws| ==> ws[i].start <= w.start
    requires AllNonempty(ws)
    ensures CoalescedFrom(Absorb(m, w, gap), ws + [w], gap)
  {
    var m', top := Absorb(m, w, gap), m[|m| - 1].end;
    LastStartsBefore(m, ws, w, gap);
    AbsorbSeparated(m, w, gap);
    forall t
      ensures Covered(m', t) <==> Filled(ws + [w], t, gap)
    {
      FilledAppend(ws, w, top, gap, t);
      AbsorbCovers(m, w, gap, t);
      assert Covered(m, t) <==> Filled(ws, t, gap);
    }
    EndsAppend(ws, w, top);
    assert m[0].start <= ws[0].start <= w.start;
  }

  lemma {:induction false} EndsAppend(ws: seq<Window>, w: Window, top: int)
    requires (exists i :: 0 <= i < |ws| && ws[i].end == top)
    requires forall i :: 0 <= i < |ws| ==> ws[i].end <= top
    ensures exists i :: 0 <= i < |ws + [w]| && (ws + [w])[i].end == Max(top, w.end)
    ensures forall i :: 0 <= i < |ws + [w]| ==> (ws + [w])[i].end <= Max(top, w.end)
  {
    var k :| 0 <= k < |ws| && ws[k].end == top;
    assert (ws + [w])[k].end == top && (ws + [w])[|ws|].end == w.end;
  }

  /** The last output window starts no later than the window about to be absorbed. */
  lemma {:induction false} LastStartsBefore(m: seq<Window>, ws: seq<Window>, w: Window, gap: int)
    requires m != [] && CoalescedFrom(m, ws, gap) && 0 <= gap && AllNonempty(ws)
    requires forall i :: 0 <= i < |ws| ==> ws[i].start <= w.start
    ensures m[|m| - 1].start <= w.start
  {
    var t := m[|m| - 1].start;
    assert m[|m| - 1].Has(t);
    assert Covered(m, t) && !Covered(m, t - 1);
    assert Filled(ws, t, gap) && !Filled(ws, t - 1, gap);
    if Covered(ws, t) {
      var i :| 0 <= i < |ws| && ws[i].Has(t);
      assert !ws[i].Has(t - 1);
    }
  }

  lemma {:induction false} CoalesceSortedCorrect(ws: seq<Window>, gap: int)
    requires Ordered(ByStart, ws) && AllNonempty(ws) && 0 <= gap
    ensures CoalescedFrom(CoalesceSorted(ws, gap), ws, gap)
  {
    if ws == [] {
    } else if |ws| == 1 {
      assert ws == [ws[0]];
      AbsorbFirst(ws[0], gap);
    } else {
      var init, w := ws[..|ws| - 1], ws[|ws| - 1];
      CoalesceSortedCorrect(init, gap);
      assert ws == init + [w];
      forall i | 0 <= i < |init|
        ensures init[i].start <= w.start
      {
        assert ByStart(ws[i], ws[|ws| - 1]);
      }
      AbsorbStep(CoalesceSorted(init, gap), init, w, gap);
    }
  }

  lemma {:induction false} FilledSameElements(a: seq<Window>, b: seq<Window>, t: int, gap: int)
    requires forall w :: w in a <==> w in b
    requires Filled(a, t, gap)
    ensures Filled(b, t, gap)
  {
    if Covered(a, t) {
      var i :| 0 <= i < |a| && a[i].Has(t);
      assert a[i] in b;
    } else {
      var i, j :| 0 <= i < |a| && 0 <= j < |a| && a[i].end <= t < a[j].start <= a[i].end + gap;
      assert a[i] in b && a[j] in b;
      var i' :| 0 <= i' < |b| && b[i'] == a[i];
      var j' :| 0 <= j' < |b| && b[j'] == a[j];
      assert b[i'].end <= t < b[j'].start <= b[i'].end + gap;
    }
  }

  /** Coalescing yields separated windows covering exactly the filled points of the input. */
  lemma {:induction false} CoalesceCorrect(ws: seq<Window>, gap: int)
    requires AllNonempty(ws) && 0 <= gap
    ensures Separated(Coalesce(ws, gap), gap)
    ensures forall t :: Covered(Coalesce(ws, gap), t) <==> Filled(ws, t, gap)
    ensures Coalesce(ws, gap) == [] <==> ws == []
  {
    var sorted := Sort(ByStart, ws);
    ByStartIsPreorder();
    SortOrders(ByStart, ws);
    SortKeepsElements(ByStart, ws);
    forall i | 0 <= i < |sorted|
      ensures sorted[i].Nonempty()
    {
      assert sorted[i] in ws;
    }
    CoalesceSortedCorrect(sorted, gap);
    forall t
      ensures Covered(Coalesce(ws, gap), t) <==> Filled(ws, t, gap)
    {
      if Filled(ws, t, gap) {
        FilledSameElements(ws, sorted, t, gap);
      }
      if Filled(sorted, t, gap) {
        FilledSameElements(sorted, ws, t, gap);
      }
    }
  }

  // ---------- uniqueness of the normal form ----------

  ghost predicate SameCover(a: seq<Window>, b: seq<Window>) {
    forall t :: Covered(a, t) <==> Covered(b, t)
  }

  lemma {:induction false} CoveredHead(ws: seq<Window>, t: int)
    requires ws != []
    ensures Covered(ws, t) <==> ws[0].Has(t) || Covered(ws[1..], t)
  {
    if Covered(ws[1..], t) {
      var i :| 0 <= i < |ws[1..]| && ws[1..][i].Has(t);
      assert ws[i + 1].Has(t);
    }
    if Covered(ws, t) && !ws[0].Has(t) {
      var i :| 0 <= i < |ws| && ws[i].Has(t);
      assert ws[1..][i - 1].Has(t);
    }
  }

  lemma {:induction false} HeadMatches(a: seq<Window>, b: seq<Window>)
    requires Separated(a, 0) && Separated(b, 0) && SameCover(a, b)
    requires a != [] && b != []
    ensures a[0] == b[0]
  {
    assert a[0].Has(a[0].start) && b[0].Has(b[0].start);
    assert Covered(a, a[0].start) && Covered(b, b[0].start);
    assert Covered(b, a[0].start) && Covered(a, b[0].start);
    assert a[0].start == b[0].start;
    assert a[0].Has(a[0].end - 1) && b[0].Has(b[0].end - 1);
    // The first point behind a head window is not covered by its own list.
    assert !Covered(a, a[0].end) && !Covered(b, b[0].end);
    assert !Covered(b, a[0].end) && !Covered(a, b[0].end);
    assert !b[0].Has(a[0].end) && !a[0].Has(b[0].end);
  }

  lemma {:induction false} SeparatedUnique(a: seq<Window>, b: seq<Window>)
    requires Separated(a, 0) && Separated(b, 0) && SameCover(a, b)
    ensures a == b
  {
    if a == [] {
      if b != [] {
        assert b[0].Has(b[0].start);
        assert Covered(b, b[0].start);
      }
    } else {
      assert a[0].Has(a[0].start);
      assert Covered(a, a[0].start) <==> Covered(b, a[0].start);
      HeadMatches(a, b);
      forall t
        ensures Covered(a[1..], t) <==> Covered(b[1..], t)
      {
        CoveredHead(a, t);
        CoveredHead(b, t);
        assert Covered(a, t) <==> Covered(b, t);
      }
      SeparatedUnique(a[1..], b[1..]);
      assert a == [a[0]] + a[1..] && b == [b[0]] + b[1..];
    }
  }

  /** Coalescing is a canonical form: two lists of nonempty windows coalesce to the same list
      exactly when they fill the same points. */
  lemma {:induction false} CoalesceCanonical(a: seq<Window>, b: seq<Window>, gap: int)
    requires AllNonempty(a) && AllNonempty(b) && 0 <= gap
    ensures Coalesce(a, gap) == Coalesce(b, gap)
            <==> forall t :: Filled(a, t, gap) <==> Filled(b, t, gap)
  {
    CoalesceCorrect(a, gap);
    CoalesceCorrect(b, gap);
    var ca, cb := Coalesce(a, gap), Coalesce(b, gap);
    if ca == cb {
      forall t
        ensures Filled(a, t, gap) <==> Filled(b, t, gap)
      {
        assert Covered(ca, t) <==> Covered(cb, t);
      }
    }
    if forall t :: Filled(a, t, gap) <==> Filled(b, t, gap) {
      forall t
        ensures Covered(ca, t) <==> Covered(cb, t)
      {
        assert Filled(a, t, gap) <==> Filled(b, t, gap);
      }
      SeparatedUnique(ca, cb);
    }
  }

  lemma {:induction false} SeparatedFold(ws: seq<Window>, gap: int)
    requires Separated(ws, gap)
    ensures CoalesceSorted(ws, gap) == ws
  {
    if ws == [] {
    } else {
      SeparatedFold(ws[..|ws| - 1], gap);
      if |ws| > 1 {
        assert ws[|ws| - 2].end + gap < ws[|ws| - 1].start;
      }
    }
  }

  lemma {:induction false} SeparatedIsFixpoint(ws: seq<Window>, gap: int)
    requires Separated(ws, gap) && 0 <= gap
    ensures Coalesce(ws, gap) == ws
  {
    forall i, j | 0 <= i < j < |ws|
      ensures ByStart(ws[i], ws[j])
    {
      assert ws[i].end + gap < ws[j].start;
    }
    SortOfOrdered(ByStart, ws);
    SeparatedFold(ws, gap);
  }

  lemma {:induction false} CoalesceIdempotent(ws: seq<Window>, gap: int)
    requires AllNonempty(ws) && 0 <= gap
    ensures Coalesce(Coalesce(ws, gap), gap) == Coalesce(ws, gap)
  {
    CoalesceCorrect(ws, gap);
    SeparatedIsFixpoint(Coalesce(ws, gap), gap);
  }
}
