/** The edited timeline: where a time of the original audio ends up once the removed windows are
    cut out, the markers left at each cut, and the censor windows that survive the cuts. */
module Timeline {
  import opened Basics
  import opened Sorting
  import opened Windows
  import opened AudioCut

  // ---------- the point map ----------

  /** Time removed before `time`, as the loop over start-sorted windows accumulates it. */
  function RemovedBefore(time: int, removed: seq<Window>): int {
    if removed == [] then 0
    else if time >= removed[0].end then removed[0].Length() + RemovedBefore(time, removed[1..])
    else if time > removed[0].start then time - removed[0].start
    else 0
  }

  function PointMap(time: int, removed: seq<Window>): int {
    Max(0, time - RemovedBefore(time, removed))
  }

  method MapTimeToEditedTimeline(time: int, removedWindows: seq<Window>) returns (edited: int)
    ensures edited == PointMap(time, removedWindows)
  {
    var removedBefore := 0;
    var i := 0;
    while i < |removedWindows|
      invariant 0 <= i <= |removedWindows|
      invariant removedBefore + RemovedBefore(time, removedWindows[i..]) == RemovedBefore(time, removedWindows)
    {
      assert removedWindows[i..][0] == removedWindows[i] && removedWindows[i..][1..] == removedWindows[i + 1..];
      if time >= removedWindows[i].end {
        removedBefore := removedBefore + (removedWindows[i].end - removedWindows[i].start);
      } else if time > removedWindows[i].start {
        removedBefore := removedBefore + (time - removedWindows[i].start);
        break;
      } else {
        break;
      }
      i := i + 1;
    }
    edited := if time - removedBefore < 0 then 0 else time - removedBefore;
  }

  /** How many milliseconds of [0, t) survive the cut: the reference the point map is held to. */
  ghost function KeptBefore(removed: seq<Window>, t: int): (n: nat)
    ensures n <= Max(0, t)
    decreases Max(0, t)
  {
    if t <= 0 then 0
    else KeptBefore(removed, t - 1) + if Covered(removed, t - 1) then 0 else 1
  }

  lemma {:induction false} RemovedBeforeStep(t: int, removed: seq<Window>)
    requires Disjoint(removed)
    ensures RemovedBefore(t + 1, removed) == RemovedBefore(t, removed) + if Covered(removed, t) then 1 else 0
  {
    if removed == [] {
    } else {
      CoveredHead(removed, t);
      if t >= removed[0].end {
        RemovedBeforeStep(t, removed[1..]);
      } else if t >= removed[0].start {
        assert removed[0].Has(t);
      }
    }
  }

  lemma {:induction false} RemovedBeforeZero(removed: seq<Window>)
    requires Disjoint(removed) && Follows(removed, 0)
    ensures RemovedBefore(0, removed) == 0
  {
  }

  /** For disjoint windows the point map counts exactly the audio kept so far. */
  lemma {:induction false} PointMapCountsKept(removed: seq<Window>, t: nat)
    requires Disjoint(removed) && Follows(removed, 0)
    ensures t - RemovedBefore(t, removed) == KeptBefore(removed, t)
    ensures PointMap(t, removed) == KeptBefore(removed, t)
  {
    if t == 0 {
      RemovedBeforeZero(removed);
    } else {
      PointMapCountsKept(removed, t - 1);
      RemovedBeforeStep(t - 1, removed);
    }
  }

  // ---------- exactly when the map is right ----------

  ghost predicate Overlap(ws: seq<Window>) {
    exists i, j :: 0 <= i < j < |ws| && ws[j].start < ws[i].end
  }

  lemma {:induction false} TotalLengthHead(ws: seq<Window>)
    requires ws != []
    ensures TotalLength(ws) == ws[0].Length() + TotalLength(ws[1..])
  {
    if |ws| == 1 {
      assert ws[..0] == [] && ws[1..] == [];
    } else {
      TotalLengthHead(ws[..|ws| - 1]);
      assert ws[1..][..|ws| - 2] == ws[..|ws| - 1][1..];
    }
  }

  lemma {:induction false} RemovedBeforeAll(t: int, removed: seq<Window>)
    requires forall i :: 0 <= i < |removed| ==> removed[i].end <= t
    ensures RemovedBefore(t, removed) == TotalLength(removed)
  {
    if removed == [] {
    } else {
      RemovedBeforeAll(t, removed[1..]);
      TotalLengthHead(removed);
    }
  }

  /** Taking one window out of a list frees at most its own length. */
  lemma {:induction false} KeptWithoutHead(ws: seq<Window>, t: int)
    requires ws != [] && ws[0].Nonempty() && 0 <= ws[0].start
    ensures KeptBefore(ws[1..], t) <= KeptBefore(ws, t) + Max(0, Min(t, ws[0].end) - ws[0].start)
    ensures forall p :: 0 <= p < t && ws[0].Has(p) && Covered(ws[1..], p)
              ==> KeptBefore(ws[1..], t) < KeptBefore(ws, t) + Max(0, Min(t, ws[0].end) - ws[0].start)
    decreases Max(0, t)
  {
    if t <= 0 {
    } else {
      KeptWithoutHead(ws, t - 1);
      CoveredHead(ws, t - 1);
    }
  }

  lemma {:induction false} KeptAtLeast(ws: seq<Window>, t: nat)
    requires AllNonempty(ws) && Follows(ws, 0) && Ordered(ByStart, ws)
    requires forall i :: 0 <= i < |ws| ==> ws[i].end <= t
    ensures t - TotalLength(ws) <= KeptBefore(ws, t)
    ensures Overlap(ws) ==> t - TotalLength(ws) < KeptBefore(ws, t)
  {
    if ws == [] {
      KeptOfNothing(t);
    } else {
      var tail := ws[1..];
      forall i, j | 0 <= i < j < |tail|
        ensures ByStart(tail[i], tail[j])
      {
        assert ByStart(ws[i + 1], ws[j + 1]);
      }
      TotalLengthHead(ws);
      KeptAtLeast(tail, t);
      KeptWithoutHead(ws, t);
      if Overlap(ws) && !Overlap(tail) {
        forall i, j | 0 < i < j < |ws|
          ensures ws[i].end <= ws[j].start
        {
          assert tail[i - 1].end <= tail[j - 1].start;
        }
        var i, j :| 0 <= i < j < |ws| && ws[j].start < ws[i].end;
        var p := ws[j].start;
        assert ByStart(ws[0], ws[j]);
        assert tail[j - 1].Has(p);
        assert ws[0].Has(p) && Covered(tail, p);
      }
    }
  }

  lemma {:induction false} KeptOfNothing(t: nat)
    ensures KeptBefore([], t) == t
  {
    if t == 0 {
    } else {
      KeptOfNothing(t - 1);
    }
  }

  function Horizon(ws: seq<Window>): (h: nat)
    ensures forall i :: 0 <= i < |ws| ==> ws[i].end <= h
    ensures TotalLength(ws) <= h
  {
    if ws == [] then 0
    else
      var n := |ws| - 1;
      Max(ws[n].end, Max(Horizon(ws[..n]), TotalLength(ws[..n]) + ws[n].Length()))
  }

  /** The point map agrees with the cut at every time exactly when no two windows overlap. */
  lemma {:induction false} PointMapExact(removed: seq<Window>)
    requires AllNonempty(removed) && Follows(removed, 0) && Ordered(ByStart, removed)
    ensures (forall t: nat :: PointMap(t, removed) == KeptBefore(removed, t)) <==> !Overlap(removed)
  {
    if !Overlap(removed) {
      assert Disjoint(removed);
      forall t: nat
        ensures PointMap(t, removed) == KeptBefore(removed, t)
      {
        PointMapCountsKept(removed, t);
      }
    } else {
      var t := Horizon(removed);
      RemovedBeforeAll(t, removed);
      KeptAtLeast(removed, t);
      assert PointMap(t, removed) != KeptBefore(removed, t);
    }
  }

  // ---------- agreement with the exact cut ----------

  /** Where the i-th kept segment begins in the cut file. */
  function OffsetOf(kept: seq<Window>, i: nat): int
    requires i <= |kept|
  {
    TotalLength(kept[..i])
  }

  lemma {:induction false} KeptBeforeMonotone(removed: seq<Window>, s: int, t: int)
    requires s <= t
    ensures KeptBefore(removed, s) <= KeptBefore(removed, t)
    ensures (forall p :: s <= p < t ==> Covered(removed, p)) ==> KeptBefore(removed, s) == KeptBefore(removed, t)
    ensures (0 <= s && forall p :: s <= p < t ==> !Covered(removed, p))
              ==> KeptBefore(removed, t) - KeptBefore(removed, s) == t - s
    decreases t - s
  {
    if s < t {
      KeptBeforeMonotone(removed, s, t - 1);
    }
  }

  /** Over the whole length the exact cut plays, it keeps exactly what is not removed. */
  lemma {:induction false} KeepWithin(ws: seq<Window>, duration: nat, t: int)
    requires Separated(ws, 0) && Follows(ws, 0) && 0 <= t < Max(LastEnd(ws), duration)
    ensures Covered(Keep(ws, duration), t) <==> !Covered(ws, t)
  {
    GapsCover(ws, t);
    CoveredAppend(Gaps(ws), Window(LastEnd(ws), duration), t);
    if LastEnd(ws) <= t {
      CoveredBeforeEnd(ws, t);
    }
  }

  lemma {:induction false} KeepEndsBy(ws: seq<Window>, duration: nat)
    requires Separated(ws, 0) && Follows(ws, 0)
    ensures Disjoint(Keep(ws, duration)) && Follows(Keep(ws, duration), 0)
    ensures EndsBy(Keep(ws, duration), Max(LastEnd(ws), duration))
  {
    GapsDisjoint(ws);
    if LastEnd(ws) < duration {
      AddGapDisjoint(Gaps(ws), LastEnd(ws), duration);
    }
  }

  /** A point before the i-th of some disjoint windows is covered by an earlier one or by none. */
  lemma {:induction false} CoveredByEarlier(ws: seq<Window>, i: nat, t: int)
    requires Disjoint(ws) && i < |ws| && t < ws[i].start
    ensures Covered(ws[..i], t) <==> Covered(ws, t)
  {
    assert forall k :: i < k < |ws| ==> ws[i].end <= ws[k].start;
    if Covered(ws, t) {
      var k :| 0 <= k < |ws| && ws[k].Has(t);
      assert ws[..i][k].Has(t);
    }
    if Covered(ws[..i], t) {
      var k :| 0 <= k < i && ws[..i][k].Has(t);
      assert ws[k].Has(t);
    }
  }

  /** A time inside the i-th kept segment maps to its place in the concatenated output:
      the lengths of the earlier segments plus the offset into this one. */
  lemma {:induction false} PointMapIsThePlaceInTheCut(ws: seq<Window>, duration: nat, i: nat, t: int)
    requires Separated(ws, 0) && Follows(ws, 0)
    requires i < |Keep(ws, duration)| && Keep(ws, duration)[i].Has(t)
    ensures PointMap(t, ws) == OffsetOf(Keep(ws, duration), i) + t - Keep(ws, duration)[i].start
  {
    var kept := Keep(ws, duration);
    KeepEndsBy(ws, duration);
    forall x | 0 <= x < kept[i].start
      ensures Covered(kept[..i], x) <==> !Covered(ws, x)
    {
      KeepWithin(ws, duration, x);
      CoveredByEarlier(kept, i, x);
    }
    PiecesUpTo(0, kept[i].start, ws, kept[..i]);
    forall x | kept[i].start <= x < t
      ensures !Covered(ws, x)
    {
      KeepWithin(ws, duration, x);
      assert kept[i].Has(x);
    }
    KeptBeforeMonotone(ws, kept[i].start, t);
    assert KeptBefore(ws, 0) == 0;
    PointMapCountsKept(ws, t);
  }

  /** The map never runs backwards and sends every time of one removed window to the same point. */
  lemma {:induction false} PointMapMonotone(removed: seq<Window>, s: nat, t: nat)
    requires Disjoint(removed) && Follows(removed, 0) && s <= t
    ensures PointMap(s, removed) <= PointMap(t, removed)
    ensures forall i :: 0 <= i < |removed| && removed[i].start <= s && t <= removed[i].end
              ==> PointMap(s, removed) == PointMap(t, removed)
  {
    PointMapCountsKept(removed, s);
    PointMapCountsKept(removed, t);
    KeptBeforeMonotone(removed, s, t);
    forall i | 0 <= i < |removed| && removed[i].start <= s && t <= removed[i].end
      ensures PointMap(s, removed) == PointMap(t, removed)
    {
      forall p | s <= p < t
        ensures Covered(removed, p)
      {
        assert removed[i].Has(p);
      }
    }
  }

  /** The end of the file maps to its length minus everything removed. */
  lemma {:induction false} PointMapEnd(removed: seq<Window>, duration: nat)
    requires Disjoint(removed) && Follows(removed, 0)
    requires forall i :: 0 <= i < |removed| ==> removed[i].end <= duration
    ensures PointMap(duration, removed) == duration - TotalLength(removed)
  {
    RemovedBeforeAll(duration, removed);
    PointMapCountsKept(removed, duration);
  }

  // ---------- ad markers ----------

  datatype Marker = Marker(edited: int, original: Window)

  /** The marker of the i-th cut: its start less the time removed by the earlier cuts. */
  function MarkerAt(cuts: seq<Window>, i: nat): Marker
    requires i < |cuts|
  {
    Marker(Max(0, cuts[i].start - TotalLength(cuts[..i])), cuts[i])
  }

  lemma {:induction false} MarkerAtAppend(cuts: seq<Window>, w: Window)
    ensures forall i :: 0 <= i < |cuts| ==> MarkerAt(cuts + [w], i) == MarkerAt(cuts, i)
    ensures MarkerAt(cuts + [w], |cuts|) == Marker(Max(0, w.start - TotalLength(cuts)), w)
    ensures TotalLength(cuts + [w]) == TotalLength(cuts) + w.Length()
  {
    assert forall i :: 0 <= i < |cuts| ==> (cuts + [w])[..i] == cuts[..i];
    assert (cuts + [w])[..|cuts|] == cuts;
    TotalLengthAppend(cuts, w);
  }

  /** One marker per nonempty window, accumulating the removed time as it goes. */
  method BuildAdMarkers(adWindows: seq<Window>) returns (markers: seq<Marker>)
    ensures var cuts := Proper(Sort(ByStart, adWindows));
            |markers| == |cuts| && forall i :: 0 <= i < |cuts| ==> markers[i] == MarkerAt(cuts, i)
  {
    var sorted := Sort(ByStart, adWindows);
    var removedBefore := 0;
    markers := [];
    ghost var cuts: seq<Window> := [];
    for n := 0 to |sorted|
      invariant cuts == Proper(sorted[..n]) && |markers| == |cuts|
      invariant removedBefore == TotalLength(cuts)
      invariant forall i :: 0 <= i < |cuts| ==> markers[i] == MarkerAt(cuts, i)
    {
      assert sorted[..n + 1][..n] == sorted[..n];
      var removed := sorted[n].end - sorted[n].start;
      if removed <= 0 {
        continue;
      }
      markers := markers + [Marker(Max(0, sorted[n].start - removedBefore), sorted[n])];
      removedBefore := removedBefore + removed;
      MarkerAtAppend(cuts, sorted[n]);
      cuts := cuts + [sorted[n]];
    }
    assert sorted[..|sorted|] == sorted;
  }

  lemma {:induction false} RemovedBeforeEarlier(t: int, ws: seq<Window>, i: nat)
    requires Disjoint(ws) && i < |ws| && ws[i].start <= t <= ws[i].end
    ensures RemovedBefore(t, ws) == TotalLength(ws[..i]) + t - ws[i].start
    decreases |ws|
  {
    if i == 0 {
      assert ws[..0] == [];
      if t == ws[0].end && |ws| > 1 {
        assert RemovedBefore(t, ws[1..]) == 0;
      }
    } else {
      assert ws[0].end <= ws[i].start;
      RemovedBeforeEarlier(t, ws[1..], i - 1);
      assert ws[..i][1..] == ws[1..][..i - 1];
      TotalLengthHead(ws[..i]);
    }
  }

  /** On disjoint windows the accumulated marker is the point map of both ends of its window. */
  lemma {:induction false} MarkerIsPointMap(cuts: seq<Window>, i: nat)
    requires Disjoint(cuts) && Follows(cuts, 0) && i < |cuts|
    ensures MarkerAt(cuts, i).original == cuts[i]
    ensures MarkerAt(cuts, i).edited == PointMap(cuts[i].start, cuts) == PointMap(cuts[i].end, cuts)
  {
    RemovedBeforeEarlier(cuts[i].start, cuts, i);
    RemovedBeforeEarlier(cuts[i].end, cuts, i);
  }

  // ---------- censor windows that survive the cuts ----------

  /** What one removed window leaves of one segment. */
  function Carve(segment: Window, removed: Window): seq<Window> {
    if removed.end <= segment.start || removed.start >= segment.end then
      [segment]
    else
      AddTail(if removed.start > segment.start then [Window(segment.start, removed.start)] else [], removed, segment)
  }

  function AddTail(carved: seq<Window>, removed: Window, segment: Window): seq<Window> {
    if removed.end < segment.end then carved + [Window(removed.end, segment.end)] else carved
  }

  function CarveAll(segments: seq<Window>, removed: Window): seq<Window> {
    if segments == [] then []
    else CarveAll(segments[..|segments| - 1], removed) + Carve(segments[|segments| - 1], removed)
  }

  function Subtract(window: Window, removed: seq<Window>): seq<Window> {
    if removed == [] then [window]
    else Proper(CarveAll(Subtract(window, removed[..|removed| - 1]), removed[|removed| - 1]))
  }

  /** Cuts one removed window out of every remaining piece. */
  method CarveEach(remaining: seq<Window>, removed: Window) returns (updated: seq<Window>)
    ensures updated == CarveAll(remaining, removed)
  {
    updated := [];
    for s := 0 to |remaining|
      invariant updated == CarveAll(remaining[..s], removed)
    {
      assert remaining[..s + 1][..s] == remaining[..s];
      var segment := remaining[s];
      ghost var before := updated;
      if removed.end <= segment.start || removed.start >= segment.end {
        updated := updated + [segment];
      } else {
        if removed.start > segment.start {
          updated := updated + [Window(segment.start, removed.start)];
        }
        if removed.end < segment.end {
          updated := updated + [Window(removed.end, segment.end)];
        }
      }
      assert updated == before + Carve(segment, removed);
    }
    assert remaining[..|remaining|] == remaining;
  }

  method DropEmpty(updated: seq<Window>) returns (proper: seq<Window>)
    ensures proper == Proper(updated)
  {
    proper := [];
    for s := 0 to |updated|
      invariant proper == Proper(updated[..s])
    {
      assert updated[..s + 1][..s] == updated[..s];
      if updated[s].end > updated[s].start {
        proper := proper + [updated[s]];
      }
    }
    assert updated[..|updated|] == updated;
  }

  method SubtractRemovedWindows(window: Window, removedWindows: seq<Window>) returns (remaining: seq<Window>)
    ensures remaining == Subtract(window, removedWindows)
  {
    remaining := [window];
    for r := 0 to |removedWindows|
      invariant remaining == Subtract(window, removedWindows[..r])
    {
      assert removedWindows[..r + 1][..r] == removedWindows[..r];
      var updated := CarveEach(remaining, removedWindows[r]);
      remaining := DropEmpty(updated);
    }
    assert removedWindows[..|removedWindows|] == removedWindows;
  }

  lemma {:induction false} ProperCovers(ws: seq<Window>, t: int)
    ensures Covered(Proper(ws), t) <==> Covered(ws, t)
  {
    if ws == [] {
    } else {
      var init, last := ws[..|ws| - 1], ws[|ws| - 1];
      assert ws == init + [last];
      ProperCovers(init, t);
      CoveredAppend(init, last, t);
      CoveredAppend(Proper(init), last, t);
    }
  }

  lemma {:induction false} CarveCovers(segment: Window, removed: Window, t: int)
    ensures Covered(Carve(segment, removed), t) <==> segment.Has(t) && !removed.Has(t)
  {
    var carved := Carve(segment, removed);
    if segment.Has(t) && !removed.Has(t) {
      assert carved[0].Has(t) || (|carved| == 2 && carved[1].Has(t));
    }
  }

  lemma {:induction false} CarveAllCovers(segments: seq<Window>, removed: Window, t: int)
    ensures Covered(CarveAll(segments, removed), t) <==> Covered(segments, t) && !removed.Has(t)
  {
    if segments == [] {
    } else {
      var init, last := segments[..|segments| - 1], segments[|segments| - 1];
      assert segments == init + [last];
      CarveAllCovers(init, removed, t);
      CarveCovers(last, removed, t);
      CoveredAppend(init, last, t);
      CoveredConcat(CarveAll(init, removed), Carve(last, removed), t);
    }
  }

  /** The retained pieces cover exactly the window minus everything removed, whatever the lists. */
  lemma {:induction false} SubtractCovers(window: Window, removed: seq<Window>, t: int)
    ensures Covered(Subtract(window, removed), t) <==> window.Has(t) && !Covered(removed, t)
  {
    if removed == [] {
      if window.Has(t) {
        assert [window][0].Has(t);
      }
    } else {
      var init, last := removed[..|removed| - 1], removed[|removed| - 1];
      assert removed == init + [last];
      SubtractCovers(window, init, t);
      CarveAllCovers(Subtract(window, init), last, t);
      ProperCovers(CarveAll(Subtract(window, init), last), t);
      CoveredAppend(init, last, t);
    }
  }

  ghost predicate Upright(ws: seq<Window>) {
    forall i :: 0 <= i < |ws| ==> ws[i].start <= ws[i].end
  }

  /** In order, not overlapping, and within [lo, hi]; pieces may be empty. */
  ghost predicate InOrder(ws: seq<Window>, lo: int, hi: int) {
    && (forall i :: 0 <= i < |ws| ==> lo <= ws[i].start <= ws[i].end <= hi)
    && (forall i, j :: 0 <= i < j < |ws| ==> ws[i].end <= ws[j].start)
  }

  lemma {:induction false} InOrderAppend(ws: seq<Window>, w: Window, lo: int, mid: int, hi: int)
    requires InOrder(ws, lo, mid) && lo <= mid <= w.start <= w.end <= hi
    ensures InOrder(ws + [w], lo, hi)
  {
  }

  lemma {:induction false} ProperInOrder(ws: seq<Window>, lo: int, hi: int)
    requires InOrder(ws, lo, hi)
    ensures InOrder(Proper(ws), lo, hi)
  {
    if ws == [] {
    } else {
      var init, last := ws[..|ws| - 1], ws[|ws| - 1];
      ProperInOrder(init, lo, last.start);
      if last.Nonempty() {
        InOrderAppend(Proper(init), last, lo, last.start, hi);
      }
    }
  }

  lemma {:induction false} CarveInOrder(before: seq<Window>, segment: Window, removed: Window, lo: int, hi: int)
    requires InOrder(before, lo, segment.start) && lo <= segment.start <= segment.end <= hi
    requires removed.start <= removed.end
    ensures InOrder(before + Carve(segment, removed), lo, hi)
  {
    if removed.end <= segment.start || removed.start >= segment.end {
      InOrderAppend(before, segment, lo, segment.start, hi);
    } else {
      var head, tail := Window(segment.start, removed.start), Window(removed.end, segment.end);
      if removed.start > segment.start {
        InOrderAppend(before, head, lo, segment.start, removed.start);
        if removed.end < segment.end {
          InOrderAppend(before + [head], tail, lo, removed.start, hi);
          assert before + Carve(segment, removed) == before + [head] + [tail];
        }
      } else if removed.end < segment.end {
        InOrderAppend(before, tail, lo, segment.start, hi);
      }
    }
  }

  lemma {:induction false} CarveAllInOrder(segments: seq<Window>, removed: Window, lo: int, hi: int)
    requires InOrder(segments, lo, hi) && removed.start <= removed.end
    ensures InOrder(CarveAll(segments, removed), lo, hi)
  {
    if segments == [] {
    } else {
      var init, last := segments[..|segments| - 1], segments[|segments| - 1];
      CarveAllInOrder(init, removed, lo, last.start);
      CarveInOrder(CarveAll(init, removed), last, removed, lo, hi);
    }
  }

  /** The retained pieces of a censor window are nonempty, in order and disjoint. */
  lemma {:induction false} SubtractDisjoint(window: Window, removed: seq<Window>)
    requires window.Nonempty() && Upright(removed)
    ensures Disjoint(Subtract(window, removed))
    ensures InOrder(Subtract(window, removed), window.start, window.end)
  {
    if removed == [] {
    } else {
      var init, last := removed[..|removed| - 1], removed[|removed| - 1];
      SubtractDisjoint(window, init);
      CarveAllInOrder(Subtract(window, init), last, window.start, window.end);
      ProperInOrder(CarveAll(Subtract(window, init), last), window.start, window.end);
      ProperKeeps(CarveAll(Subtract(window, init), last));
    }
  }

  datatype EditedWindow = EditedWindow(edited: Window, original: Window)

  function Edit(piece: Window, removed: seq<Window>): EditedWindow {
    EditedWindow(Window(PointMap(piece.start, removed), PointMap(piece.end, removed)), piece)
  }

  /** The pieces that still have a length once mapped. */
  function EditPieces(pieces: seq<Window>, removed: seq<Window>): seq<EditedWindow> {
    if pieces == [] then []
    else
      var before, e := EditPieces(pieces[..|pieces| - 1], removed), Edit(pieces[|pieces| - 1], removed);
      if e.edited.Nonempty() then before + [e] else before
  }

  function EditAll(bleeps: seq<Window>, removed: seq<Window>): seq<EditedWindow> {
    if bleeps == [] then []
    else EditAll(bleeps[..|bleeps| - 1], removed) + EditPieces(Subtract(bleeps[|bleeps| - 1], removed), removed)
  }

  /** Maps the retained pieces of one censor window. */
  method EditEach(pieces: seq<Window>, removed: seq<Window>) returns (edited: seq<EditedWindow>)
    ensures edited == EditPieces(pieces, removed)
  {
    edited := [];
    for p := 0 to |pieces|
      invariant edited == EditPieces(pieces[..p], removed)
    {
      assert pieces[..p + 1][..p] == pieces[..p];
      var editedStart := MapTimeToEditedTimeline(pieces[p].start, removed);
      var editedEnd := MapTimeToEditedTimeline(pieces[p].end, removed);
      if editedEnd > editedStart {
        edited := edited + [EditedWindow(Window(editedStart, editedEnd), pieces[p])];
      }
    }
    assert pieces[..|pieces|] == pieces;
  }

  function EditedTotal(es: seq<EditedWindow>): int {
    if es == [] then 0 else EditedTotal(es[..|es| - 1]) + es[|es| - 1].edited.Length()
  }

  /** No removed window reaches into the piece. */
  ghost predicate Untouched(piece: Window, removed: seq<Window>) {
    forall t :: piece.Has(t) ==> !Covered(removed, t)
  }

  lemma {:induction false} UntouchedKeepsLength(piece: Window, removed: seq<Window>)
    requires Disjoint(removed) && Follows(removed, 0)
    requires piece.Nonempty() && 0 <= piece.start && Untouched(piece, removed)
    ensures Edit(piece, removed).edited.Length() == piece.Length()
  {
    PointMapCountsKept(removed, piece.start);
    PointMapCountsKept(removed, piece.end);
    forall p | piece.start <= p < piece.end
      ensures !Covered(removed, p)
    {
      assert piece.Has(p);
    }
    KeptBeforeMonotone(removed, piece.start, piece.end);
  }

  /** Every retained piece is emitted with its length unchanged, at the place the cut puts it. */
  lemma {:induction false} EditKeepsPieces(pieces: seq<Window>, removed: seq<Window>)
    requires Disjoint(removed) && Follows(removed, 0)
    requires Disjoint(pieces) && Follows(pieces, 0)
    requires forall i :: 0 <= i < |pieces| ==> Untouched(pieces[i], removed)
    ensures |EditPieces(pieces, removed)| == |pieces|
    ensures forall i :: 0 <= i < |pieces| ==> EditPieces(pieces, removed)[i] == Edit(pieces[i], removed)
    ensures forall i :: 0 <= i < |pieces| ==>
              EditPieces(pieces, removed)[i].edited.Length() == pieces[i].Length()
  {
    if pieces == [] {
    } else {
      EditKeepsPieces(pieces[..|pieces| - 1], removed);
      UntouchedKeepsLength(pieces[|pieces| - 1], removed);
    }
  }

  /** Milliseconds of [lo, hi) that survive the cut. */
  ghost function KeptIn(removed: seq<Window>, w: Window): int {
    KeptBefore(removed, w.end) - KeptBefore(removed, w.start)
  }

  /** The edited windows are the pieces, each between the amounts of audio kept before its ends. */
  ghost predicate PlacedInCut(edited: seq<EditedWindow>, pieces: seq<Window>, removed: seq<Window>) {
    && |edited| == |pieces|
    && forall i :: 0 <= i < |edited| ==>
         && edited[i].original == pieces[i]
         && edited[i].edited.start == KeptBefore(removed, pieces[i].start)
         && edited[i].edited.end == KeptBefore(removed, pieces[i].end)
  }

  /** Censor windows conserve measure: one bleep is emitted as its retained pieces, each with its
      length and in order, and they add up to what the cut leaves of the bleep. */
  lemma {:induction false} BleepConserved(bleep: Window, removed: seq<Window>)
    requires Disjoint(removed) && Follows(removed, 0)
    requires bleep.Nonempty() && 0 <= bleep.start
    ensures var pieces := Subtract(bleep, removed);
            var edited := EditPieces(pieces, removed);
            && |edited| == |pieces|
            && PlacedInCut(edited, pieces, removed)
            && (forall i :: 0 <= i < |pieces| ==>
                  edited[i] == Edit(pieces[i], removed) && edited[i].edited.Length() == pieces[i].Length())
            && (forall i, j :: 0 <= i < j < |edited| ==> edited[i].edited.end <= edited[j].edited.start)
            && EditedTotal(edited) == KeptIn(removed, bleep)
  {
    var pieces := Subtract(bleep, removed);
    var edited := EditPieces(pieces, removed);
    SubtractDisjoint(bleep, removed);
    forall i | 0 <= i < |pieces|
      ensures Untouched(pieces[i], removed)
    {
      forall t | pieces[i].Has(t)
        ensures !Covered(removed, t)
      {
        SubtractCovers(bleep, removed, t);
      }
    }
    EditKeepsPieces(pieces, removed);
    forall i | 0 <= i < |pieces|
      ensures edited[i].edited == Window(KeptBefore(removed, pieces[i].start), KeptBefore(removed, pieces[i].end))
    {
      PointMapCountsKept(removed, pieces[i].start);
      PointMapCountsKept(removed, pieces[i].end);
    }
    forall i, j | 0 <= i < j < |edited|
      ensures edited[i].edited.end <= edited[j].edited.start
    {
      PointMapMonotone(removed, pieces[i].end, pieces[j].start);
    }
    PiecesTotal(bleep, removed, pieces);
    EditedTotalIsPieces(edited, pieces);
  }

  lemma {:induction false} EditedTotalIsPieces(edited: seq<EditedWindow>, pieces: seq<Window>)
    requires |edited| == |pieces|
    requires forall i :: 0 <= i < |pieces| ==> edited[i].edited.Length() == pieces[i].Length()
    ensures EditedTotal(edited) == TotalLength(pieces)
  {
    if pieces == [] {
    } else {
      EditedTotalIsPieces(edited[..|edited| - 1], pieces[..|pieces| - 1]);
    }
  }

  /** Ordered pieces that cover exactly the kept points of a window have the kept length in total. */
  lemma {:induction false} PiecesTotal(w: Window, removed: seq<Window>, pieces: seq<Window>)
    requires w.Nonempty() && 0 <= w.start
    requires Disjoint(pieces) && InOrder(pieces, w.start, w.end)
    requires pieces == Subtract(w, removed)
    ensures TotalLength(pieces) == KeptIn(removed, w)
  {
    forall t | w.start <= t < w.end
      ensures Covered(pieces, t) <==> !Covered(removed, t)
    {
      SubtractCovers(w, removed, t);
      assert w.Has(t);
    }
    PiecesUpTo(w.start, w.end, removed, pieces);
  }

  lemma {:induction false} PiecesUpTo(lo: int, hi: int, removed: seq<Window>, pieces: seq<Window>)
    requires 0 <= lo <= hi
    requires Disjoint(pieces) && InOrder(pieces, lo, hi)
    requires forall t :: lo <= t < hi ==> (Covered(pieces, t) <==> !Covered(removed, t))
    ensures TotalLength(pieces) == KeptBefore(removed, hi) - KeptBefore(removed, lo)
    decreases |pieces|
  {
    if pieces == [] {
      KeptBeforeMonotone(removed, lo, hi);
    } else {
      var init, last := pieces[..|pieces| - 1], pieces[|pieces| - 1];
      assert pieces == init + [last];
      forall t | lo <= t < last.start
        ensures Covered(init, t) <==> !Covered(removed, t)
      {
        CoveredAppend(init, last, t);
      }
      PiecesUpTo(lo, last.start, removed, init);
      forall t | last.start <= t < last.end
        ensures !Covered(removed, t)
      {
        assert pieces[|pieces| - 1].Has(t);
      }
      KeptBeforeMonotone(removed, last.start, last.end);
      forall t | last.end <= t < hi
        ensures Covered(removed, t)
      {
        CoveredAppend(init, last, t);
      }
      KeptBeforeMonotone(removed, last.end, hi);
    }
  }

  lemma {:induction false} EmptyBleepVanishes(bleep: Window, removed: seq<Window>)
    requires Disjoint(removed) && Follows(removed, 0)
    requires !bleep.Nonempty() && 0 <= bleep.end
    ensures EditPieces(Subtract(bleep, removed), removed) == []
  {
    if removed == [] {
      assert Edit(bleep, []).edited == Window(Max(0, bleep.start), Max(0, bleep.end));
    } else {
      var pieces := Subtract(bleep, removed);
      ProperKeeps(CarveAll(Subtract(bleep, removed[..|removed| - 1]), removed[|removed| - 1]));
      if pieces != [] {
        assert Covered(pieces, pieces[0].start);
        SubtractCovers(bleep, removed, pieces[0].start);
      }
    }
  }

  ghost function KeptOfBleeps(bleeps: seq<Window>, removed: seq<Window>): int {
    if bleeps == [] then 0
    else
      var last := bleeps[|bleeps| - 1];
      KeptOfBleeps(bleeps[..|bleeps| - 1], removed) + if last.Nonempty() then KeptIn(removed, last) else 0
  }

  lemma {:induction false} EditedTotalConcat(a: seq<EditedWindow>, b: seq<EditedWindow>)
    ensures EditedTotal(a + b) == EditedTotal(a) + EditedTotal(b)
  {
    if b == [] {
      assert a + b == a;
    } else {
      EditedTotalConcat(a, b[..|b| - 1]);
      assert (a + b)[..|a + b| - 1] == a + b[..|b| - 1];
    }
  }

  /** Over any list of censor windows, the edited total is the sum of what the cut leaves of each. */
  lemma {:induction false} BleepsConserved(bleeps: seq<Window>, removed: seq<Window>)
    requires Disjoint(removed) && Follows(removed, 0)
    requires forall i :: 0 <= i < |bleeps| ==> 0 <= bleeps[i].start && 0 <= bleeps[i].end
    ensures EditedTotal(EditAll(bleeps, removed)) == KeptOfBleeps(bleeps, removed)
  {
    if bleeps == [] {
    } else {
      var init, last := bleeps[..|bleeps| - 1], bleeps[|bleeps| - 1];
      BleepsConserved(init, removed);
      EditedTotalConcat(EditAll(init, removed), EditPieces(Subtract(last, removed), removed));
      if last.Nonempty() {
        BleepConserved(last, removed);
      } else {
        EmptyBleepVanishes(last, removed);
      }
    }
  }

  /** What the cut leaves of the censor windows, piece by piece. */
  function RetainedPieces(bleeps: seq<Window>, removed: seq<Window>): seq<Window> {
    if bleeps == [] then []
    else
      var last := bleeps[|bleeps| - 1];
      RetainedPieces(bleeps[..|bleeps| - 1], removed) + if last.Nonempty() then Subtract(last, removed) else []
  }

  ghost predicate AllFromZero(bleeps: seq<Window>) {
    forall i :: 0 <= i < |bleeps| ==> 0 <= bleeps[i].start && 0 <= bleeps[i].end
  }

  /** Whatever is removed, nothing empty is emitted. */
  lemma {:induction false} EditedNonempty(bleeps: seq<Window>, removed: seq<Window>)
    ensures forall k :: 0 <= k < |EditAll(bleeps, removed)| ==> EditAll(bleeps, removed)[k].edited.Nonempty()
  {
    if bleeps != [] {
      EditedNonempty(bleeps[..|bleeps| - 1], removed);
      PiecesNonempty(Subtract(bleeps[|bleeps| - 1], removed), removed);
    }
  }

  lemma {:induction false} PiecesNonempty(pieces: seq<Window>, removed: seq<Window>)
    ensures forall k :: 0 <= k < |EditPieces(pieces, removed)| ==> EditPieces(pieces, removed)[k].edited.Nonempty()
  {
    if pieces != [] {
      PiecesNonempty(pieces[..|pieces| - 1], removed);
    }
  }

  lemma {:induction false} PlacedConcat(a: seq<EditedWindow>, pa: seq<Window>, b: seq<EditedWindow>, pb: seq<Window>,
                                        removed: seq<Window>)
    requires PlacedInCut(a, pa, removed) && PlacedInCut(b, pb, removed)
    ensures PlacedInCut(a + b, pa + pb, removed)
  {
    hide KeptBefore;
  }

  /** Over any list of censor windows, every retained piece is emitted at its place in the cut, and nothing else. */
  lemma {:induction false} BleepsPlaced(bleeps: seq<Window>, removed: seq<Window>)
    requires Disjoint(removed) && Follows(removed, 0) && AllFromZero(bleeps)
    ensures PlacedInCut(EditAll(bleeps, removed), RetainedPieces(bleeps, removed), removed)
  {
    hide Disjoint, Follows, KeptBefore, Subtract, EditPieces;
    if bleeps != [] {
      var init, last := bleeps[..|bleeps| - 1], bleeps[|bleeps| - 1];
      BleepsPlaced(init, removed);
      BleepPlaced(last, removed);
      PlacedConcat(EditAll(init, removed), RetainedPieces(init, removed), EditPieces(Subtract(last, removed), removed),
                   if last.Nonempty() then Subtract(last, removed) else [], removed);
    }
  }

  lemma {:induction false} BleepPlaced(bleep: Window, removed: seq<Window>)
    requires Disjoint(removed) && Follows(removed, 0) && 0 <= bleep.start && 0 <= bleep.end
    ensures PlacedInCut(EditPieces(Subtract(bleep, removed), removed),
                        if bleep.Nonempty() then Subtract(bleep, removed) else [], removed)
  {
    hide KeptBefore;
    if bleep.Nonempty() {
      BleepConserved(bleep, removed);
    } else {
      EmptyBleepVanishes(bleep, removed);
    }
  }

  method BuildEditedBleepWindows(bleepWindows: seq<Window>, removedWindows: seq<Window>)
    returns (edited: seq<EditedWindow>)
    ensures edited == EditAll(Sort(ByStart, bleepWindows), Sort(ByStart, removedWindows))
    ensures forall k :: 0 <= k < |edited| ==> edited[k].edited.Nonempty()
    ensures var removed, bleeps := Sort(ByStart, removedWindows), Sort(ByStart, bleepWindows);
            Disjoint(removed) && Follows(removed, 0) && AllFromZero(bleeps) ==>
              PlacedInCut(edited, RetainedPieces(bleeps, removed), removed)
  {
    edited := [];
    var sortedBleeps := Sort(ByStart, bleepWindows);
    var sortedRemoved := Sort(ByStart, removedWindows);
    for b := 0 to |sortedBleeps|
      invariant edited == EditAll(sortedBleeps[..b], sortedRemoved)
    {
      assert sortedBleeps[..b + 1][..b] == sortedBleeps[..b];
      var pieces := SubtractRemovedWindows(sortedBleeps[b], sortedRemoved);
      var mapped := EditEach(pieces, sortedRemoved);
      edited := edited + mapped;
    }
    assert sortedBleeps[..|sortedBleeps|] == sortedBleeps;
    EditedNonempty(sortedBleeps, sortedRemoved);
    if Disjoint(sortedRemoved) && Follows(sortedRemoved, 0) && AllFromZero(sortedBleeps) {
      BleepsPlaced(sortedBleeps, sortedRemoved);
    }
  }
}
