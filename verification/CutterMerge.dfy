/** The cutter's merge of detected ad windows: edge fragments, close neighbours, the minimum
    length, and the tail that runs to the end of the file. Times are milliseconds. */
module CutterMerge {
  import opened Basics
  import opened Sorting
  import opened Windows

  const EDGE_FRAGMENT_WINDOW := 30_000
  const EDGE_FRAGMENT_MERGE_GAP := 20_000
  const MIN_NEIGHBOR_DURATION := 15_000

  datatype Settings = Settings(duration: int, minLength: int, minSeparation: int)

  /** Pairs compare by start and then by end. */
  predicate ByPair(a: Window, b: Window) {
    a.start < b.start || (a.start == b.start && a.end <= b.end)
  }

  // ---------- the stages, as functions ----------

  function LastSegment(segs: seq<Window>, s: Settings): Option<Window> {
    if segs != [] && s.duration - segs[|segs| - 1].end < s.minSeparation
    then Some(segs[|segs| - 1]) else None
  }

  /** A short fragment at the head, close to an ad long enough to absorb it. */
  predicate LeadingFragment(segs: seq<Window>, s: Settings) {
    && |segs| >= 2
    && segs[0].start <= EDGE_FRAGMENT_WINDOW
    && segs[0].Length() < s.minLength
    && segs[1].Length() >= MIN_NEIGHBOR_DURATION
    && segs[1].start - segs[0].end <= EDGE_FRAGMENT_MERGE_GAP
  }

  /** The list with its first two windows made one. */
  function JoinHead(segs: seq<Window>): seq<Window>
    requires |segs| >= 2
  {
    segs[1..][0 := Window(segs[0].start, segs[1].end)]
  }

  /** The list with its last two windows made one. */
  function JoinTail(segs: seq<Window>): seq<Window>
    requires |segs| >= 2
  {
    segs[..|segs| - 1][|segs| - 2 := Window(segs[|segs| - 2].start, segs[|segs| - 1].end)]
  }

  function MergeLeading(segs: seq<Window>, s: Settings): seq<Window> {
    if LeadingFragment(segs, s) then JoinHead(segs) else segs
  }

  /** A short fragment at the tail, close to an ad long enough to absorb it. */
  predicate TrailingFragment(segs: seq<Window>, s: Settings) {
    && |segs| >= 2
    && s.duration - segs[|segs| - 1].end <= EDGE_FRAGMENT_WINDOW
    && segs[|segs| - 1].Length() < s.minLength
    && segs[|segs| - 2].Length() >= MIN_NEIGHBOR_DURATION
    && segs[|segs| - 1].start - segs[|segs| - 2].end <= EDGE_FRAGMENT_MERGE_GAP
  }

  function MergeTrailing(segs: seq<Window>, s: Settings): seq<Window> {
    if TrailingFragment(segs, s) then JoinTail(segs) else segs
  }

  /** Joins neighbours closer than the separation; the joined window takes the later one's end. */
  function MergeClose(segs: seq<Window>, separation: int): seq<Window>
    decreases |segs|
  {
    if |segs| < 2 then segs
    else if segs[0].end + separation >= segs[1].start then
      MergeClose(JoinHead(segs), separation)
    else
      [segs[0]] + MergeClose(segs[1..], separation)
  }

  function RetainLong(segs: seq<Window>, minLength: int): seq<Window> {
    if segs == [] then []
    else
      var init, last := segs[..|segs| - 1], segs[|segs| - 1];
      if last.Length() >= minLength then RetainLong(init, minLength) + [last] else RetainLong(init, minLength)
  }

  predicate Contains(outer: Window, inner: Window) {
    outer.start <= inner.start && outer.end >= inner.end
  }

  predicate AnyContains(segs: seq<Window>, w: Window) {
    exists i :: 0 <= i < |segs| && Contains(segs[i], w)
  }

  function RestoreLast(segs: seq<Window>, last: Option<Window>): seq<Window> {
    if last.Some? && !AnyContains(segs, last.value) then segs + [last.value] else segs
  }

  function ExtendTail(segs: seq<Window>, s: Settings): seq<Window> {
    if segs != [] && s.duration - segs[|segs| - 1].end < s.minSeparation then
      segs[|segs| - 1 := Window(segs[|segs| - 1].start, s.duration)]
    else segs
  }

  /** Everything up to and including the joining loop. */
  function Joined(sorted: seq<Window>, s: Settings): seq<Window> {
    MergeClose(MergeTrailing(MergeLeading(sorted, s), s), s.minSeparation)
  }

  function Merge(ads: seq<Window>, s: Settings): seq<Window> {
    var sorted := Sort(ByPair, ads);
    ExtendTail(RestoreLast(RetainLong(Joined(sorted, s), s.minLength), LastSegment(sorted, s)), s)
  }

  // ---------- the algorithm ----------

  /** The list with window i + 1 absorbed into window i. */
  function Join(segs: seq<Window>, i: nat): seq<Window>
    requires i + 1 < |segs|
  {
    segs[..i] + [Window(segs[i].start, segs[i + 1].end)] + segs[i + 2..]
  }

  /** The joining loop from position i on: join in place, or move to the next window. */
  function JoinFrom(segs: seq<Window>, i: nat, separation: int): seq<Window>
    decreases |segs| - i
  {
    if i + 1 >= |segs| then segs
    else if segs[i].end + separation >= segs[i + 1].start then JoinFrom(Join(segs, i), i, separation)
    else JoinFrom(segs, i + 1, separation)
  }

  lemma {:induction false} JoinFromShift(segs: seq<Window>, i: nat, separation: int)
    requires 0 < i < |segs|
    ensures JoinFrom(segs, i, separation) == [segs[0]] + JoinFrom(segs[1..], i - 1, separation)
    decreases |segs| - i
  {
    if i + 1 < |segs| {
      if segs[i].end + separation >= segs[i + 1].start {
        JoinFromShift(Join(segs, i), i, separation);
        assert Join(segs, i)[1..] == Join(segs[1..], i - 1);
      } else {
        JoinFromShift(segs, i + 1, separation);
      }
    }
  }

  lemma {:induction false} JoinFromStart(segs: seq<Window>, separation: int)
    ensures JoinFrom(segs, 0, separation) == MergeClose(segs, separation)
    decreases |segs|
  {
    if |segs| < 2 {
    } else if segs[0].end + separation >= segs[1].start {
      JoinFromStart(Join(segs, 0), separation);
      assert Join(segs, 0) == JoinHead(segs);
    } else {
      JoinFromShift(segs, 1, separation);
      JoinFromStart(segs[1..], separation);
    }
  }

  /** Joins close neighbours of the list in place, removing each one absorbed. */
  method JoinClose(input: seq<Window>, separation: int) returns (segs: seq<Window>)
    ensures segs == MergeClose(input, separation)
  {
    segs := input;
    var i := 0;
    while i + 1 < |segs|
      invariant 0 <= i
      invariant JoinFrom(segs, i, separation) == JoinFrom(input, 0, separation)
      decreases |segs| - i
    {
      if segs[i].end + separation >= segs[i + 1].start {
        ghost var before := segs;
        segs := segs[i := Window(segs[i].start, segs[i + 1].end)];
        segs := segs[..i + 1] + segs[i + 2..];
        assert segs == Join(before, i);
      } else {
        i := i + 1;
      }
    }
    JoinFromStart(input, separation);
  }

  /** Absorbs a short fragment at either edge of the list. */
  method MergeEdges(input: seq<Window>, s: Settings) returns (segs: seq<Window>)
    ensures segs == MergeTrailing(MergeLeading(input, s), s)
  {
    segs := input;
    if |segs| >= 2 {
      if LeadingFragment(segs, s) {
        segs := segs[1 := Window(segs[0].start, segs[1].end)];
        segs := segs[1..];
      }
      assert segs == MergeLeading(input, s);
      if |segs| >= 2 {
        var n := |segs|;
        if TrailingFragment(segs, s) {
          segs := segs[n - 2 := Window(segs[n - 2].start, segs[n - 1].end)];
          segs := segs[..n - 1];
        }
      }
    }
  }

  method DropShort(input: seq<Window>, minLength: int) returns (segs: seq<Window>)
    ensures segs == RetainLong(input, minLength)
  {
    segs := [];
    for i := 0 to |input|
      invariant segs == RetainLong(input[..i], minLength)
    {
      assert input[..i + 1][..i] == input[..i];
      if input[i].end - input[i].start >= minLength {
        segs := segs + [input[i]];
      }
    }
    assert input[..|input|] == input;
  }

  /** Puts the last ad back if nothing holds it, and runs a last ad near the end to the end. */
  method FinishTail(input: seq<Window>, lastSegment: Option<Window>, s: Settings) returns (segs: seq<Window>)
    ensures segs == ExtendTail(RestoreLast(input, lastSegment), s)
  {
    segs := input;
    if lastSegment.Some? {
      if !AnyContains(segs, lastSegment.value) {
        segs := segs + [lastSegment.value];
      }
    }
    if |segs| > 0 {
      var n := |segs|;
      if s.duration - segs[n - 1].end < s.minSeparation {
        segs := segs[n - 1 := Window(segs[n - 1].start, s.duration)];
      }
    }
  }

  method MergeCutterAdSegments(adSegments: seq<Window>, s: Settings) returns (segs: seq<Window>)
    ensures segs == Merge(adSegments, s)
  {
    if |adSegments| == 0 {
      return [];
    }
    SortKeepsElements(ByPair, adSegments);
    var sorted := Sort(ByPair, adSegments);
    var n := |sorted|;
    var lastSegment := if s.duration - sorted[n - 1].end < s.minSeparation then Some(sorted[n - 1]) else None;
    segs := MergeEdges(sorted, s);
    segs := JoinClose(segs, s.minSeparation);
    segs := DropShort(segs, s.minLength);
    segs := FinishTail(segs, lastSegment, s);
  }

  // ---------- what the stages keep ----------

  /** Windows of a file: not inverted, inside the file, ordered by start. */
  ghost predicate Inside(ws: seq<Window>, duration: int) {
    && (forall i :: 0 <= i < |ws| ==> ws[i].start <= ws[i].end <= duration)
    && (forall i, j :: 0 <= i < j < |ws| ==> ws[i].start <= ws[j].start)
  }

  /** No window is nested in an earlier one: ends are ordered too. */
  ghost predicate EndsOrdered(ws: seq<Window>) {
    forall i, j :: 0 <= i < j < |ws| ==> ws[i].end <= ws[j].end
  }

  /** Windows in order up to `hi`, each starting more than `separation` behind every earlier one. */
  ghost predicate Apart(ws: seq<Window>, separation: int, hi: int) {
    && (forall i :: 0 <= i < |ws| ==> ws[i].start <= ws[i].end <= hi)
    && (forall i, j :: 0 <= i < j < |ws| ==> ws[i].end + separation < ws[j].start)
  }

  lemma {:induction false} ByPairIsPreorder()
    ensures TotalPreorder(ByPair)
  {
  }

  lemma {:induction false} SortedInside(ads: seq<Window>, duration: int)
    requires forall i :: 0 <= i < |ads| ==> ads[i].start <= ads[i].end <= duration
    ensures Inside(Sort(ByPair, ads), duration)
  {
    ByPairIsPreorder();
    SortOrders(ByPair, ads);
    SortKeepsElements(ByPair, ads);
    var sorted := Sort(ByPair, ads);
    forall i | 0 <= i < |sorted|
      ensures sorted[i].start <= sorted[i].end <= duration
    {
      assert sorted[i] in ads;
    }
    forall i, j | 0 <= i < j < |sorted|
      ensures sorted[i].start <= sorted[j].start
    {
      assert ByPair(sorted[i], sorted[j]);
    }
  }

  lemma {:induction false} LeadingKeepsInside(segs: seq<Window>, s: Settings)
    requires Inside(segs, s.duration) && segs != []
    ensures var m := MergeLeading(segs, s);
            && Inside(m, s.duration) && m != []
            && m[|m| - 1].end == segs[|segs| - 1].end
            && m[|m| - 1].start <= segs[|segs| - 1].start
  {
  }

  lemma {:induction false} TrailingKeepsInside(segs: seq<Window>, s: Settings)
    requires Inside(segs, s.duration) && segs != []
    ensures var m := MergeTrailing(segs, s);
            && Inside(m, s.duration) && m != []
            && m[|m| - 1].end == segs[|segs| - 1].end
            && m[|m| - 1].start <= segs[|segs| - 1].start
  {
  }

  /** The edge merges keep the list well formed, and its last window still contains the old last. */
  lemma {:induction false} EdgesKeepInside(segs: seq<Window>, s: Settings)
    requires Inside(segs, s.duration) && segs != []
    ensures var m := MergeTrailing(MergeLeading(segs, s), s);
            && Inside(m, s.duration) && m != []
            && m[|m| - 1].end == segs[|segs| - 1].end
            && m[|m| - 1].start <= segs[|segs| - 1].start
  {
    LeadingKeepsInside(segs, s);
    TrailingKeepsInside(MergeLeading(segs, s), s);
  }

  /** The joined list starts where the list starts and ends where it ends. */
  lemma {:induction false} JoinBounds(segs: seq<Window>, separation: int, duration: int)
    requires Inside(segs, duration) && segs != []
    ensures var m := MergeClose(segs, separation);
            && m != []
            && m[0].start == segs[0].start
            && m[|m| - 1].end == segs[|segs| - 1].end
            && m[|m| - 1].start <= segs[|segs| - 1].start
    decreases |segs|
  {
    if |segs| < 2 {
    } else if segs[0].end + separation >= segs[1].start {
      JoinBounds(JoinHead(segs), separation, duration);
    } else {
      JoinBounds(segs[1..], separation, duration);
    }
  }

  lemma {:induction false} ApartCons(head: Window, rest: seq<Window>, separation: int, hi: int)
    requires Apart(rest, separation, hi) && head.start <= head.end <= hi
    requires rest != [] && head.end + separation < rest[0].start && 0 <= separation
    ensures Apart([head] + rest, separation, hi)
  {
    assert forall k :: 0 < k < |rest| ==> rest[0].end + separation < rest[k].start;
  }

  lemma {:induction false} MergeCloseApart(segs: seq<Window>, duration: int, separation: int)
    requires Inside(segs, duration) && 0 <= separation
    ensures Apart(MergeClose(segs, separation), separation, duration)
    decreases |segs|
  {
    if |segs| < 2 {
    } else if segs[0].end + separation >= segs[1].start {
      MergeCloseApart(JoinHead(segs), duration, separation);
    } else {
      MergeCloseApart(segs[1..], duration, separation);
      JoinBounds(segs[1..], separation, duration);
      ApartCons(segs[0], MergeClose(segs[1..], separation), separation, duration);
    }
  }

  lemma {:induction false} ApartIsFixpoint(segs: seq<Window>, separation: int, hi: int)
    requires Apart(segs, separation, hi)
    ensures MergeClose(segs, separation) == segs
  {
    if |segs| < 2 {
    } else {
      assert segs[0].end + separation < segs[1].start;
      ApartIsFixpoint(segs[1..], separation, hi);
    }
  }

  ghost predicate AllLong(segs: seq<Window>, minLength: int) {
    forall i :: 0 <= i < |segs| ==> segs[i].Length() >= minLength
  }

  lemma {:induction false} RetainLongKeeps(segs: seq<Window>, separation: int, hi: int, minLength: int)
    requires Apart(segs, separation, hi) && 0 <= separation
    ensures Apart(RetainLong(segs, minLength), separation, hi)
    ensures AllLong(RetainLong(segs, minLength), minLength)
  {
    if segs == [] {
    } else {
      var init, last := segs[..|segs| - 1], segs[|segs| - 1];
      RetainLongKeeps(init, separation, last.start - separation - 1, minLength);
    }
  }

  // ---------- separation, the tail and the minimum length ----------

  /** The list before its tail is extended. */
  function Restored(sorted: seq<Window>, s: Settings): seq<Window> {
    RestoreLast(RetainLong(Joined(sorted, s), s.minLength), LastSegment(sorted, s))
  }

  /** Apart, and nothing is short except a last window close to the end of the file. */
  ghost predicate ReadyToExtend(r: seq<Window>, s: Settings) {
    && Apart(r, s.minSeparation, s.duration)
    && (r != [] ==> AllLong(r[..|r| - 1], s.minLength))
    && (r != [] ==> r[|r| - 1].Length() >= s.minLength || s.duration - r[|r| - 1].end < s.minSeparation)
  }

  /** What a merged list looks like: apart, long but perhaps for the last window, and with a last
      window that reaches the end of the file when it is short or close to it. No separation leaves
      no short window. */
  ghost predicate Settled(m: seq<Window>, s: Settings) {
    && Apart(m, s.minSeparation, s.duration)
    && (m != [] ==>
          && AllLong(m[..|m| - 1], s.minLength)
          && (m[|m| - 1].Length() >= s.minLength || (m[|m| - 1].end == s.duration && 0 < s.minSeparation))
          && (m[|m| - 1].end == s.duration || m[|m| - 1].end <= s.duration - s.minSeparation))
  }

  lemma {:induction false} ApartSnoc(init: seq<Window>, last: Window, separation: int, bound: int, hi: int)
    requires Apart(init, separation, bound) && 0 <= separation
    requires bound + separation < last.start <= last.end <= hi
    ensures Apart(init + [last], separation, hi)
  {
  }

  lemma {:induction false} LongTailIsReady(joined: seq<Window>, last: Option<Window>, s: Settings)
    requires Apart(joined, s.minSeparation, s.duration) && joined != [] && 0 <= s.minSeparation
    requires last.Some? ==> Contains(joined[|joined| - 1], last.value)
    requires joined[|joined| - 1].Length() >= s.minLength
    ensures ReadyToExtend(RestoreLast(RetainLong(joined, s.minLength), last), s)
  {
    var retained := RetainLong(joined, s.minLength);
    RetainLongKeeps(joined, s.minSeparation, s.duration, s.minLength);
    assert retained[|retained| - 1] == joined[|joined| - 1];
  }

  /** Windows that all lie well before the last ad leave room to put it back. */
  lemma {:induction false} RestoredLastIsReady(retained: seq<Window>, last: Option<Window>, s: Settings, bound: int)
    requires Apart(retained, s.minSeparation, bound) && AllLong(retained, s.minLength)
    requires bound <= s.duration && 0 <= s.minSeparation
    requires last.Some? ==> bound + s.minSeparation < last.value.start <= last.value.end <= s.duration
    requires last.Some? ==> s.duration - last.value.end < s.minSeparation
    ensures ReadyToExtend(RestoreLast(retained, last), s)
  {
    if last.Some? {
      ApartSnoc(retained, last.value, s.minSeparation, bound, s.duration);
      assert (retained + [last.value])[..|retained|] == retained;
    }
  }

  /** The window holding the last ad is dropped, so all that is retained lies before it. */
  lemma {:induction false} ShortTailIsReady(joined: seq<Window>, last: Option<Window>, s: Settings)
    requires Apart(joined, s.minSeparation, s.duration) && joined != [] && 0 <= s.minSeparation
    requires last.Some? ==> Contains(joined[|joined| - 1], last.value)
    requires last.Some? ==> last.value.start <= last.value.end <= s.duration
    requires last.Some? ==> s.duration - last.value.end < s.minSeparation
    requires joined[|joined| - 1].Length() < s.minLength
    ensures ReadyToExtend(RestoreLast(RetainLong(joined, s.minLength), last), s)
  {
    var init, holder := joined[..|joined| - 1], joined[|joined| - 1];
    var bound := holder.start - s.minSeparation - 1;
    RetainLongKeeps(init, s.minSeparation, bound, s.minLength);
    assert RetainLong(joined, s.minLength) == RetainLong(init, s.minLength);
    RestoredLastIsReady(RetainLong(init, s.minLength), last, s, bound);
  }

  lemma {:induction false} TailIsReady(joined: seq<Window>, last: Option<Window>, s: Settings)
    requires Apart(joined, s.minSeparation, s.duration) && joined != [] && 0 <= s.minSeparation
    requires last.Some? ==> Contains(joined[|joined| - 1], last.value)
    requires last.Some? ==> last.value.start <= last.value.end <= s.duration
    requires last.Some? ==> s.duration - last.value.end < s.minSeparation
    ensures ReadyToExtend(RestoreLast(RetainLong(joined, s.minLength), last), s)
  {
    if joined[|joined| - 1].Length() >= s.minLength {
      LongTailIsReady(joined, last, s);
    } else {
      ShortTailIsReady(joined, last, s);
    }
  }

  lemma {:induction false} JoinKeepsLast(edged: seq<Window>, last: Window, s: Settings)
    requires Inside(edged, s.duration) && 0 <= s.minSeparation && edged != []
    requires edged[|edged| - 1].end == last.end && edged[|edged| - 1].start <= last.start
    ensures var joined := MergeClose(edged, s.minSeparation);
            && Apart(joined, s.minSeparation, s.duration)
            && joined != [] && Contains(joined[|joined| - 1], last)
  {
    JoinBounds(edged, s.minSeparation, s.duration);
    MergeCloseApart(edged, s.duration, s.minSeparation);
  }

  /** The joined list is apart and its last window contains the last ad. */
  lemma {:induction false} JoinedKeeps(sorted: seq<Window>, s: Settings)
    requires Inside(sorted, s.duration) && 0 <= s.minSeparation && sorted != []
    ensures Apart(Joined(sorted, s), s.minSeparation, s.duration)
    ensures Joined(sorted, s) != [] && Contains(Joined(sorted, s)[|Joined(sorted, s)| - 1], sorted[|sorted| - 1])
  {
    EdgesKeepInside(sorted, s);
    JoinKeepsLast(MergeTrailing(MergeLeading(sorted, s), s), sorted[|sorted| - 1], s);
  }

  lemma {:induction false} RestoredIsReady(sorted: seq<Window>, s: Settings)
    requires Inside(sorted, s.duration) && 0 <= s.minSeparation
    ensures ReadyToExtend(Restored(sorted, s), s)
  {
    if sorted == [] {
    } else {
      JoinedKeeps(sorted, s);
      TailIsReady(Joined(sorted, s), LastSegment(sorted, s), s);
    }
  }

  lemma {:induction false} ExtendSettles(r: seq<Window>, s: Settings)
    requires ReadyToExtend(r, s) && 0 <= s.minSeparation
    ensures Settled(ExtendTail(r, s), s)
  {
    if r != [] {
      var n := |r|;
      assert ExtendTail(r, s)[..n - 1] == r[..n - 1];
    }
  }

  /** The merged ads lie inside the file and start more than the separation behind one another;
      one shorter than the minimum length runs to the end of the file; and no ad stops
      strictly inside the last separation of the file. */
  lemma {:induction false} MergeSettles(ads: seq<Window>, s: Settings)
    requires forall i :: 0 <= i < |ads| ==> ads[i].start <= ads[i].end <= s.duration
    requires 0 <= s.minSeparation
    ensures Apart(Merge(ads, s), s.minSeparation, s.duration) && Settled(Merge(ads, s), s)
    ensures forall i :: 0 <= i < |Merge(ads, s)| ==>
              Merge(ads, s)[i].Length() >= s.minLength || Merge(ads, s)[i].end == s.duration
    ensures forall i :: 0 <= i < |Merge(ads, s)| ==>
              Merge(ads, s)[i].end == s.duration || Merge(ads, s)[i].end <= s.duration - s.minSeparation
  {
    var sorted := Sort(ByPair, ads);
    SortedInside(ads, s.duration);
    RestoredIsReady(sorted, s);
    ExtendSettles(Restored(sorted, s), s);
    SettledEverywhere(Merge(ads, s), s);
  }

  lemma {:induction false} SettledEverywhere(m: seq<Window>, s: Settings)
    requires Settled(m, s)
    ensures forall i :: 0 <= i < |m| ==> m[i].Length() >= s.minLength || m[i].end == s.duration
    ensures forall i :: 0 <= i < |m| ==> m[i].end == s.duration || m[i].end <= s.duration - s.minSeparation
  {
    var n := |m|;
    forall i | 0 <= i < n - 1
      ensures m[i].Length() >= s.minLength && m[i].end <= s.duration - s.minSeparation
    {
      assert m[..n - 1][i] == m[i];
      assert m[i].end + s.minSeparation < m[n - 1].start;
    }
  }

  // ---------- coverage ----------

  /** The first window of the j-th group, where `ends` lists the last windows of the groups. */
  function First(ends: seq<nat>, j: nat): nat
    requires j < |ends|
  {
    if j == 0 then 0 else ends[j - 1] + 1
  }

  /** The j-th window of `m` is the j-th group, from its first window's start to its last one's end. */
  ghost predicate GroupAt(segs: seq<Window>, m: seq<Window>, ends: seq<nat>, j: nat)
    requires j < |m| == |ends|
  {
    First(ends, j) <= ends[j] < |segs| && m[j] == Window(segs[First(ends, j)].start, segs[ends[j]].end)
  }

  /** `m` has one window for each group of consecutive windows of `segs`. */
  ghost predicate Groups(segs: seq<Window>, m: seq<Window>, ends: seq<nat>) {
    && |ends| == |m| && (segs == [] <==> m == [])
    && (m != [] ==> ends[|m| - 1] == |segs| - 1)
    && (forall j: nat :: j < |m| ==> GroupAt(segs, m, ends, j))
  }

  /** Groups of groups are groups. */
  lemma {:induction false} GroupsCompose(a: seq<Window>, b: seq<Window>, c: seq<Window>, inner: seq<nat>,
                                         outer: seq<nat>)
    returns (ends: seq<nat>)
    requires Groups(a, b, inner) && Groups(b, c, outer)
    ensures Groups(a, c, ends) && |ends| == |outer|
    ensures forall j :: 0 <= j < |outer| ==> outer[j] < |inner| && ends[j] == inner[outer[j]]
  {
    forall j | 0 <= j < |outer|
      ensures outer[j] < |inner|
    {
      assert GroupAt(b, c, outer, j);
    }
    ends := seq(|outer|, j requires 0 <= j < |outer| => inner[outer[j]]);
    forall j: nat | j < |c|
      ensures GroupAt(a, c, ends, j)
    {
      assert GroupAt(b, c, outer, j);
      GroupsIncrease(a, b, inner, First(outer, j), outer[j]);
      assert GroupAt(a, b, inner, First(outer, j)) && GroupAt(a, b, inner, outer[j]);
      if j > 0 {
        assert ends[j - 1] == inner[outer[j - 1]];
      }
    }
  }

  lemma {:induction false} GroupsIncrease(segs: seq<Window>, m: seq<Window>, ends: seq<nat>, i: nat, j: nat)
    requires Groups(segs, m, ends) && i <= j < |m|
    ensures ends[i] + (j - i) <= ends[j] && First(ends, i) + (j - i) <= First(ends, j)
    decreases j
  {
    if i < j {
      GroupsIncrease(segs, m, ends, i, j - 1);
      assert GroupAt(segs, m, ends, j - 1) && GroupAt(segs, m, ends, j);
    }
  }

  /** Whether each window is joined to the next one. */
  type Links = seq<bool>

  /** The groups end exactly where a window is not joined to the next. */
  ghost predicate EndsAt(ends: seq<nat>, links: Links) {
    forall k: nat :: k < |links| ==> (k in ends <==> !links[k])
  }

  function CloseLinks(segs: seq<Window>, separation: int): (links: Links)
    ensures |links| == Max(|segs| - 1, 0)
    ensures forall k {:trigger links[k]} :: 0 <= k < |links| ==>
              (links[k] <==> segs[k].end + separation >= segs[k + 1].start)
  {
    seq(Max(|segs| - 1, 0), k requires 0 <= k < Max(|segs| - 1, 0) => segs[k].end + separation >= segs[k + 1].start)
  }

  /** The last window of the run of joined windows that window k belongs to, and the first one. */
  function RunEnd(links: Links, k: nat): (e: nat)
    requires k <= |links|
    ensures k <= e <= |links|
    decreases |links| - k
  {
    if k < |links| && links[k] then RunEnd(links, k + 1) else k
  }

  function RunStart(links: Links, k: nat): (b: nat)
    requires k <= |links|
    ensures b <= k
  {
    if k > 0 && links[k - 1] then RunStart(links, k - 1) else k
  }

  function Shifted(ends: seq<nat>): (shifted: seq<nat>)
    ensures |shifted| == |ends| && forall j :: 0 <= j < |ends| ==> shifted[j] == ends[j] + 1
  {
    seq(|ends|, j requires 0 <= j < |ends| => ends[j] + 1)
  }

  lemma {:induction false} ShiftedHas(ends: seq<nat>, k: nat)
    ensures k in Shifted(ends) <==> k > 0 && k - 1 in ends
  {
    var shifted := Shifted(ends);
    if k > 0 && k - 1 in ends {
      var j :| 0 <= j < |ends| && ends[j] == k - 1;
      assert shifted[j] == k;
    }
  }

  /** Joining two windows first puts one more in the first group. */
  lemma {:induction false} GroupsOfJoined(segs: seq<Window>, m: seq<Window>, ends: seq<nat>)
    requires |segs| >= 2 && Groups(JoinHead(segs), m, ends)
    ensures Groups(segs, m, Shifted(ends))
  {
    var shifted := Shifted(ends);
    forall j: nat | j < |m|
      ensures GroupAt(segs, m, shifted, j)
    {
      assert GroupAt(JoinHead(segs), m, ends, j);
    }
  }

  /** A window in front is a group of its own. */
  lemma {:induction false} GroupsOfCons(segs: seq<Window>, m: seq<Window>, ends: seq<nat>)
    requires |segs| >= 2 && Groups(segs[1..], m, ends)
    ensures Groups(segs, [segs[0]] + m, [0] + Shifted(ends))
  {
    var all, shifted := [segs[0]] + m, [0] + Shifted(ends);
    forall j: nat | j < |all|
      ensures GroupAt(segs, all, shifted, j)
    {
      if j > 0 {
        assert GroupAt(segs[1..], m, ends, j - 1);
        assert shifted[j] == ends[j - 1] + 1 && all[j] == m[j - 1];
      }
    }
  }

  lemma {:induction false} EndsOfJoined(ends: seq<nat>, links: Links)
    requires links != [] && links[0] && EndsAt(ends, links[1..])
    ensures EndsAt(Shifted(ends), links)
  {
    forall k: nat | k < |links|
      ensures k in Shifted(ends) <==> !links[k]
    {
      ShiftedHas(ends, k);
      assert k > 0 ==> links[1..][k - 1] == links[k];
    }
  }

  lemma {:induction false} EndsOfCons(ends: seq<nat>, links: Links)
    requires links != [] && !links[0] && EndsAt(ends, links[1..])
    ensures EndsAt([0] + Shifted(ends), links)
  {
    forall k: nat | k < |links|
      ensures k in [0] + Shifted(ends) <==> !links[k]
    {
      ShiftedHas(ends, k);
      assert k in [0] + Shifted(ends) <==> k == 0 || k in Shifted(ends);
      assert k > 0 ==> links[1..][k - 1] == links[k];
    }
  }

  /** The joining loop groups what is close. */
  lemma {:induction false} CloseGroups(segs: seq<Window>, separation: int) returns (ends: seq<nat>)
    ensures Groups(segs, MergeClose(segs, separation), ends) && EndsAt(ends, CloseLinks(segs, separation))
    decreases |segs|
  {
    hide EndsAt, Groups;
    var links := CloseLinks(segs, separation);
    if |segs| < 2 {
      ends := AloneGroups(segs);
    } else if links[0] {
      var inner := CloseGroups(JoinHead(segs), separation);
      assert CloseLinks(JoinHead(segs), separation) == links[1..];
      ends := Shifted(inner);
      GroupsOfJoined(segs, MergeClose(JoinHead(segs), separation), inner);
      EndsOfJoined(inner, links);
    } else {
      var inner := CloseGroups(segs[1..], separation);
      assert CloseLinks(segs[1..], separation) == links[1..];
      ends := [0] + Shifted(inner);
      GroupsOfCons(segs, MergeClose(segs[1..], separation), inner);
      EndsOfCons(inner, links);
    }
  }

  /** Each window a group of its own. */
  lemma {:induction false} AloneGroups(segs: seq<Window>) returns (ends: seq<nat>)
    ensures Groups(segs, segs, ends) && |ends| == |segs| && (forall j :: 0 <= j < |ends| ==> ends[j] == j)
    ensures EndsAt(ends, [])
  {
    ends := seq(|segs|, j => j);
    forall j: nat | j < |segs|
      ensures GroupAt(segs, segs, ends, j)
    {
      assert First(ends, j) == j;
    }
  }

  /** What the three joining stages join: a leading fragment to its neighbour, a trailing one to its, and
      whatever is close. */
  function MergeLinks(sorted: seq<Window>, s: Settings): (links: Links)
    ensures |links| == Max(|sorted| - 1, 0)
  {
    seq(Max(|sorted| - 1, 0), k requires 0 <= k < Max(|sorted| - 1, 0) =>
      || (k == 0 && LeadingFragment(sorted, s))
      || (k == |sorted| - 2 && TrailingFragment(MergeLeading(sorted, s), s))
      || sorted[k].end + s.minSeparation >= sorted[k + 1].start)
  }

  function LeadingJoined(sorted: seq<Window>, s: Settings): nat { if LeadingFragment(sorted, s) then 1 else 0 }

  function TrailingJoined(sorted: seq<Window>, s: Settings): nat {
    if TrailingFragment(MergeLeading(sorted, s), s) then 1 else 0
  }

  lemma {:induction false} LeadingGroups(segs: seq<Window>, s: Settings) returns (ends: seq<nat>)
    ensures Groups(segs, MergeLeading(segs, s), ends)
    ensures |ends| == |segs| - LeadingJoined(segs, s)
    ensures forall j :: 0 <= j < |ends| ==> ends[j] == j + LeadingJoined(segs, s)
  {
    if LeadingFragment(segs, s) {
      var alone := AloneGroups(JoinHead(segs));
      ends := Shifted(alone);
      GroupsOfJoined(segs, JoinHead(segs), alone);
    } else {
      ends := AloneGroups(segs);
    }
  }

  lemma {:induction false} TrailingGroups(segs: seq<Window>, s: Settings) returns (ends: seq<nat>)
    ensures Groups(segs, MergeTrailing(segs, s), ends)
    ensures |ends| == |segs| - if TrailingFragment(segs, s) then 1 else 0
    ensures forall j :: 0 <= j < |ends| - 1 ==> ends[j] == j
  {
    if TrailingFragment(segs, s) {
      var n := |segs| - 1;
      ends := seq(n, j => if j == n - 1 then n else j);
      forall j: nat | j < n
        ensures GroupAt(segs, JoinTail(segs), ends, j)
      {
        assert First(ends, j) == j;
      }
    } else {
      ends := AloneGroups(segs);
    }
  }

  lemma {:induction false} EdgeGroups(sorted: seq<Window>, s: Settings) returns (ends: seq<nat>)
    ensures Groups(sorted, MergeTrailing(MergeLeading(sorted, s), s), ends)
    ensures |ends| == |sorted| - LeadingJoined(sorted, s) - TrailingJoined(sorted, s)
    ensures forall j :: 0 <= j < |ends| - 1 ==> ends[j] == j + LeadingJoined(sorted, s)
  {
    var m := MergeLeading(sorted, s);
    var inner := LeadingGroups(sorted, s);
    var outer := TrailingGroups(m, s);
    ends := GroupsCompose(sorted, m, MergeTrailing(m, s), inner, outer);
  }

  /** Where the joining loop does not join what the edge merges leave, nothing is linked. */
  lemma {:induction false} EdgedLinks(sorted: seq<Window>, s: Settings, ends: seq<nat>, x: nat)
    requires Groups(sorted, MergeTrailing(MergeLeading(sorted, s), s), ends)
    requires |ends| == |sorted| - LeadingJoined(sorted, s) - TrailingJoined(sorted, s)
    requires forall j :: 0 <= j < |ends| - 1 ==> ends[j] == j + LeadingJoined(sorted, s)
    requires x < |ends| - 1
    ensures ends[x] < |sorted| - 1
    ensures MergeLinks(sorted, s)[ends[x]]
        <==> CloseLinks(MergeTrailing(MergeLeading(sorted, s), s), s.minSeparation)[x]
  {
    var edged := MergeTrailing(MergeLeading(sorted, s), s);
    assert GroupAt(sorted, edged, ends, x) && GroupAt(sorted, edged, ends, x + 1);
  }

  /** The joined list has one window for each run of links. */
  lemma {:induction false} JoinedGroups(sorted: seq<Window>, s: Settings) returns (ends: seq<nat>)
    ensures Groups(sorted, Joined(sorted, s), ends) && EndsAt(ends, MergeLinks(sorted, s))
  {
    var edged, links := MergeTrailing(MergeLeading(sorted, s), s), MergeLinks(sorted, s);
    var inner := EdgeGroups(sorted, s);
    var outer := CloseGroups(edged, s.minSeparation);
    ends := GroupsCompose(sorted, edged, Joined(sorted, s), inner, outer);
    forall k: nat | k < |links|
      ensures k in ends <==> !links[k]
    {
      JoinedEndAt(sorted, s, inner, outer, ends, k);
    }
  }

  lemma {:induction false} GroupsEndLast(segs: seq<Window>, m: seq<Window>, ends: seq<nat>)
    requires Groups(segs, m, ends)
    ensures |ends| == |m| && (segs == [] <==> m == []) && (m != [] ==> ends[|m| - 1] == |segs| - 1)
  {
  }

  lemma {:induction false} JoinedEndAt(sorted: seq<Window>, s: Settings, inner: seq<nat>, outer: seq<nat>,
                                       ends: seq<nat>, k: nat)
    requires Groups(sorted, MergeTrailing(MergeLeading(sorted, s), s), inner)
    requires |inner| == |sorted| - LeadingJoined(sorted, s) - TrailingJoined(sorted, s)
    requires forall j :: 0 <= j < |inner| - 1 ==> inner[j] == j + LeadingJoined(sorted, s)
    requires EndsAt(outer, CloseLinks(MergeTrailing(MergeLeading(sorted, s), s), s.minSeparation))
    requires |ends| == |outer| && forall j :: 0 <= j < |outer| ==> outer[j] < |inner| && ends[j] == inner[outer[j]]
    requires k < |sorted| - 1
    ensures k in ends <==> !MergeLinks(sorted, s)[k]
  {
    hide Groups, MergeLeading, MergeTrailing, EndsAt;
    var last, edged := |inner| - 1, MergeTrailing(MergeLeading(sorted, s), s);
    GroupsEndLast(sorted, edged, inner);
    if k in ends {
      var x := ComposedFrom(inner, outer, ends, k);
      EdgedLinks(sorted, s, inner, x);
      EndsAtIs(outer, CloseLinks(edged, s.minSeparation), x);
    }
    if !MergeLinks(sorted, s)[k] {
      var x := k - LeadingJoined(sorted, s);
      EdgedLinks(sorted, s, inner, x);
      EndsAtIs(outer, CloseLinks(edged, s.minSeparation), x);
      ComposedTo(inner, outer, ends, x);
    }
  }

  lemma {:induction false} EndsAtIs(ends: seq<nat>, links: Links, k: nat)
    requires EndsAt(ends, links) && k < |links|
    ensures k in ends <==> !links[k]
  {
  }

  lemma {:induction false} ComposedFrom(inner: seq<nat>, outer: seq<nat>, ends: seq<nat>, k: nat) returns (x: nat)
    requires |ends| == |outer| && forall j :: 0 <= j < |outer| ==> outer[j] < |inner| && ends[j] == inner[outer[j]]
    requires k in ends
    ensures x in outer && x < |inner| && inner[x] == k
  {
    var j :| 0 <= j < |ends| && ends[j] == k;
    x := outer[j];
  }

  lemma {:induction false} ComposedTo(inner: seq<nat>, outer: seq<nat>, ends: seq<nat>, x: nat)
    requires |ends| == |outer| && forall j :: 0 <= j < |outer| ==> outer[j] < |inner| && ends[j] == inner[outer[j]]
    requires x in outer
    ensures x < |inner| && inner[x] in ends
  {
    var j :| 0 <= j < |outer| && outer[j] == x;
    assert ends[j] == inner[x];
  }

  /** The group of a window is the run of links around it. */
  lemma {:induction false} GroupIsRun(segs: seq<Window>, m: seq<Window>, ends: seq<nat>, links: Links, j: nat, k: nat)
    requires Groups(segs, m, ends) && EndsAt(ends, links) && |links| == Max(|segs| - 1, 0)
    requires j < |m| && First(ends, j) <= k <= ends[j]
    ensures k <= |links| && RunEnd(links, k) == ends[j] && RunStart(links, k) == First(ends, j)
  {
    assert GroupAt(segs, m, ends, j);
    LinkedUpTo(segs, m, ends, links, j);
    RunEndAt(links, k, ends[j]);
    RunStartAt(links, First(ends, j), k);
  }

  lemma {:induction false} LinkedUpTo(segs: seq<Window>, m: seq<Window>, ends: seq<nat>, links: Links, j: nat)
    requires Groups(segs, m, ends) && EndsAt(ends, links) && |links| == Max(|segs| - 1, 0) && j < |m|
    ensures First(ends, j) <= ends[j] <= |links|
    ensures forall k: nat :: First(ends, j) <= k < ends[j] ==> links[k]
    ensures ends[j] < |links| ==> !links[ends[j]]
    ensures First(ends, j) > 0 ==> !links[First(ends, j) - 1]
  {
    assert GroupAt(segs, m, ends, j);
    forall k: nat | First(ends, j) <= k < ends[j]
      ensures links[k]
    {
      if k in ends {
        var i :| 0 <= i < |ends| && ends[i] == k;
        if i < j {
          GroupsIncrease(segs, m, ends, i, j - 1);
        } else {
          GroupsIncrease(segs, m, ends, j, i);
        }
      }
    }
    if j > 0 {
      GroupsIncrease(segs, m, ends, j - 1, j);
      assert ends[j - 1] in ends;
    }
    assert ends[j] in ends;
  }

  lemma {:induction false} RunEndAt(links: Links, k: nat, e: nat)
    requires k <= e <= |links| && (e < |links| ==> !links[e])
    requires forall i: nat :: k <= i < e ==> links[i]
    ensures RunEnd(links, k) == e
    decreases e - k
  {
    if k < e {
      RunEndAt(links, k + 1, e);
    }
  }

  lemma {:induction false} RunStartAt(links: Links, b: nat, k: nat)
    requires b <= k <= |links| && (b > 0 ==> !links[b - 1])
    requires forall i: nat :: b <= i < k ==> links[i]
    ensures RunStart(links, k) == b
    decreases k
  {
    if b < k {
      RunStartAt(links, b, k - 1);
    }
  }

  /** Every window belongs to some group. */
  lemma {:induction false} GroupOf(segs: seq<Window>, m: seq<Window>, ends: seq<nat>, k: nat, j: nat) returns (g: nat)
    requires Groups(segs, m, ends) && k < |segs| && j < |m| && k <= ends[j]
    ensures g <= j && First(ends, g) <= k <= ends[g]
    decreases j
  {
    if First(ends, j) <= k {
      g := j;
    } else {
      g := GroupOf(segs, m, ends, k, j - 1);
    }
  }

  /** A window of `m` holds window k only as the window of its group, and only when k ends no later. */
  lemma {:induction false} GroupHolds(segs: seq<Window>, m: seq<Window>, ends: seq<nat>, g: nat, k: nat,
                                      separation: int, hi: int)
    requires Groups(segs, m, ends) && Inside(segs, hi) && Apart(m, separation, hi) && 0 <= separation
    requires g < |m| && First(ends, g) <= k <= ends[g]
    ensures k < |segs| && m[g].start <= segs[k].start <= m[g].end
    ensures Contains(m[g], segs[k]) <==> segs[k].end <= m[g].end
    ensures forall j: nat :: j < |m| && j != g ==> !Contains(m[j], segs[k])
  {
    assert GroupAt(segs, m, ends, g);
    if k < ends[g] {
      assert segs[k].start <= segs[ends[g]].start;
    }
    if First(ends, g) < k {
      assert segs[First(ends, g)].start <= segs[k].start;
    }
    forall j: nat | j < |m| && j != g
      ensures !Contains(m[j], segs[k])
    {
      assert j < g ==> m[j].end + separation < m[g].start;
      assert g < j ==> m[g].end + separation < m[j].start;
    }
  }

  /** Every window ends no later than the last window of its run. */
  ghost predicate RunsEndLast(segs: seq<Window>, links: Links)
    requires |links| == Max(|segs| - 1, 0)
  {
    forall k: nat :: k < |segs| ==> segs[k].end <= segs[RunEnd(links, k)].end
  }

  lemma {:induction false} GroupedCovers(segs: seq<Window>, m: seq<Window>, ends: seq<nat>, links: Links,
                                         separation: int, hi: int, k: nat)
    requires Groups(segs, m, ends) && EndsAt(ends, links) && |links| == Max(|segs| - 1, 0)
    requires Inside(segs, hi) && Apart(m, separation, hi) && 0 <= separation && k < |segs|
    ensures AnyContains(m, segs[k]) <==> segs[k].end <= segs[RunEnd(links, k)].end
  {
    hide EndsAt, Inside, Apart;
    var g := GroupOf(segs, m, ends, k, |m| - 1);
    GroupHolds(segs, m, ends, g, k, separation, hi);
    GroupIsRun(segs, m, ends, links, g, k);
    assert GroupAt(segs, m, ends, g);
  }

  /** The joining loop keeps every window covered exactly when each run of close windows ends with its
      greatest end. */
  lemma {:induction false} JoinCoversExactly(segs: seq<Window>, separation: int, duration: int)
    requires Inside(segs, duration) && 0 <= separation
    ensures (forall k :: 0 <= k < |segs| ==> AnyContains(MergeClose(segs, separation), segs[k]))
            <==> RunsEndLast(segs, CloseLinks(segs, separation))
  {
    hide AnyContains;
    var m, links := MergeClose(segs, separation), CloseLinks(segs, separation);
    MergeCloseApart(segs, duration, separation);
    var ends := CloseGroups(segs, separation);
    forall k: nat | k < |segs|
      ensures AnyContains(m, segs[k]) <==> segs[k].end <= segs[RunEnd(links, k)].end
    {
      GroupedCovers(segs, m, ends, links, separation, duration, k);
    }
  }

  // ---------- coverage by the whole merge ----------

  /** The last ad stops inside the last separation of the file. */
  predicate NearEnd(sorted: seq<Window>, s: Settings)
    requires sorted != []
  {
    s.duration - sorted[|sorted| - 1].end < s.minSeparation
  }

  /** The merged windows behind the retained ones that stem from the last group `h`. */
  function Tail(h: Window, sorted: seq<Window>, s: Settings): seq<Window>
    requires sorted != []
  {
    if h.Length() >= s.minLength then [Window(h.start, if NearEnd(sorted, s) then s.duration else h.end)]
    else if NearEnd(sorted, s) then [Window(sorted[|sorted| - 1].start, s.duration)]
    else []
  }

  lemma {:induction false} RetainedBound(segs: seq<Window>, minLength: int, separation: int, hi: int)
    requires Apart(segs, separation, hi) && segs != [] && 0 <= separation
    ensures Apart(RetainLong(segs[..|segs| - 1], minLength), separation, segs[|segs| - 1].start - separation - 1)
  {
    RetainLongKeeps(segs[..|segs| - 1], separation, segs[|segs| - 1].start - separation - 1, minLength);
  }

  /** The merge retains the long groups but the last as they are, and finishes with what the last one leaves. */
  lemma {:induction false} MergeByGroups(sorted: seq<Window>, s: Settings)
    requires Inside(sorted, s.duration) && 0 <= s.minSeparation && sorted != []
    ensures var joined := Joined(sorted, s);
            && joined != [] && joined[|joined| - 1].end == sorted[|sorted| - 1].end
            && ExtendTail(Restored(sorted, s), s)
               == RetainLong(joined[..|joined| - 1], s.minLength) + Tail(joined[|joined| - 1], sorted, s)
  {
    var joined := Joined(sorted, s);
    JoinedKeeps(sorted, s);
    JoinedEndsLast(sorted, s);
    RetainedBound(joined, s.minLength, s.minSeparation, s.duration);
    var init, h, last := RetainLong(joined[..|joined| - 1], s.minLength), joined[|joined| - 1], sorted[|sorted| - 1];
    if h.Length() >= s.minLength {
      LongTailFinished(init, h, last, sorted, s);
    } else {
      ShortTailFinished(init, h, last, sorted, s);
    }
  }

  lemma {:induction false} JoinedEndsLast(sorted: seq<Window>, s: Settings)
    requires Inside(sorted, s.duration) && sorted != []
    ensures var joined := Joined(sorted, s); joined != [] && joined[|joined| - 1].end == sorted[|sorted| - 1].end
  {
    EdgesKeepInside(sorted, s);
    JoinBounds(MergeTrailing(MergeLeading(sorted, s), s), s.minSeparation, s.duration);
  }

  lemma {:induction false} LongTailFinished(init: seq<Window>, h: Window, last: Window, sorted: seq<Window>,
                                            s: Settings)
    requires sorted != [] && last == sorted[|sorted| - 1] && Contains(h, last) && h.end == last.end
    requires h.Length() >= s.minLength
    ensures ExtendTail(RestoreLast(init + [h], LastSegment(sorted, s)), s) == init + Tail(h, sorted, s)
  {
    var r := init + [h];
    assert r[|init|] == h && AnyContains(r, last);
    assert r[|init| := Window(h.start, s.duration)] == init + [Window(h.start, s.duration)];
  }

  lemma {:induction false} ShortTailFinished(init: seq<Window>, h: Window, last: Window, sorted: seq<Window>,
                                             s: Settings)
    requires sorted != [] && last == sorted[|sorted| - 1] && Contains(h, last) && h.end == last.end
    requires h.start <= h.end <= s.duration && last.start <= last.end && 0 <= s.minSeparation
    requires Apart(init, s.minSeparation, h.start - s.minSeparation - 1) && h.Length() < s.minLength
    ensures ExtendTail(RestoreLast(init, LastSegment(sorted, s)), s) == init + Tail(h, sorted, s)
  {
    if NearEnd(sorted, s) {
      var r := init + [last];
      assert forall i :: 0 <= i < |init| ==> init[i].end < last.end;
      assert r[|init|] == last;
      assert r[|init| := Window(last.start, s.duration)] == init + [Window(last.start, s.duration)];
    } else {
      assert init + [] == init;
    }
  }

  /** The merge keeps window k of the sorted list: its group is long enough and ends no earlier, or runs to the
      end of the file; or the group is dropped and the last ad, put back, starts where window k does. */
  predicate Kept(sorted: seq<Window>, s: Settings, k: nat)
    requires k < |sorted|
  {
    var first, last := RunStart(MergeLinks(sorted, s), k), RunEnd(MergeLinks(sorted, s), k);
    var long := sorted[last].end - sorted[first].start >= s.minLength;
    if last < |sorted| - 1 then long && sorted[k].end <= sorted[last].end
    else if long then sorted[k].end <= sorted[last].end || NearEnd(sorted, s)
    else NearEnd(sorted, s) && sorted[k].start == sorted[|sorted| - 1].start
  }

  lemma {:induction false} RetainedContains(segs: seq<Window>, minLength: int, w: Window)
    ensures AnyContains(RetainLong(segs, minLength), w)
            <==> exists j :: 0 <= j < |segs| && segs[j].Length() >= minLength && Contains(segs[j], w)
  {
    if segs != [] {
      var init, last := segs[..|segs| - 1], segs[|segs| - 1];
      var retained := RetainLong(init, minLength);
      RetainedContains(init, minLength, w);
      if last.Length() >= minLength {
        ContainsConcat(retained, [last], w);
        assert AnyContains([last], w) <==> Contains([last][0], w);
      }
      if j :| 0 <= j < |init| && init[j].Length() >= minLength && Contains(init[j], w) {
        assert segs[j] == init[j];
      }
      if j :| 0 <= j < |segs| && segs[j].Length() >= minLength && Contains(segs[j], w) {
        assert j < |init| ==> init[j] == segs[j];
      }
    }
  }

  lemma {:induction false} ContainsConcat(a: seq<Window>, b: seq<Window>, w: Window)
    ensures AnyContains(a + b, w) <==> AnyContains(a, w) || AnyContains(b, w)
  {
    if i :| 0 <= i < |a| && Contains(a[i], w) {
      assert (a + b)[i] == a[i];
    }
    if i :| 0 <= i < |b| && Contains(b[i], w) {
      assert (a + b)[|a| + i] == b[i];
    }
  }

  /** Which merged window can hold window k of group g. */
  lemma {:induction false} HolderIsGroup(joined: seq<Window>, s: Settings, w: Window, g: nat)
    requires Apart(joined, s.minSeparation, s.duration) && 0 <= s.minSeparation && g < |joined|
    requires joined[g].start <= w.start <= joined[g].end
    requires forall j: nat :: j < |joined| && j != g ==> !Contains(joined[j], w)
    ensures AnyContains(RetainLong(joined[..|joined| - 1], s.minLength), w)
            <==> g < |joined| - 1 && joined[g].Length() >= s.minLength && Contains(joined[g], w)
    ensures g < |joined| - 1 ==> w.start < joined[|joined| - 1].start
  {
    var init := joined[..|joined| - 1];
    RetainedContains(init, s.minLength, w);
    if g < |joined| - 1 {
      assert init[g] == joined[g] && joined[g].end + s.minSeparation < joined[|joined| - 1].start;
    }
  }

  /** Exactly which windows of the sorted list the merge keeps. */
  lemma {:induction false} KeptExactly(sorted: seq<Window>, s: Settings, k: nat)
    requires Inside(sorted, s.duration) && 0 <= s.minSeparation && k < |sorted|
    ensures AnyContains(ExtendTail(Restored(sorted, s), s), sorted[k]) <==> Kept(sorted, s, k)
  {
    hide Joined, MergeLinks, EndsAt, Restored, ExtendTail, RetainLong, RunEnd, RunStart;
    var joined := Joined(sorted, s);
    JoinedKeeps(sorted, s);
    MergeByGroups(sorted, s);
    var ends := JoinedGroups(sorted, s);
    var g := GroupOf(sorted, joined, ends, k, |joined| - 1);
    GroupHolds(sorted, joined, ends, g, k, s.minSeparation, s.duration);
    GroupIsRun(sorted, joined, ends, MergeLinks(sorted, s), g, k);
    GroupsIncrease(sorted, joined, ends, g, |joined| - 1);
    assert GroupAt(sorted, joined, ends, g);
    HolderIsGroup(joined, s, sorted[k], g);
    ContainsConcat(RetainLong(joined[..|joined| - 1], s.minLength), Tail(joined[|joined| - 1], sorted, s), sorted[k]);
    TailHolds(joined[|joined| - 1], sorted, s, k);
  }

  /** What the last group leaves holds window k exactly when window k starts in it. */
  lemma {:induction false} TailHolds(h: Window, sorted: seq<Window>, s: Settings, k: nat)
    requires Inside(sorted, s.duration) && k < |sorted|
    ensures AnyContains(Tail(h, sorted, s), sorted[k]) <==>
              if h.Length() >= s.minLength
              then h.start <= sorted[k].start && (NearEnd(sorted, s) || sorted[k].end <= h.end)
              else NearEnd(sorted, s) && sorted[k].start == sorted[|sorted| - 1].start
  {
    var tail := Tail(h, sorted, s);
    assert sorted[k].start <= sorted[|sorted| - 1].start;
    assert tail != [] ==> (AnyContains(tail, sorted[k]) <==> Contains(tail[0], sorted[k]));
  }

  /** An ad lies inside one merged ad exactly when the merge keeps it, for every ad of every list. */
  lemma {:induction false} AdKeptExactly(ads: seq<Window>, s: Settings, k: nat)
    requires forall i :: 0 <= i < |ads| ==> ads[i].start <= ads[i].end <= s.duration
    requires 0 <= s.minSeparation && k < |Sort(ByPair, ads)|
    ensures AnyContains(Merge(ads, s), Sort(ByPair, ads)[k]) <==> Kept(Sort(ByPair, ads), s, k)
  {
    SortedInside(ads, s.duration);
    KeptExactly(Sort(ByPair, ads), s, k);
  }

  /** Window k ends no later than its group does, or its group is the last one, long enough, and runs to the end
      of the file. */
  predicate EndsInGroup(sorted: seq<Window>, s: Settings, k: nat)
    requires k < |sorted|
  {
    var first, last := RunStart(MergeLinks(sorted, s), k), RunEnd(MergeLinks(sorted, s), k);
    || sorted[k].end <= sorted[last].end
    || (last == |sorted| - 1 && sorted[last].end - sorted[first].start >= s.minLength && NearEnd(sorted, s))
  }

  ghost predicate AllEndInGroup(sorted: seq<Window>, s: Settings) {
    forall k: nat :: k < |sorted| && sorted[k].Length() >= s.minLength ==> EndsInGroup(sorted, s, k)
  }

  /** For an ad of the minimum length the group alone decides. */
  lemma {:induction false} LongKept(sorted: seq<Window>, s: Settings, k: nat)
    requires Inside(sorted, s.duration) && Ordered(ByPair, sorted) && 0 <= s.minSeparation && k < |sorted|
    requires sorted[k].Length() >= s.minLength
    ensures Kept(sorted, s, k) <==> EndsInGroup(sorted, s, k)
  {
    hide MergeLinks, RunStart, RunEnd;
    var first, n := RunStart(MergeLinks(sorted, s), k), |sorted| - 1;
    assert first < k ==> sorted[first].start <= sorted[k].start;
    assert k < n ==> ByPair(sorted[k], sorted[n]);
  }

  lemma {:induction false} LongAdKept(ads: seq<Window>, s: Settings, k: nat)
    requires forall i :: 0 <= i < |ads| ==> ads[i].start <= ads[i].end <= s.duration
    requires 0 <= s.minSeparation && k < |Sort(ByPair, ads)| && Sort(ByPair, ads)[k].Length() >= s.minLength
    ensures AnyContains(Merge(ads, s), Sort(ByPair, ads)[k]) <==> EndsInGroup(Sort(ByPair, ads), s, k)
  {
    hide Merge, EndsInGroup, AnyContains, Kept;
    SortedInside(ads, s.duration);
    ByPairIsPreorder();
    SortOrders(ByPair, ads);
    AdKeptExactly(ads, s, k);
    LongKept(Sort(ByPair, ads), s, k);
  }

  /** Every ad of at least the minimum length lies inside one merged ad exactly when each ends in its group. */
  lemma {:induction false} MergeCoversExactly(ads: seq<Window>, s: Settings)
    requires forall i :: 0 <= i < |ads| ==> ads[i].start <= ads[i].end <= s.duration
    requires 0 <= s.minSeparation
    ensures (forall w :: w in ads && w.Length() >= s.minLength ==> AnyContains(Merge(ads, s), w))
            <==> AllEndInGroup(Sort(ByPair, ads), s)
  {
    hide Merge, AnyContains;
    var sorted := Sort(ByPair, ads);
    SortKeepsElements(ByPair, ads);
    forall k: nat | k < |sorted| && sorted[k].Length() >= s.minLength
      ensures AnyContains(Merge(ads, s), sorted[k]) <==> EndsInGroup(sorted, s, k)
    {
      LongAdKept(ads, s, k);
    }
    if AllEndInGroup(sorted, s) {
      forall w | w in ads && w.Length() >= s.minLength
        ensures AnyContains(Merge(ads, s), w)
      {
        assert w in sorted;
        var k: nat :| k < |sorted| && sorted[k] == w;
      }
    }
    if forall w :: w in ads && w.Length() >= s.minLength ==> AnyContains(Merge(ads, s), w) {
      forall k: nat | k < |sorted| && sorted[k].Length() >= s.minLength
        ensures EndsInGroup(sorted, s, k)
      {
        assert sorted[k] in ads;
      }
    }
  }

  /** When no ad is nested in an earlier one, every ad of at least the minimum length lies inside one merged ad. */
  lemma {:induction false} MergeCovers(ads: seq<Window>, s: Settings, i: nat)
    requires forall k :: 0 <= k < |ads| ==> ads[k].start <= ads[k].end <= s.duration
    requires EndsOrdered(Sort(ByPair, ads))
    requires 0 <= s.minSeparation && i < |ads| && ads[i].Length() >= s.minLength
    ensures AnyContains(Merge(ads, s), ads[i])
  {
    var sorted := Sort(ByPair, ads);
    forall k: nat | k < |sorted|
      ensures EndsInGroup(sorted, s, k)
    {
      assert k < RunEnd(MergeLinks(sorted, s), k) ==> sorted[k].end <= sorted[RunEnd(MergeLinks(sorted, s), k)].end;
    }
    MergeCoversExactly(ads, s);
    assert ads[i] in ads;
  }

  lemma {:induction false} LeadingKept(sorted: seq<Window>, s: Settings)
    requires Inside(sorted, s.duration) && |sorted| >= 2 && EndsOrdered(sorted)
    requires sorted[0].end - sorted[0].start < s.minLength <= sorted[1].end - sorted[1].start
    requires sorted[0].end + s.minSeparation < sorted[1].start
    ensures Kept(sorted, s, 0) <==> LeadingFragment(sorted, s)
  {
    var links := MergeLinks(sorted, s);
    assert links[0] <==> LeadingFragment(sorted, s);
  }

  /** A short ad at the head, apart from the next one: the merge holds it if and only if it starts in the first 30 s,
      and the next one lasts at least 15 s and starts within 20 s of its end. */
  lemma {:induction false} LeadingAdKept(ads: seq<Window>, s: Settings)
    requires forall i :: 0 <= i < |ads| ==> ads[i].start <= ads[i].end <= s.duration
    requires 0 <= s.minSeparation && |Sort(ByPair, ads)| >= 2 && EndsOrdered(Sort(ByPair, ads))
    requires var sorted := Sort(ByPair, ads);
             && sorted[0].end - sorted[0].start < s.minLength <= sorted[1].end - sorted[1].start
             && sorted[0].end + s.minSeparation < sorted[1].start
    ensures var sorted := Sort(ByPair, ads);
            AnyContains(Merge(ads, s), sorted[0])
            <==> sorted[0].start <= 30_000 && sorted[1].end - sorted[1].start >= 15_000
                 && sorted[1].start - sorted[0].end <= 20_000
  {
    hide Merge, AnyContains, Kept, Sort, EndsOrdered;
    SortedInside(ads, s.duration);
    AdKeptExactly(ads, s, 0);
    LeadingKept(Sort(ByPair, ads), s);
  }

  lemma {:induction false} TrailingLink(sorted: seq<Window>, s: Settings)
    requires |sorted| >= 2 && (|sorted| <= 3 ==> sorted[0].end - sorted[0].start >= s.minLength)
    requires sorted[|sorted| - 2].end + s.minSeparation < sorted[|sorted| - 1].start
    requires sorted[|sorted| - 1].end - sorted[|sorted| - 1].start < s.minLength
    ensures var prior, last := sorted[|sorted| - 2], sorted[|sorted| - 1];
            MergeLinks(sorted, s)[|sorted| - 2]
            <==> s.duration - last.end <= 30_000 && prior.end - prior.start >= 15_000
                 && last.start - prior.end <= 20_000
  {
    var led := MergeLeading(sorted, s);
    assert led[|led| - 1] == sorted[|sorted| - 1] && led[|led| - 2] == sorted[|sorted| - 2];
  }

  lemma {:induction false} TrailingKept(sorted: seq<Window>, s: Settings)
    requires Inside(sorted, s.duration) && |sorted| >= 2 && EndsOrdered(sorted)
    requires var prior, last := sorted[|sorted| - 2], sorted[|sorted| - 1];
             && last.end - last.start < s.minLength <= prior.end - prior.start
             && s.duration - last.end >= s.minSeparation
    ensures Kept(sorted, s, |sorted| - 1) <==> MergeLinks(sorted, s)[|sorted| - 2]
  {
    hide MergeLinks;
    var links, n := MergeLinks(sorted, s), |sorted| - 1;
    var first := RunStart(links, n);
    if links[n - 1] {
      assert first < n;
      assert sorted[first].start <= sorted[n - 1].start;
      assert sorted[n - 1].end <= sorted[n].end;
    }
  }

  /** A short ad at the tail, apart from the one before and not near the end: the merge holds it if and only if it ends
      in the last 30 s, and the one before lasts at least 15 s and ends within 20 s of its start. */
  lemma {:induction false} TrailingAdKept(ads: seq<Window>, s: Settings)
    requires forall i :: 0 <= i < |ads| ==> ads[i].start <= ads[i].end <= s.duration
    requires 0 <= s.minSeparation && |Sort(ByPair, ads)| >= 2 && EndsOrdered(Sort(ByPair, ads))
    requires var sorted := Sort(ByPair, ads); |sorted| == 3 ==> sorted[0].end - sorted[0].start >= s.minLength
    requires var sorted := Sort(ByPair, ads);
             var prior, last := sorted[|sorted| - 2], sorted[|sorted| - 1];
             && last.end - last.start < s.minLength <= prior.end - prior.start
             && prior.end + s.minSeparation < last.start && s.duration - last.end >= s.minSeparation
    ensures var sorted := Sort(ByPair, ads);
            var prior, last := sorted[|sorted| - 2], sorted[|sorted| - 1];
            AnyContains(Merge(ads, s), last)
            <==> s.duration - last.end <= 30_000 && prior.end - prior.start >= 15_000
                 && last.start - prior.end <= 20_000
  {
    hide Merge, AnyContains, Kept, Sort, EndsOrdered, MergeLinks;
    var sorted := Sort(ByPair, ads);
    SortedInside(ads, s.duration);
    AdKeptExactly(ads, s, |sorted| - 1);
    TrailingKept(sorted, s);
    TrailingLink(sorted, s);
  }

  lemma {:induction false} MergeOfOneGroup(ads: seq<Window>, s: Settings, h: Window)
    requires Ordered(ByPair, ads) && Inside(ads, s.duration) && 0 <= s.minSeparation && ads != []
    requires Joined(ads, s) == [h] && h.Length() >= s.minLength
    ensures Merge(ads, s) == [Window(h.start, if NearEnd(ads, s) then s.duration else h.end)]
  {
    hide Joined, Restored, ExtendTail;
    SortOfOrdered(ByPair, ads);
    MergeOfSorted(ads, s);
    MergeByGroups(ads, s);
    assert [h][..0] == [];
    assert RetainLong([], s.minLength) == [];
  }

  lemma {:induction false} RetainOne(w: Window, minLength: int)
    requires w.Length() >= minLength
    ensures RetainLong([w], minLength) == [w]
  {
    assert [w][..0] == [];
  }

  lemma {:induction false} MergeOfTwoGroups(ads: seq<Window>, s: Settings, g: Window, h: Window)
    requires Ordered(ByPair, ads) && Inside(ads, s.duration) && 0 <= s.minSeparation && ads != []
    requires Joined(ads, s) == [g, h] && g.Length() >= s.minLength > h.Length() && NearEnd(ads, s)
    ensures Merge(ads, s) == [g, Window(ads[|ads| - 1].start, s.duration)]
  {
    hide *;
    SortOfOrdered(ByPair, ads);
    MergeOfSorted(ads, s);
    MergeByGroups(ads, s);
    TwoPieces(g, h, ads, s);
  }

  lemma {:induction false} TwoPieces(g: Window, h: Window, ads: seq<Window>, s: Settings)
    requires ads != [] && g.Length() >= s.minLength > h.Length() && NearEnd(ads, s)
    ensures RetainLong([g, h][..1], s.minLength) + Tail([g, h][1], ads, s)
              == [g, Window(ads[|ads| - 1].start, s.duration)]
  {
    RetainOne(g, s.minLength);
    assert [g, h][..1] == [g];
  }

  /** A nested ad can uncover the ad around it: with a 10 s minimum and a 60 s separation, an ad of
      100 s with a 10 s ad inside shrinks to the end of the inner one. */
  lemma {:induction false} NestedAdShrinks()
    ensures var ads := [Window(0, 100_000), Window(10_000, 20_000)];
            var s := Settings(1_000_000, 10_000, 60_000);
            && Merge(ads, s) == [Window(0, 20_000)]
            && ads[0].Length() >= s.minLength && !AnyContains(Merge(ads, s), ads[0])
  {
    hide Merge;
    var ads := [Window(0, 100_000), Window(10_000, 20_000)];
    var s := Settings(1_000_000, 10_000, 60_000);
    assert JoinHead(ads) == [Window(0, 20_000)];
    assert Joined(ads, s) == [Window(0, 20_000)];
    MergeOfOneGroup(ads, s, Window(0, 20_000));
  }

  // ---------- idempotence ----------

  lemma {:induction false} RetainLongFixpoint(segs: seq<Window>, minLength: int)
    requires AllLong(segs, minLength)
    ensures RetainLong(segs, minLength) == segs
  {
    if segs == [] {
    } else {
      RetainLongFixpoint(segs[..|segs| - 1], minLength);
      assert segs == segs[..|segs| - 1] + [segs[|segs| - 1]];
    }
  }

  lemma {:induction false} SettledIsSorted(m: seq<Window>, s: Settings)
    requires Settled(m, s) && 0 <= s.minSeparation
    ensures Sort(ByPair, m) == m && MergeLeading(m, s) == m
  {
    forall i, j | 0 <= i < j < |m|
      ensures ByPair(m[i], m[j])
    {
      assert m[i].end + s.minSeparation < m[j].start;
    }
    SortOfOrdered(ByPair, m);
  }

  /** Dropping and restoring the tail of a settled list gives the list back. */
  lemma {:induction false} TailRestored(m: seq<Window>, s: Settings)
    requires Settled(m, s) && 0 <= s.minSeparation && m != []
    ensures RestoreLast(RetainLong(m, s.minLength), LastSegment(m, s)) == m
  {
    var init, last := m[..|m| - 1], m[|m| - 1];
    assert m == init + [last];
    RetainLongFixpoint(init, s.minLength);
    if last.Length() >= s.minLength {
      assert Contains(m[|m| - 1], last);
    } else {
      forall i | 0 <= i < |init|
        ensures !Contains(init[i], last)
      {
        assert m[i].end + s.minSeparation < m[|m| - 1].start;
      }
    }
  }

  /** Without a trailing fragment to absorb, a settled list comes back unchanged. */
  lemma {:induction false} SettledWithoutFragment(m: seq<Window>, s: Settings)
    requires Settled(m, s) && 0 <= s.minSeparation && !TrailingFragment(m, s)
    ensures Merge(m, s) == m
  {
    SettledIsSorted(m, s);
    MergeOfSorted(m, s);
    SettledJoins(m, s);
    if m != [] {
      TailRestored(m, s);
      SettledTail(m, s);
    }
  }

  lemma {:induction false} SettledTail(m: seq<Window>, s: Settings)
    requires Settled(m, s) && m != []
    ensures ExtendTail(m, s) == m
  {
    assert m[|m| - 1 := m[|m| - 1]] == m;
  }

  lemma {:induction false} SettledJoins(m: seq<Window>, s: Settings)
    requires Settled(m, s) && !TrailingFragment(m, s) && MergeLeading(m, s) == m
    ensures Joined(m, s) == m
  {
    ApartIsFixpoint(m, s.minSeparation, s.duration);
  }

  lemma {:induction false} RetainLongShrinks(segs: seq<Window>, minLength: int)
    ensures |RetainLong(segs, minLength)| <= |segs|
  {
    if segs == [] {
    } else {
      RetainLongShrinks(segs[..|segs| - 1], minLength);
    }
  }

  lemma {:induction false} JoinTailApart(m: seq<Window>, separation: int, hi: int)
    requires Apart(m, separation, hi) && |m| >= 2 && 0 <= separation
    ensures Apart(JoinTail(m), separation, hi)
  {
    assert m[|m| - 2].end + separation < m[|m| - 1].start;
  }

  lemma {:induction false} FragmentIsAbsorbed(m: seq<Window>, s: Settings)
    requires Settled(m, s) && 0 <= s.minSeparation && TrailingFragment(m, s)
    requires MergeLeading(m, s) == m
    ensures Joined(m, s) == JoinTail(m)
  {
    JoinTailApart(m, s.minSeparation, s.duration);
    ApartIsFixpoint(JoinTail(m), s.minSeparation, s.duration);
  }

  lemma {:induction false} JoinedTailStays(m: seq<Window>, s: Settings, last: Option<Window>)
    requires Settled(m, s) && 0 <= s.minSeparation && |m| >= 2
    requires last.Some? ==> last.value == m[|m| - 1]
    ensures |RestoreLast(RetainLong(JoinTail(m), s.minLength), last)| < |m|
  {
    var n := |m|;
    var init, wide := m[..n - 2], Window(m[n - 2].start, m[n - 1].end);
    var retained := RetainLong(JoinTail(m), s.minLength);
    assert m[n - 2].end + s.minSeparation < m[n - 1].start;
    assert m[..n - 1][n - 2].Length() >= s.minLength;
    assert JoinTail(m)[..n - 2] == init;
    assert retained == RetainLong(init, s.minLength) + [wide];
    RetainLongShrinks(init, s.minLength);
    assert Contains(retained[|retained| - 1], m[n - 1]);
  }

  lemma {:induction false} MergeOfSorted(m: seq<Window>, s: Settings)
    requires Sort(ByPair, m) == m
    ensures Merge(m, s) == ExtendTail(Restored(m, s), s)
    ensures |Merge(m, s)| == |Restored(m, s)|
  {
  }

  /** A trailing fragment is absorbed on the second run, so the list gets shorter. */
  lemma {:induction false} SettledWithFragment(m: seq<Window>, s: Settings)
    requires Settled(m, s) && 0 <= s.minSeparation && TrailingFragment(m, s)
    ensures |Merge(m, s)| < |m|
  {
    SettledIsSorted(m, s);
    MergeOfSorted(m, s);
    assert |Restored(m, s)| < |m| by {
      FragmentIsAbsorbed(m, s);
      JoinedTailStays(m, s, LastSegment(m, s));
    }
  }

  /** The last group is short and near the end, the last ad is put back short, and the last long group before it
      is long enough and close enough to absorb it the next time. */
  predicate LeavesFragment(sorted: seq<Window>, s: Settings) {
    && sorted != []
    && var groups, last := Joined(sorted, s), sorted[|sorted| - 1];
       && groups != [] && groups[|groups| - 1].Length() < s.minLength && NearEnd(sorted, s)
       && s.duration - last.start < s.minLength
       && var long := RetainLong(groups[..|groups| - 1], s.minLength);
          && long != []
          && long[|long| - 1].Length() >= 15_000
          && last.start - long[|long| - 1].end <= 20_000
  }

  lemma {:induction false} FragmentByGroups(ads: seq<Window>, s: Settings)
    requires forall i :: 0 <= i < |ads| ==> ads[i].start <= ads[i].end <= s.duration
    requires 0 <= s.minSeparation
    ensures TrailingFragment(Merge(ads, s), s) <==> LeavesFragment(Sort(ByPair, ads), s)
  {
    hide Joined, RetainLong, ExtendTail, Restored;
    var sorted := Sort(ByPair, ads);
    SortedInside(ads, s.duration);
    if sorted != [] {
      MergeByGroups(sorted, s);
      var groups := Joined(sorted, s);
      var long, tail := RetainLong(groups[..|groups| - 1], s.minLength), Tail(groups[|groups| - 1], sorted, s);
      MergeIsFinished(ads, s);
      RetainLongKeepsLong(groups[..|groups| - 1], s.minLength);
      assert Merge(ads, s) == long + tail;
    } else {
      MergeOfNothing(ads, s);
    }
  }

  /** The last of the sorted ads stops inside the last separation of the file. */
  predicate StopsNearEnd(ads: seq<Window>, s: Settings) {
    Sort(ByPair, ads) != [] && NearEnd(Sort(ByPair, ads), s)
  }

  /** The merged ads reach the end of the file when the last ad stops near it, and else none ends after every ad. */
  lemma {:induction false} MergedEnds(ads: seq<Window>, s: Settings, bound: int)
    requires forall i :: 0 <= i < |ads| ==> ads[i].start <= ads[i].end <= s.duration && ads[i].end <= bound
    requires 0 <= s.minSeparation
    ensures var m := Merge(ads, s);
            if StopsNearEnd(ads, s) then m != [] && m[|m| - 1].end == s.duration
            else forall i :: 0 <= i < |m| ==> m[i].end <= bound
  {
    hide Joined, RetainLong, ExtendTail, Restored, Merge;
    var sorted := Sort(ByPair, ads);
    if sorted == [] {
      MergeOfNothing(ads, s);
    } else {
      SortedInside(ads, s.duration);
      SortKeepsElements(ByPair, ads);
      assert sorted[|sorted| - 1] in ads;
      MergeByGroups(sorted, s);
      MergeIsFinished(ads, s);
      JoinedKeeps(sorted, s);
      RetainedBound(Joined(sorted, s), s.minLength, s.minSeparation, s.duration);
    }
  }

  lemma {:induction false} MergeIsFinished(ads: seq<Window>, s: Settings)
    ensures Merge(ads, s) == ExtendTail(Restored(Sort(ByPair, ads), s), s)
  {
  }

  lemma {:induction false} MergeOfNothing(ads: seq<Window>, s: Settings)
    requires Sort(ByPair, ads) == []
    ensures Merge(ads, s) == []
  {
  }

  lemma {:induction false} RetainLongKeepsLong(segs: seq<Window>, minLength: int)
    ensures AllLong(RetainLong(segs, minLength), minLength)
  {
    if segs != [] {
      RetainLongKeepsLong(segs[..|segs| - 1], minLength);
    }
  }

  /** Merging is idempotent exactly when the merged list has no short tail close enough to its
      neighbour to be absorbed on the second run, which the groups of the sorted ads decide; a
      separation of at least the edge gap rules such a tail out. */
  lemma {:induction false} MergeIdempotent(ads: seq<Window>, s: Settings)
    requires forall i :: 0 <= i < |ads| ==> ads[i].start <= ads[i].end <= s.duration
    requires 0 <= s.minSeparation
    ensures Merge(Merge(ads, s), s) == Merge(ads, s) <==> !LeavesFragment(Sort(ByPair, ads), s)
    ensures Merge(Merge(ads, s), s) == Merge(ads, s) <==> !TrailingFragment(Merge(ads, s), s)
    ensures 20_000 <= s.minSeparation ==> Merge(Merge(ads, s), s) == Merge(ads, s)
  {
    var m := Merge(ads, s);
    hide LeavesFragment;
    MergeSettles(ads, s);
    FragmentByGroups(ads, s);
    if TrailingFragment(m, s) {
      SettledWithFragment(m, s);
      assert m[|m| - 2].end + s.minSeparation < m[|m| - 1].start;
    } else {
      SettledWithoutFragment(m, s);
    }
  }

  lemma {:induction false} TailLeft(ads: seq<Window>, s: Settings)
    requires ads == [Window(0, 10_000), Window(12_000, 24_000), Window(34_000, 35_000)]
    requires s == Settings(36_000, 10_000, 5_000)
    ensures Merge(ads, s) == [Window(0, 24_000), Window(34_000, 36_000)]
  {
    hide Merge;
    var joined := [Window(0, 24_000), Window(34_000, 35_000)];
    assert JoinHead(ads) == joined;
    ApartIsFixpoint(joined, s.minSeparation, s.duration);
    MergeOfTwoGroups(ads, s, joined[0], joined[1]);
  }

  /** A run that is not the last: a short tail, put back 10 s behind its neighbour, is absorbed the next time. */
  lemma {:induction false} SecondRunAbsorbsTail()
    ensures var ads := [Window(0, 10_000), Window(12_000, 24_000), Window(34_000, 35_000)];
            var s := Settings(36_000, 10_000, 5_000);
            && Merge(ads, s) == [Window(0, 24_000), Window(34_000, 36_000)]
            && Merge(Merge(ads, s), s) == [Window(0, 36_000)]
  {
    hide Merge;
    var s, merged := Settings(36_000, 10_000, 5_000), [Window(0, 24_000), Window(34_000, 36_000)];
    TailLeft([Window(0, 10_000), Window(12_000, 24_000), Window(34_000, 35_000)], s);
    assert JoinTail(merged) == [Window(0, 36_000)];
    assert Joined(merged, s) == [Window(0, 36_000)];
    MergeOfOneGroup(merged, s, Window(0, 36_000));
  }
}
